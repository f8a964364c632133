# ClickUp → Slack reminder pipeline, modelled in Dafny

This project models the decision logic of a bot that scans a ClickUp workspace for
tasks that are missing tracked time or a same-day comment by the people responsible
for them, and sends each responsible person one Slack direct message that lists those
tasks.

The model has five modules:

- `ClickupService` (`clickup_service.dfy`) covers `src/services/clickupService.js`:
  - the sprint-list activity filter (`getListsInFolder`);
  - the per-task enrichment mapper of `getTasksInList`: the lower-cased status, the
    status → custom-field table, `findField`, assignee resolution, tracked time and the
    latest comment by an assignee;
  - the traversal of spaces → folders → lists → tasks (`getAllRelevantTasks`), which
    keeps only tracked spaces and stamps each task with its space's name;
  - `filterMissingTasks` with `isSameDay`.
- `SlackService` (`slack_service.dfy`) covers `src/services/slackService.js`:
  - the `tasksByAssignee` grouping;
  - the rendering of each message;
  - the per-recipient send loop, which goes on after a failed send.
- `Seqs`, `Text` and `Wrappers` are helpers: order-preserving filtering and the
  subsequence relation; ASCII lower-casing, JavaScript `\s` whitespace removal,
  `includes`, `join` and `split`; and `Option`.

Every ClickUp API response is part of the input. A `Space` holds the folders fetched
for it, a `Folder` its lists (`None` when the response has no `lists` array), a
`RawList` its tasks, and a `RawTask` its comments (`None` when the comment fetch failed
or returned no array). Falsy JavaScript strings are modelled as `""`.

The steps that update variables are methods: `EnrichTask` (the mapper, with its
reassigned locals), `SendReminders`, and the loops `GetListsInFolder`, `GetTasksInList`,
`GetAllRelevantTasks`, `GroupByAssignee` and the send loop `PostAll`. Each is proved equal to a specification function,
and the properties are lemmas about those functions. The bodies of the nested loops
are their own methods (`CollectSpaceTasks`, `CollectFolderTasks`, `AddTask`, `Visit`).

The model follows the code where a fuller design of the bot would differ:

- The status → field table matches the lower-cased status with `===`, not by substring.
- `"testing"` selects the "code review & qa" fields in the table
  (clickupService.js:86). Assignee resolution still treats it like an ordinary status
  (clickupService.js:103), so it falls back to the native assignees. The model keeps
  this inconsistency (`TestingFallsBackToAssignees`).
- A list counts as done when `percent === 100`, or when its due date is set, non-zero
  and earlier than now. A due date equal to now keeps the list.
- The ClickUp → Slack mapping is looked up by exact key, with no normalisation.
- Reviewer-assignment alerts and manager digests do not exist in this code and are
  not modelled.

## Model

| member | source | states |
|---|---|---|
| `ClickupService.GetListsInFolder` | src/services/clickupService.js:42-60 | returns exactly the folder's lists that are not done, in response order, and none when the response has no `lists` array |
| `ClickupService.ActiveListsSpec` | src/services/clickupService.js:46-59 | a list is kept iff its percentage (0 when missing) is not 100 and it is not past a set, non-zero due date; the kept lists are a subsequence of the response |
| `ClickupService.RuleFor` | src/services/clickupService.js:83-92 | exact-match status table: "code review"/"testing" → review fields, "ready to prod" → deployer fields, every other status → assignee fields |
| `ClickupService.FirstMatch` | src/services/clickupService.js:95-96 | the index found is the first field whose non-empty name equals the target ignoring case; no earlier field matches |
| `ClickupService.FindField` | src/services/clickupService.js:94-97 | returns the first field whose name matches case-insensitively; returns none iff there is no `custom_fields` array or no field matches |
| `ClickupService.NamesMembership` | src/services/clickupService.js:105-107 | the names are exactly the non-empty `username \|\| name` values of the users |
| `ClickupService.ResolveAssignees` | src/services/clickupService.js:102-116 | no resolved name is empty |
| `ClickupService.ResolveAssigneesSpec` | src/services/clickupService.js:102-116 | for "code review" and "ready to prod", only the field's user array counts: a present array gives its users' names, and without one the result is empty whatever the native assignees; for other statuses, a non-empty array gives its users' names and otherwise the native assignees are used; every name is non-empty and comes from the allowed sources |
| `ClickupService.TestingFallsBackToAssignees` | src/services/clickupService.js:86-116 | "testing" reads the same field as "code review", yet without a user array it resolves to the native assignees, while "code review" resolves to nobody |
| `ClickupService.TrackedTime` | src/services/clickupService.js:118 | the tracked time is the field's number, and 0 when the field is missing or holds no number |
| `ClickupService.LastCommentDate` | src/services/clickupService.js:122-145 | none iff no comment has a non-empty author whose normalised name equals a normalised assignee; otherwise the latest date among those comments |
| `ClickupService.Enrich` | src/services/clickupService.js:79-146 | none iff the task has no status; otherwise the status is lower-cased; name, url and raw space name are carried over; the assignees are resolved from the field the status table names as responsible; the time is read from the field it names for time; the comment date is the latest by one of those assignees; all assignees are non-empty |
| `ClickupService.ReviewWithoutReviewerField` | src/services/clickupService.js:86-145 | a "code review" task whose "code review & qa" field holds no user array gets no assignees and so no comment date |
| `ClickupService.OrdinaryStatusFallsBack` | src/services/clickupService.js:83-118 | a task whose status is outside the table and whose "assignee" field holds no users is attributed to its native assignees, and its time comes from "time tracked" |
| `ClickupService.EnrichTask` | src/services/clickupService.js:79-146 | the mapper with its reassigned locals computes the same record as the specification `Enrich` |
| `ClickupService.GetTasksInList` | src/services/clickupService.js:63-153 | returns the enriched tasks of the list's response with statusless tasks dropped |
| `ClickupService.TasksOfSpec` | src/services/clickupService.js:77-150 | the k-th result is the enrichment of the k-th task that has a status: statusless tasks dropped, order kept |
| `ClickupService.TasksOfMembership` | src/services/clickupService.js:77-150 | a task is in the result iff it is the enrichment of some raw task of the response |
| `ClickupService.CollectFolderTasks` | src/services/clickupService.js:166-178 | one folder adds the tasks of its active lists, list after list, each stamped with the space name |
| `ClickupService.CollectSpaceTasks` | src/services/clickupService.js:163-179 | one space adds its folders' tasks, folder after folder |
| `ClickupService.GetAllRelevantTasks` | src/services/clickupService.js:155-182 | returns the tasks of the tracked spaces in space, folder, list and task order |
| `ClickupService.StampedListMembership` | src/services/clickupService.js:175-177 | a stamped task of one list is exactly the enrichment of one of its raw tasks with the space name put in |
| `ClickupService.ListsTasksMembership` | src/services/clickupService.js:175-177 | a task comes from the lists iff it is the stamped enrichment of a raw task of one of them |
| `ClickupService.FoldersTasksMembership` | src/services/clickupService.js:166-178 | a task comes from the folders iff it comes from an active list of one of them |
| `ClickupService.SpacesTasksMembership` | src/services/clickupService.js:163-179 | a task comes from the spaces iff it comes from a folder of one of them, stamped with that space's name |
| `ClickupService.AllRelevantTasksSpec` | src/services/clickupService.js:155-182 | a task is collected iff it comes from a space whose name is exactly in the tracked list; its `spaceName` is that tracked name, overriding the raw one |
| `ClickupService.FilterMissingTasks` | src/services/clickupService.js:184-203 | the result is a subsequence of the input; a task is kept iff some relevant status is a substring of its status and either its time is 0, it has no comment date, or that date's calendar day differs from today's |
| `Text.Normalize` | src/services/clickupService.js:129-130 | the normalised name has no whitespace and no upper-case letter, and keeps every other character of the input |
| `Text.NormalizeChar` | src/services/clickupService.js:129-130 | one character normalises to nothing when it is whitespace and to its lower-case form otherwise |
| `Text.NormalizeAppend` | src/services/clickupService.js:129-130 | normalisation works piecewise: the key of a concatenation is the concatenation of the keys, so order and repetition are kept |
| `Text.NormalizeIdempotent` | src/services/clickupService.js:129-130 | normalising a key again changes nothing |
| `Text.NormalizeIgnoresCase` | src/services/clickupService.js:129-130 | lower-casing a name first does not change its key |
| `Text.NormalizeIgnoresSpace` | src/services/clickupService.js:129-130 | removing one whitespace character anywhere does not change the key |
| `Text.NormalizeExample` | src/services/clickupService.js:127-131 | the commenter "Jane Doe" matches the assignee "janedoe" |
| `SlackService.SlackIdOf` | src/services/slackService.js:11-12 | an id is found iff the ClickUp name is a key whose value is non-empty, and the id is that value |
| `SlackService.Visit` | src/services/slackService.js:10-15 | one assignee visit keeps the key order and the dictionary equal to those of the visits so far |
| `SlackService.AddTask` | src/services/slackService.js:10-15 | one task's `assignees.forEach` extends the dictionary by that task's visits |
| `SlackService.GroupByAssignee` | src/services/slackService.js:8-16 | the keys come in insertion order and each key's list is the group of its visits |
| `SlackService.RecipientsSpec` | src/services/slackService.js:9-18 | the keys are distinct; an id is a key iff some assignee maps to it, iff its group is non-empty |
| `SlackService.GroupMembership` | src/services/slackService.js:9-16 | every grouped task is an input task with an assignee that maps to that id |
| `SlackService.GroupOfOneTask` | src/services/slackService.js:10-15 | one task is added to a group once per assignee that maps to it |
| `SlackService.GroupInTaskOrder` | src/services/slackService.js:9-15 | a group lists tasks in input order, each repeated once per mapped assignee |
| `SlackService.GroupMultiplicity` | src/services/slackService.js:9-15 | a task occurs in a group (occurrences in the input) × (its assignees mapping to that id) times |
| `SlackService.TotalEntries` | src/services/slackService.js:9-15 | the group sizes add up to the number of (task, assignee) pairs whose assignee is mapped |
| `SlackService.FirstRoute` | src/services/slackService.js:13 | the position of the first visit routed to an id, and no earlier visit is routed there |
| `SlackService.RecipientsInFirstArrivalOrder` | src/services/slackService.js:13-18 | keys (and so messages) come in the order of their first routed visit |
| `SlackService.EntriesMembership` | src/services/slackService.js:9-10 | the visits are exactly the pairs of an input task with one of its assignees |
| `SlackService.Line` | src/services/slackService.js:19-24 | a bullet line starts with the bullet and holds a line break iff the task's name, status or URL holds one |
| `SlackService.Render` | src/services/slackService.js:19-28 | a message starts with the header and a line break, and for a non-empty group it is the header and the bullet lines joined by line breaks |
| `SlackService.Reminders` | src/services/slackService.js:18-31 | one message per key of `tasksByAssignee` |
| `SlackService.SendReminders` | src/services/slackService.js:7-37 | every recipient gets its message whatever the outcomes of earlier sends; the failed recipients are exactly those whose send failed, in order |
| `SlackService.PostAll` | src/services/slackService.js:18-36 | the send loop posts, key after key, the header and the group's bullet lines to each key, and collects exactly the keys whose send failed, in order |
| `SlackService.ChannelIffMapped` | src/services/slackService.js:9-18 | an id receives a message iff some input task has an assignee that the mapping sends to it |
| `SlackService.RemindersSpec` | src/services/slackService.js:9-31 | message channels are distinct and are exactly the Slack ids some assignee maps to; each message's group is non-empty and holds only tasks with an assignee mapped to that id |
| `SlackService.MessageLines` | src/services/slackService.js:19-28 | split at line breaks, a message is the header line followed by one bullet line per group entry, in order |

## Left out

- The HTTP layer (`apiCall` with axios, the auth header, logging and rethrowing the error): the responses are inputs, so `getAllSpaces` and `getFoldersInSpace` are just the `spaces` input and the `folders` field of a space.
- A missing `tasks`, `folders` or `spaces` array in a response, which makes the source throw: the model always has these arrays.
- `pLimit(5)`, `Promise.all` and the 100 ms `setTimeout` after each comment fetch: these only limit concurrency and rate, so the mappers run sequentially in input order, which is the order `Promise.all` returns.
- The reason a comment fetch failed: any failed fetch and any response without a comment array is `None` and yields no comments.
- The Slack `WebClient` call and its `unfurl_*` options: a `deliver` function gives the outcome of each send, and the error log becomes the `failed` list.
- JavaScript `Date`: timestamps are integers. The calendar day is a `day` function supplied together with `now`. The source reads `Date.now()` once per folder, and the model uses one `now` for all folders.
- ClickupService.TrackedTime: a custom-field value that is not a number counts as 0, while `Number()` in the source can yield NaN (for example for a non-empty array).
- Text.Lower: only A–Z are lower-cased. `toLowerCase` also maps non-ASCII letters.
- `Object.entries` order: the model uses insertion order. JavaScript lists integer-like keys first, but Slack ids are never integer-like.
- Keys inherited from `Object.prototype` (such as `"constructor"`) when looking up the mapping object: the model looks up only the configured keys.
- `src/main.js` (cron scheduling, `process.exit`, wiring), `src/config/index.js` (the tracked spaces, relevant statuses and mapping are parameters) and `src/utils/logger.js` (console output) are not part of this model.
