/** The reminder routing of the Slack side: tasks are grouped by the Slack id their
    ClickUp assignees map to, and each recipient gets one message listing its tasks.
    The Slack client is abstracted as a delivery outcome per message. */
module SlackService {
  import opened Wrappers
  import opened Seqs
  import opened Text
  import opened ClickupService

  /** `config.clickupToSlack`: ClickUp user name to Slack id. */
  type SlackMap = map<string, string>

  /** `config.clickupToSlack[clickupId]`, `None` when the key is missing or the id is empty. */
  function SlackIdOf(mapping: SlackMap, clickupId: string): (r: Option<string>)
    ensures r.Some? <==> clickupId in mapping && mapping[clickupId] != ""
    ensures r.Some? ==> r.value != "" && r.value == mapping[clickupId]
  {
    if clickupId in mapping && mapping[clickupId] != "" then Some(mapping[clickupId]) else None
  }

  // ------------------------------------------------------------------ grouping

  /** One (task, assignee) visit of the nested `forEach`. */
  datatype Entry = Entry(task: Task, clickupId: string)

  function EntriesOf(t: Task): (r: seq<Entry>)
    ensures |r| == |t.assignees|
  {
    seq(|t.assignees|, i requires 0 <= i < |t.assignees| => Entry(t, t.assignees[i]))
  }

  /** All visits, task after task and, within a task, assignee after assignee. */
  function Entries(tasks: seq<Task>): seq<Entry> {
    if tasks == [] then [] else Entries(tasks[..|tasks| - 1]) + EntriesOf(tasks[|tasks| - 1])
  }

  predicate RoutesTo(mapping: SlackMap, e: Entry, slackId: string) {
    SlackIdOf(mapping, e.clickupId) == Some(slackId)
  }

  /** `tasksByAssignee[slackId]` after the visits `entries`. */
  function Group(entries: seq<Entry>, mapping: SlackMap, slackId: string): seq<Task> {
    if entries == [] then []
    else
      var last := entries[|entries| - 1];
      Group(entries[..|entries| - 1], mapping, slackId)
        + (if RoutesTo(mapping, last, slackId) then [last.task] else [])
  }

  /** The keys of `tasksByAssignee` in insertion order after the visits `entries`. */
  function Recipients(entries: seq<Entry>, mapping: SlackMap): seq<string> {
    if entries == [] then []
    else
      var before := Recipients(entries[..|entries| - 1], mapping);
      var id := SlackIdOf(mapping, entries[|entries| - 1].clickupId);
      if id.Some? && id.value !in before then before + [id.value] else before
  }

  /** One visit appended: the dictionary gains the task under the visit's Slack id, and
      the id joins the keys when it is new. */
  lemma VisitStep(entries: seq<Entry>, e: Entry, mapping: SlackMap)
    ensures Recipients(entries + [e], mapping) ==
      var id := SlackIdOf(mapping, e.clickupId);
      var before := Recipients(entries, mapping);
      if id.Some? && id.value !in before then before + [id.value] else before
    ensures forall s ::
      Group(entries + [e], mapping, s) ==
        Group(entries, mapping, s) + (if RoutesTo(mapping, e, s) then [e.task] else [])
  {
    assert (entries + [e])[..|entries|] == entries;
  }

  /** Whether the key order and the dictionary are those the visits `visited` produce. */
  ghost predicate Grouped(visited: seq<Entry>, mapping: SlackMap,
                          recipients: seq<string>, tasksByAssignee: map<string, seq<Task>>) {
    && recipients == Recipients(visited, mapping)
    && (forall s :: s in tasksByAssignee <==> s in recipients)
    && (forall s :: s in tasksByAssignee ==> tasksByAssignee[s] == Group(visited, mapping, s))
  }

  /** The body of the inner `forEach`: one assignee of one task. */
  method Visit(t: Task, clickupId: string, mapping: SlackMap, recipients0: seq<string>,
               tasksByAssignee0: map<string, seq<Task>>, ghost visited0: seq<Entry>)
    returns (recipients: seq<string>, tasksByAssignee: map<string, seq<Task>>)
    requires Grouped(visited0, mapping, recipients0, tasksByAssignee0)
    ensures Grouped(visited0 + [Entry(t, clickupId)], mapping, recipients, tasksByAssignee)
  {
    ghost var e := Entry(t, clickupId);
    VisitStep(visited0, e, mapping);
    recipients, tasksByAssignee := recipients0, tasksByAssignee0;
    var slackId := if clickupId in mapping then mapping[clickupId] else "";
    if slackId == "" {
      assert forall s :: !RoutesTo(mapping, e, s);
      return;
    }
    assert RoutesTo(mapping, e, slackId);
    if slackId !in tasksByAssignee {
      RecipientIffGroup(visited0, mapping, slackId);
      tasksByAssignee := tasksByAssignee[slackId := []];
      recipients := recipients + [slackId];
    }
    tasksByAssignee := tasksByAssignee[slackId := tasksByAssignee[slackId] + [t]];
    forall s | s in tasksByAssignee
      ensures tasksByAssignee[s] == Group(visited0 + [e], mapping, s)
    {
      if s != slackId {
        assert !RoutesTo(mapping, e, s);
      }
    }
  }

  /** `t.assignees.forEach(...)` for one task, on the dictionary built so far. */
  method AddTask(t: Task, mapping: SlackMap, recipients0: seq<string>,
                 tasksByAssignee0: map<string, seq<Task>>, ghost visited0: seq<Entry>)
    returns (recipients: seq<string>, tasksByAssignee: map<string, seq<Task>>)
    requires Grouped(visited0, mapping, recipients0, tasksByAssignee0)
    ensures Grouped(visited0 + EntriesOf(t), mapping, recipients, tasksByAssignee)
  {
    recipients, tasksByAssignee := recipients0, tasksByAssignee0;
    assert visited0 + EntriesOf(t)[..0] == visited0;
    for j := 0 to |t.assignees|
      invariant Grouped(visited0 + EntriesOf(t)[..j], mapping, recipients, tasksByAssignee)
    {
      recipients, tasksByAssignee :=
        Visit(t, t.assignees[j], mapping, recipients, tasksByAssignee, visited0 + EntriesOf(t)[..j]);
      assert visited0 + EntriesOf(t)[..j + 1] == visited0 + EntriesOf(t)[..j] + [Entry(t, t.assignees[j])];
    }
    assert EntriesOf(t)[..|t.assignees|] == EntriesOf(t);
  }

  /** The grouping loop of `sendReminders`: the keys in insertion order and the dictionary. */
  method GroupByAssignee(tasks: seq<Task>, mapping: SlackMap)
    returns (recipients: seq<string>, tasksByAssignee: map<string, seq<Task>>)
    ensures recipients == Recipients(Entries(tasks), mapping)
    ensures forall s :: s in tasksByAssignee <==> s in recipients
    ensures forall s :: s in tasksByAssignee ==> tasksByAssignee[s] == Group(Entries(tasks), mapping, s)
  {
    recipients, tasksByAssignee := [], map[];
    for i := 0 to |tasks|
      invariant Grouped(Entries(tasks[..i]), mapping, recipients, tasksByAssignee)
    {
      recipients, tasksByAssignee := AddTask(tasks[i], mapping, recipients, tasksByAssignee, Entries(tasks[..i]));
      assert tasks[..i + 1][..i] == tasks[..i];
    }
    assert tasks[..|tasks|] == tasks;
  }

  lemma {:induction false} RecipientsDistinct(entries: seq<Entry>, mapping: SlackMap)
    ensures Distinct(Recipients(entries, mapping))
  {
    if entries != [] {
      RecipientsDistinct(entries[..|entries| - 1], mapping);
    }
  }

  lemma {:induction false} RecipientIffGroup(entries: seq<Entry>, mapping: SlackMap, s: string)
    ensures s in Recipients(entries, mapping) <==> Group(entries, mapping, s) != []
  {
    if entries != [] {
      RecipientIffGroup(entries[..|entries| - 1], mapping, s);
    }
  }

  lemma {:induction false} RecipientIffRouted(entries: seq<Entry>, mapping: SlackMap, s: string)
    ensures s in Recipients(entries, mapping) <==> exists e :: e in entries && RoutesTo(mapping, e, s)
  {
    if entries != [] {
      var init := entries[..|entries| - 1];
      var last := entries[|entries| - 1];
      RecipientIffRouted(init, mapping, s);
      InitLast(entries);
      if exists e :: e in entries && RoutesTo(mapping, e, s) {
        var e :| e in entries && RoutesTo(mapping, e, s);
        if e != last {
          assert e in init;
        }
      }
      if s in Recipients(entries, mapping) {
        if s in Recipients(init, mapping) {
          var e :| e in init && RoutesTo(mapping, e, s);
          assert e in entries;
        } else {
          assert RoutesTo(mapping, last, s);
        }
      }
    }
  }

  /** Recipients are distinct; an id is a recipient exactly when some visit routes to
      it, and exactly when its group is non-empty. */
  lemma RecipientsSpec(entries: seq<Entry>, mapping: SlackMap)
    ensures Distinct(Recipients(entries, mapping))
    ensures forall s :: s in Recipients(entries, mapping) <==>
      exists e :: e in entries && RoutesTo(mapping, e, s)
    ensures forall s :: s in Recipients(entries, mapping) <==> Group(entries, mapping, s) != []
  {
    RecipientsDistinct(entries, mapping);
    forall s ensures s in Recipients(entries, mapping) <==> exists e :: e in entries && RoutesTo(mapping, e, s) {
      RecipientIffRouted(entries, mapping, s);
    }
    forall s ensures s in Recipients(entries, mapping) <==> Group(entries, mapping, s) != [] {
      RecipientIffGroup(entries, mapping, s);
    }
  }

  /** Every entry of a group is a task of the input with an assignee mapped to that id;
      a task with no mapped assignee is in no group. */
  lemma {:induction false} GroupMembership(tasks: seq<Task>, mapping: SlackMap, slackId: string)
    ensures forall t :: t in Group(Entries(tasks), mapping, slackId) ==>
      t in tasks && exists a :: a in t.assignees && SlackIdOf(mapping, a) == Some(slackId)
  {
    if tasks != [] {
      var init := tasks[..|tasks| - 1];
      var last := tasks[|tasks| - 1];
      GroupMembership(init, mapping, slackId);
      GroupAppend(Entries(init), EntriesOf(last), mapping, slackId);
      assert tasks == init + [last];
      forall t | t in Group(EntriesOf(last), mapping, slackId)
        ensures t == last && exists a :: a in t.assignees && SlackIdOf(mapping, a) == Some(slackId)
      {
        GroupOfOneTask(last, mapping, slackId);
        assert t == last && RouteCount(last.assignees, mapping, slackId) > 0;
        RouteCountPositive(last.assignees, mapping, slackId);
      }
    }
  }

  lemma {:induction false} GroupAppend(a: seq<Entry>, b: seq<Entry>, mapping: SlackMap, slackId: string)
    ensures Group(a + b, mapping, slackId) == Group(a, mapping, slackId) + Group(b, mapping, slackId)
  {
    if b != [] {
      GroupAppend(a, b[..|b| - 1], mapping, slackId);
      assert (a + b)[..|a + b| - 1] == a + b[..|b| - 1];
    } else {
      assert a + b == a;
    }
  }

  /** The number of ids that map to `slackId`. */
  function RouteCount(ids: seq<string>, mapping: SlackMap, slackId: string): nat {
    if ids == [] then 0
    else
      RouteCount(ids[..|ids| - 1], mapping, slackId)
        + (if SlackIdOf(mapping, ids[|ids| - 1]) == Some(slackId) then 1 else 0)
  }

  lemma {:induction false} RouteCountPositive(ids: seq<string>, mapping: SlackMap, slackId: string)
    requires RouteCount(ids, mapping, slackId) > 0
    ensures exists a :: a in ids && SlackIdOf(mapping, a) == Some(slackId)
  {
    var init := ids[..|ids| - 1];
    if SlackIdOf(mapping, ids[|ids| - 1]) != Some(slackId) {
      RouteCountPositive(init, mapping, slackId);
      var a :| a in init && SlackIdOf(mapping, a) == Some(slackId);
      assert a in ids;
    }
  }

  /** The visits of one task put that task into the group once per mapped assignee. */
  lemma GroupOfOneTask(t: Task, mapping: SlackMap, slackId: string)
    ensures Group(EntriesOf(t), mapping, slackId) == seq(RouteCount(t.assignees, mapping, slackId), _ => t)
  {
    GroupOfTaskPrefix(t, mapping, slackId, |t.assignees|);
    assert EntriesOf(t)[..|t.assignees|] == EntriesOf(t);
    assert t.assignees[..|t.assignees|] == t.assignees;
  }

  lemma {:induction false} GroupOfTaskPrefix(t: Task, mapping: SlackMap, slackId: string, n: nat)
    requires n <= |t.assignees|
    ensures Group(EntriesOf(t)[..n], mapping, slackId) ==
      seq(RouteCount(t.assignees[..n], mapping, slackId), _ => t)
  {
    if n > 0 {
      GroupOfTaskPrefix(t, mapping, slackId, n - 1);
      assert EntriesOf(t)[..n][..n - 1] == EntriesOf(t)[..n - 1];
      assert t.assignees[..n][..n - 1] == t.assignees[..n - 1];
      var k := RouteCount(t.assignees[..n - 1], mapping, slackId);
      assert seq(k, _ => t) + [t] == seq(k + 1, _ => t);
    }
  }

  lemma {:induction false} RepeatCount(u: Task, k: nat, t: Task)
    ensures multiset(seq(k, _ => u))[t] == if u == t then k else 0
  {
    if k > 0 {
      RepeatCount(u, k - 1, t);
      assert seq(k, _ => u) == seq(k - 1, _ => u) + [u];
    }
  }

  /** Multiplicity: the group of `slackId` holds a task once for every occurrence of the
      task in the input and every one of its assignees that maps to `slackId`. */
  lemma {:induction false} GroupMultiplicity(tasks: seq<Task>, mapping: SlackMap, slackId: string, t: Task)
    ensures multiset(Group(Entries(tasks), mapping, slackId))[t] ==
      multiset(tasks)[t] * RouteCount(t.assignees, mapping, slackId)
  {
    if tasks != [] {
      var init := tasks[..|tasks| - 1];
      var last := tasks[|tasks| - 1];
      var kl := RouteCount(last.assignees, mapping, slackId);
      GroupMultiplicity(init, mapping, slackId, t);
      GroupAppend(Entries(init), EntriesOf(last), mapping, slackId);
      GroupOfOneTask(last, mapping, slackId);
      var before := Group(Entries(init), mapping, slackId);
      assert Group(Entries(tasks), mapping, slackId) == before + seq(kl, _ => last);
      MultiplicityStep(before, init, last, t, kl, RouteCount(t.assignees, mapping, slackId));
      InitLast(tasks);
    }
  }

  lemma MultiplicityStep(before: seq<Task>, init: seq<Task>, last: Task, t: Task, kl: nat, k: nat)
    requires multiset(before)[t] == multiset(init)[t] * k
    requires last == t ==> kl == k
    ensures multiset(before + seq(kl, _ => last))[t] == multiset(init + [last])[t] * k
  {
    RepeatCount(last, kl, t);
    CountStep(multiset(init)[t], k, last == t);
  }

  lemma CountStep(c: nat, k: nat, hit: bool)
    ensures c * k + (if hit then k else 0) == (c + (if hit then 1 else 0)) * k
  {
  }

  /** The group of `slackId` task by task: each task, in input order, repeated once per
      assignee of it that maps to `slackId`. */
  function Expanded(tasks: seq<Task>, mapping: SlackMap, slackId: string): seq<Task> {
    if tasks == [] then []
    else
      var last := tasks[|tasks| - 1];
      Expanded(tasks[..|tasks| - 1], mapping, slackId) + seq(RouteCount(last.assignees, mapping, slackId), _ => last)
  }

  /** Within a group, tasks keep their input order. */
  lemma {:induction false} GroupInTaskOrder(tasks: seq<Task>, mapping: SlackMap, slackId: string)
    ensures Group(Entries(tasks), mapping, slackId) == Expanded(tasks, mapping, slackId)
  {
    if tasks != [] {
      var init := tasks[..|tasks| - 1];
      var last := tasks[|tasks| - 1];
      GroupInTaskOrder(init, mapping, slackId);
      GroupAppend(Entries(init), EntriesOf(last), mapping, slackId);
      GroupOfOneTask(last, mapping, slackId);
    }
  }

  /** The number of visits whose assignee maps to some Slack id. */
  function MappedCount(entries: seq<Entry>, mapping: SlackMap): nat {
    if entries == [] then 0
    else
      MappedCount(entries[..|entries| - 1], mapping)
        + (if SlackIdOf(mapping, entries[|entries| - 1].clickupId).Some? then 1 else 0)
  }

  /** The total size of the groups of `keys`. */
  function GroupSizes(keys: seq<string>, entries: seq<Entry>, mapping: SlackMap): nat {
    if keys == [] then 0
    else GroupSizes(keys[..|keys| - 1], entries, mapping) + |Group(entries, mapping, keys[|keys| - 1])|
  }

  predicate Distinct(keys: seq<string>) {
    forall i, j :: 0 <= i < j < |keys| ==> keys[i] != keys[j]
  }

  lemma {:induction false} GroupSizesStep(keys: seq<string>, entries: seq<Entry>, e: Entry, mapping: SlackMap)
    requires Distinct(keys)
    ensures GroupSizes(keys, entries + [e], mapping) ==
      GroupSizes(keys, entries, mapping) +
        (if SlackIdOf(mapping, e.clickupId).Some? && SlackIdOf(mapping, e.clickupId).value in keys then 1 else 0)
  {
    VisitStep(entries, e, mapping);
    if keys != [] {
      var init := keys[..|keys| - 1];
      var last := keys[|keys| - 1];
      assert Distinct(init);
      GroupSizesStep(init, entries, e, mapping);
      assert keys == init + [last];
      assert last !in init;
    }
  }

  /** Every mapped visit lands in exactly one group: the group sizes add up to the number
      of (task, assignee) pairs whose assignee maps to a Slack id. */
  lemma {:induction false} TotalEntries(entries: seq<Entry>, mapping: SlackMap)
    ensures GroupSizes(Recipients(entries, mapping), entries, mapping) == MappedCount(entries, mapping)
  {
    if entries != [] {
      var init := entries[..|entries| - 1];
      var e := entries[|entries| - 1];
      InitLast(entries);
      TotalEntries(init, mapping);
      RecipientsDistinct(init, mapping);
      VisitStep(init, e, mapping);
      var rs := Recipients(init, mapping);
      GroupSizesStep(rs, init, e, mapping);
      var id := SlackIdOf(mapping, e.clickupId);
      var count := MappedCount(init, mapping) + (if id.Some? then 1 else 0);
      assert MappedCount(entries, mapping) == count;
      if id.Some? && id.value !in rs {
        var v := id.value;
        assert Recipients(entries, mapping) == rs + [v];
        assert (rs + [v])[..|rs|] == rs;
        RecipientIffGroup(init, mapping, v);
        assert Group(entries, mapping, v) == [e.task];
        assert GroupSizes(rs + [v], entries, mapping) == GroupSizes(rs, entries, mapping) + 1;
      } else {
        assert Recipients(entries, mapping) == rs;
      }
    }
  }

  /** The position of the first visit routed to `slackId`, or `|entries|` when there is none. */
  function FirstRoute(entries: seq<Entry>, mapping: SlackMap, slackId: string): (k: nat)
    ensures k <= |entries|
    ensures k < |entries| ==> RoutesTo(mapping, entries[k], slackId)
    ensures forall j :: 0 <= j < k ==> !RoutesTo(mapping, entries[j], slackId)
  {
    if entries == [] then 0
    else
      var init := entries[..|entries| - 1];
      var k := FirstRoute(init, mapping, slackId);
      if k < |init| || RoutesTo(mapping, entries[|entries| - 1], slackId) then k else |entries|
  }

  lemma {:induction false} FirstRouteOfRecipient(entries: seq<Entry>, mapping: SlackMap, s: string)
    ensures s in Recipients(entries, mapping) <==> FirstRoute(entries, mapping, s) < |entries|
  {
    if entries != [] {
      FirstRouteOfRecipient(entries[..|entries| - 1], mapping, s);
    }
  }

  /** The keys of `tasksByAssignee` come in the order in which their first task arrived. */
  lemma {:induction false} RecipientsInFirstArrivalOrder(entries: seq<Entry>, mapping: SlackMap)
    ensures forall i, j :: 0 <= i < j < |Recipients(entries, mapping)| ==>
      FirstRoute(entries, mapping, Recipients(entries, mapping)[i]) <
        FirstRoute(entries, mapping, Recipients(entries, mapping)[j]) < |entries|
  {
    if entries != [] {
      var init := entries[..|entries| - 1];
      var e := entries[|entries| - 1];
      RecipientsInFirstArrivalOrder(init, mapping);
      var rs := Recipients(init, mapping);
      var rs' := Recipients(entries, mapping);
      var id := SlackIdOf(mapping, e.clickupId);
      assert rs' == if id.Some? && id.value !in rs then rs + [id.value] else rs;
      forall i, j | 0 <= i < j < |rs'|
        ensures FirstRoute(entries, mapping, rs'[i]) < FirstRoute(entries, mapping, rs'[j]) < |entries|
      {
        assert rs'[i] == rs[i];
        FirstRouteOfRecipient(init, mapping, rs[i]);
        if j < |rs| {
          assert rs'[j] == rs[j];
          FirstRouteOfRecipient(init, mapping, rs[j]);
        } else {
          assert rs'[j] == id.value && id.value !in rs;
          FirstRouteOfRecipient(init, mapping, id.value);
        }
      }
    }
  }

  lemma {:induction false} EntriesMembership(tasks: seq<Task>)
    ensures forall e :: e in Entries(tasks) <==> e.task in tasks && e.clickupId in e.task.assignees
  {
    if tasks != [] {
      var init := tasks[..|tasks| - 1];
      var last := tasks[|tasks| - 1];
      EntriesMembership(init);
      InitLast(tasks);
      forall e ensures e in EntriesOf(last) <==> e.task == last && e.clickupId in last.assignees {
        if e.task == last && e.clickupId in last.assignees {
          var i :| 0 <= i < |last.assignees| && last.assignees[i] == e.clickupId;
          assert EntriesOf(last)[i] == e;
        }
      }
    }
  }

  // ------------------------------------------------------------------ messages

  /** A direct message: the Slack channel (the user's id) and its text. */
  datatype Message = Message(channel: string, text: string)

  const Header: string := "You have tasks missing time tracking:"

  /** One bullet line of the reminder. It starts with the bullet, and holds a line break
      only when the name, status or URL holds one. */
  function Line(t: Task): (r: string)
    ensures "\U{2022} *" <= r
    ensures '\n' in r <==> '\n' in t.name || '\n' in t.status || '\n' in t.url
  {
    "\U{2022} *" + t.name + "* (status: " + t.status + ") has *no time tracked* (" + t.url + ")"
  }

  function Lines(group: seq<Task>): (r: seq<string>)
    ensures |r| == |group|
  {
    seq(|group|, i requires 0 <= i < |group| => Line(group[i]))
  }

  /** The text posted to a recipient whose dictionary entry is `group`. */
  function Render(group: seq<Task>): (r: string)
    ensures Header + "\n" <= r
    ensures group != [] ==> r == Join([Header] + Lines(group), '\n')
  {
    var lines := [Header] + Lines(group);
    assert group != [] ==> lines[1..] == Lines(group);
    Header + "\n" + Join(Lines(group), '\n')
  }

  /** The messages `sendReminders` posts, one per key of `tasksByAssignee`, in key order. */
  function Reminders(tasks: seq<Task>, mapping: SlackMap): (r: seq<Message>)
    ensures |r| == |Recipients(Entries(tasks), mapping)|
  {
    var entries := Entries(tasks);
    RemindersFor(entries, mapping, Recipients(entries, mapping))
  }

  /** The messages for the keys `keys`, one per key, in key order. */
  function RemindersFor(entries: seq<Entry>, mapping: SlackMap, keys: seq<string>): (r: seq<Message>)
    ensures |r| == |keys|
  {
    if keys == [] then []
    else
      RemindersFor(entries, mapping, keys[..|keys| - 1]) + [Reminder(entries, mapping, keys[|keys| - 1])]
  }

  lemma {:induction false} RemindersForAt(entries: seq<Entry>, mapping: SlackMap, keys: seq<string>, k: nat)
    requires k < |keys|
    ensures RemindersFor(entries, mapping, keys)[k] == Reminder(entries, mapping, keys[k])
  {
    if k < |keys| - 1 {
      RemindersForAt(entries, mapping, keys[..|keys| - 1], k);
    }
  }

  lemma RemindersForStep(entries: seq<Entry>, mapping: SlackMap, keys: seq<string>, k: nat)
    requires k < |keys|
    ensures RemindersFor(entries, mapping, keys[..k + 1]) ==
      RemindersFor(entries, mapping, keys[..k]) + [Reminder(entries, mapping, keys[k])]
  {
    assert keys[..k + 1][..k] == keys[..k];
  }

  /** The message for one key: its Slack id and its rendered group. */
  function Reminder(entries: seq<Entry>, mapping: SlackMap, slackId: string): Message {
    Message(slackId, Render(Group(entries, mapping, slackId)))
  }

  /** The channels, in order, of the messages whose delivery failed. */
  function FailedChannels(messages: seq<Message>, deliver: Message -> bool): seq<string> {
    if messages == [] then []
    else
      var last := messages[|messages| - 1];
      FailedChannels(messages[..|messages| - 1], deliver) + (if deliver(last) then [] else [last.channel])
  }

  lemma FailedStep(messages: seq<Message>, m: Message, deliver: Message -> bool)
    ensures FailedChannels(messages + [m], deliver) ==
      FailedChannels(messages, deliver) + (if deliver(m) then [] else [m.channel])
  {
    assert (messages + [m])[..|messages|] == messages;
  }

  /** `sendReminders`: group, then post one message per recipient. `deliver` stands for
      the outcome of `chat.postMessage`; a failure is logged (`failed`) and the loop
      goes on with the next recipient. */
  method SendReminders(tasks: seq<Task>, mapping: SlackMap, deliver: Message -> bool)
    returns (attempts: seq<Message>, failed: seq<string>)
    ensures attempts == Reminders(tasks, mapping)
    ensures failed == FailedChannels(attempts, deliver)
  {
    var recipients, tasksByAssignee := GroupByAssignee(tasks, mapping);
    attempts, failed := PostAll(recipients, tasksByAssignee, deliver, Entries(tasks), mapping);
  }

  /** The send loop of `sendReminders` over the keys of `tasksByAssignee`. */
  method PostAll(recipients: seq<string>, tasksByAssignee: map<string, seq<Task>>,
                 deliver: Message -> bool, ghost entries: seq<Entry>, ghost mapping: SlackMap)
    returns (attempts: seq<Message>, failed: seq<string>)
    requires forall s :: s in recipients ==>
      s in tasksByAssignee && tasksByAssignee[s] == Group(entries, mapping, s)
    ensures attempts == RemindersFor(entries, mapping, recipients)
    ensures failed == FailedChannels(attempts, deliver)
  {
    attempts, failed := [], [];
    for k := 0 to |recipients|
      invariant attempts == RemindersFor(entries, mapping, recipients[..k])
      invariant failed == FailedChannels(attempts, deliver)
    {
      var slackId := recipients[k];
      var assigneeTasks := tasksByAssignee[slackId];
      var taskList := Join(Lines(assigneeTasks), '\n');
      var message := Message(slackId, Header + "\n" + taskList);
      RemindersForStep(entries, mapping, recipients, k);
      FailedStep(attempts, message, deliver);
      attempts := attempts + [message];
      var ok := deliver(message);
      if !ok {
        failed := failed + [slackId];
      }
    }
    assert recipients[..|recipients|] == recipients;
  }

  lemma RemindersChannels(tasks: seq<Task>, mapping: SlackMap)
    ensures forall k :: 0 <= k < |Reminders(tasks, mapping)| ==>
      Reminders(tasks, mapping)[k].channel == Recipients(Entries(tasks), mapping)[k]
  {
    var entries := Entries(tasks);
    var rs := Recipients(entries, mapping);
    forall k | 0 <= k < |rs| ensures RemindersFor(entries, mapping, rs)[k].channel == rs[k] {
      RemindersForAt(entries, mapping, rs, k);
    }
  }

  lemma ChannelIffMapped(tasks: seq<Task>, mapping: SlackMap, s: string)
    ensures s in Recipients(Entries(tasks), mapping) <==>
      exists t, a :: t in tasks && a in t.assignees && SlackIdOf(mapping, a) == Some(s)
  {
    var entries := Entries(tasks);
    RecipientIffRouted(entries, mapping, s);
    EntriesMembership(tasks);
    if exists t, a :: t in tasks && a in t.assignees && SlackIdOf(mapping, a) == Some(s) {
      var t, a :| t in tasks && a in t.assignees && SlackIdOf(mapping, a) == Some(s);
      assert Entry(t, a) in entries && RoutesTo(mapping, Entry(t, a), s);
    }
    if s in Recipients(entries, mapping) {
      var e :| e in entries && RoutesTo(mapping, e, s);
      assert e.task in tasks && e.clickupId in e.task.assignees;
    }
  }

  /** Exactly one message per distinct Slack id that some task's assignee maps to, in
      order of first arrival, each listing a non-empty group; a task none of whose
      assignees is mapped appears in no message. */
  lemma RemindersSpec(tasks: seq<Task>, mapping: SlackMap)
    ensures forall i, j :: 0 <= i < j < |Reminders(tasks, mapping)| ==>
      Reminders(tasks, mapping)[i].channel != Reminders(tasks, mapping)[j].channel
    ensures forall s :: (exists k :: 0 <= k < |Reminders(tasks, mapping)| && Reminders(tasks, mapping)[k].channel == s) <==>
      exists t, a :: t in tasks && a in t.assignees && SlackIdOf(mapping, a) == Some(s)
    ensures forall k :: 0 <= k < |Reminders(tasks, mapping)| ==>
      Group(Entries(tasks), mapping, Reminders(tasks, mapping)[k].channel) != []
    ensures forall k, t ::
      (0 <= k < |Reminders(tasks, mapping)| &&
       t in Group(Entries(tasks), mapping, Reminders(tasks, mapping)[k].channel)) ==>
        t in tasks && exists a :: a in t.assignees && SlackIdOf(mapping, a) == Some(Reminders(tasks, mapping)[k].channel)
  {
    var entries := Entries(tasks);
    var rs := Recipients(entries, mapping);
    var r := Reminders(tasks, mapping);
    RemindersChannels(tasks, mapping);
    RecipientsDistinct(entries, mapping);
    forall s ensures (exists k :: 0 <= k < |r| && r[k].channel == s) <==>
      exists t, a :: t in tasks && a in t.assignees && SlackIdOf(mapping, a) == Some(s)
    {
      ChannelIffMapped(tasks, mapping, s);
      if s in rs {
        var k :| 0 <= k < |rs| && rs[k] == s;
        assert r[k].channel == s;
      }
    }
    forall k | 0 <= k < |r|
      ensures Group(entries, mapping, r[k].channel) != []
    {
      RecipientIffGroup(entries, mapping, rs[k]);
    }
    forall k | 0 <= k < |r| {
      GroupMembership(tasks, mapping, r[k].channel);
    }
  }

  /** Read back line by line, a message is the header followed by one bullet per task of
      its group, in group order (when no name, status or URL holds a line break). */
  lemma MessageLines(group: seq<Task>)
    requires group != []
    requires forall t :: t in group ==> '\n' !in t.name && '\n' !in t.status && '\n' !in t.url
    ensures Split(Render(group), '\n') == [Header] + Lines(group)
  {
    var lines := [Header] + Lines(group);
    LinesHaveNoBreak(group);
    assert forall k :: 0 < k < |lines| ==> lines[k] == Lines(group)[k - 1];
    SplitJoin(lines, '\n');
  }

  lemma LinesHaveNoBreak(group: seq<Task>)
    requires forall t :: t in group ==> '\n' !in t.name && '\n' !in t.status && '\n' !in t.url
    ensures forall k :: 0 <= k < |group| ==> '\n' !in Lines(group)[k]
  {
  }
}
