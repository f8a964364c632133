/** The decision logic of the ClickUp side of the reminder pipeline: which sprint
    lists are still active, how a raw task is turned into a reminder record, how
    the space/folder/list hierarchy is flattened, and which tasks are reported as
    missing time tracking or a same-day comment.

    Every ClickUp API response is part of the input: a space carries the folders
    fetched for it, a folder the lists, a list the tasks and a task its comments. */
module ClickupService {
  import opened Wrappers
  import opened Seqs
  import opened Text

  // ---------------------------------------------------------------- data model

  /** A ClickUp user object; an empty string stands for a missing or falsy property. */
  datatype Person = Person(username: string, name: string)

  /** The value of a custom field: absent/`null`, an array of users, or a number. */
  datatype FieldValue = NoValue | People(people: seq<Person>) | Number(n: int)

  /** A custom field; an empty `name` stands for a missing or falsy name. */
  datatype CustomField = CustomField(name: string, value: FieldValue)

  /** A comment; `user` is `None` when the comment carries no user object. */
  datatype Comment = Comment(user: Option<Person>, date: int)

  /** A task as the list endpoint returns it. `status` is the text of `t.status.status`
      (`None` when `t.status` is missing), `customFields` is `None` when the task has
      no `custom_fields` array, `spaceName` is `t.space?.name || ""`, and `comments`
      is the comment fetch's result (`None` when the fetch failed or returned no array). */
  datatype RawTask = RawTask(
    id: string, name: string, url: string,
    status: Option<string>,
    assignees: seq<Person>,
    customFields: Option<seq<CustomField>>,
    spaceName: string,
    comments: Option<seq<Comment>>)

  /** A list (sprint). `dueDate` is `Number(l.due_date)` when `l.due_date` is truthy and
      `None` otherwise; `percentComplete` is `None` when the property is missing. */
  datatype RawList = RawList(
    id: string, dueDate: Option<int>, percentComplete: Option<int>, tasks: seq<RawTask>)

  /** A folder; `lists` is `None` when the folder's response has no `lists` array. */
  datatype Folder = Folder(id: string, lists: Option<seq<RawList>>)

  datatype Space = Space(id: string, name: string, folders: seq<Folder>)

  /** The enriched task record handed to the compliance filter and to Slack. */
  datatype Task = Task(
    name: string, status: string, timeSpent: int, assignees: seq<string>,
    url: string, spaceName: string, lastCommentDate: Option<int>)

  // ------------------------------------------------------ list activity filter

  function Percent(l: RawList): int {
    if l.percentComplete.Some? then l.percentComplete.value else 0
  }

  /** The list's due date is set (and non-zero, since `0` is falsy) and lies before `now`. */
  predicate OverDue(l: RawList, now: int) {
    l.dueDate.Some? && l.dueDate.value != 0 && l.dueDate.value < now
  }

  predicate IsDone(l: RawList, now: int) {
    Percent(l) == 100 || OverDue(l, now)
  }

  function ActivePred(now: int): RawList -> bool {
    (l: RawList) => !IsDone(l, now)
  }

  /** The lists the folder response holds (none when it has no `lists` array). */
  function ListsOf(folder: Folder): seq<RawList> {
    if folder.lists.Some? then folder.lists.value else []
  }

  /** The folder's lists that are not done, in response order. */
  function ActiveLists(folder: Folder, now: int): seq<RawList> {
    Filter(ListsOf(folder), ActivePred(now))
  }

  /** `getListsInFolder`, with `Date.now()` passed in as `now`. */
  method GetListsInFolder(folder: Folder, now: int) returns (active: seq<RawList>)
    ensures active == ActiveLists(folder, now)
  {
    if folder.lists.None? {
      return [];
    }
    var lists := folder.lists.value;
    active := [];
    for i := 0 to |lists|
      invariant active == Filter(lists[..i], ActivePred(now))
    {
      var l := lists[i];
      var due := l.dueDate;
      var percent := if l.percentComplete.Some? then l.percentComplete.value else 0;
      var isDone := percent == 100 || (due.Some? && due.value != 0 && due.value < now);
      if !isDone {
        active := active + [l];
      }
      assert lists[..i + 1][..i] == lists[..i];
    }
    assert lists[..|lists|] == lists;
  }

  /** A list is kept exactly when it is not 100% complete and not past a set due date,
      and the kept lists are a subsequence of the response, in its order. */
  lemma ActiveListsSpec(folder: Folder, now: int)
    ensures IsSubsequence(ActiveLists(folder, now), ListsOf(folder))
    ensures forall l :: l in ActiveLists(folder, now) <==>
      l in ListsOf(folder) && Percent(l) != 100 && !OverDue(l, now)
  {
    FilterIsSubsequence(ListsOf(folder), ActivePred(now));
    FilterMembership(ListsOf(folder), ActivePred(now));
  }

  // ------------------------------------------------------------ field lookup

  /** Which custom fields name the responsible people and their tracked time. */
  datatype FieldRule = FieldRule(responsibleField: string, timeField: string)

  const ReviewRule := FieldRule("code review & qa", "code reviewer & qa time tracked")
  const DeployRule := FieldRule("deployer", "deployer time tracked")
  const DefaultRule := FieldRule("assignee", "time tracked")

  /** The status table, matched with `===` on the lower-cased status. */
  function RuleFor(status: string): (r: FieldRule)
    ensures r == ReviewRule <==> status == "code review" || status == "testing"
    ensures r == DeployRule <==> status == "ready to prod"
    ensures r == DefaultRule <==>
      status != "code review" && status != "testing" && status != "ready to prod"
  {
    if status == "code review" || status == "testing" then ReviewRule
    else if status == "ready to prod" then DeployRule
    else DefaultRule
  }

  /** `f.name && f.name.toLowerCase() === name.toLowerCase()`. */
  predicate NameMatches(f: CustomField, target: string) {
    f.name != "" && Lower(f.name) == Lower(target)
  }

  /** The index of the first field matching `target`, or `|fields|` when none does. */
  function FirstMatch(fields: seq<CustomField>, target: string): (k: nat)
    ensures k <= |fields|
    ensures k < |fields| ==> NameMatches(fields[k], target)
    ensures forall j :: 0 <= j < k ==> !NameMatches(fields[j], target)
  {
    if fields == [] then 0
    else if NameMatches(fields[0], target) then 0
    else 1 + FirstMatch(fields[1..], target)
  }

  /** `findField`: `t.custom_fields?.find(...)`. */
  function FindField(fields: Option<seq<CustomField>>, target: string): (r: Option<CustomField>)
    ensures r.None? <==>
      fields.None? || forall f :: f in fields.value ==> !NameMatches(f, target)
    ensures r.Some? ==>
      fields.Some? &&
      (exists i :: 0 <= i < |fields.value| && fields.value[i] == r.value
        && NameMatches(r.value, target)
        && forall j :: 0 <= j < i ==> !NameMatches(fields.value[j], target))
  {
    if fields.None? then None
    else
      var k := FirstMatch(fields.value, target);
      if k < |fields.value| then Some(fields.value[k]) else None
  }

  // ------------------------------------------------------ assignee resolution

  /** `v.username || v.name`. */
  function PersonName(p: Person): string {
    if p.username != "" then p.username else p.name
  }

  predicate NonEmpty(s: string) {
    s != ""
  }

  /** `people.map((v) => v.username || v.name).filter(Boolean)`. */
  function Names(people: seq<Person>): seq<string> {
    Filter(seq(|people|, i requires 0 <= i < |people| => PersonName(people[i])), NonEmpty)
  }

  lemma NamesMembership(people: seq<Person>)
    ensures forall n :: n in Names(people) <==> n != "" && exists p :: p in people && PersonName(p) == n
  {
    var mapped := seq(|people|, i requires 0 <= i < |people| => PersonName(people[i]));
    FilterMembership(mapped, NonEmpty);
    forall n | n != "" && exists p :: p in people && PersonName(p) == n
      ensures n in mapped
    {
      var p :| p in people && PersonName(p) == n;
      var i :| 0 <= i < |people| && people[i] == p;
      assert mapped[i] == n;
    }
  }

  /** The user array held by a found field, when its value is an array (`Array.isArray`). */
  function FieldPeople(field: Option<CustomField>): Option<seq<Person>> {
    if field.Some? && field.value.value.People? then Some(field.value.value.people) else None
  }

  /** The statuses whose responsible people come only from the custom field. */
  predicate ExclusiveStatus(status: string) {
    status == "code review" || status == "ready to prod"
  }

  /** The `assignees` computed by the mapper from the responsible field and the native
      assignees; `.filter(Boolean)` leaves no empty name. */
  function ResolveAssignees(status: string, field: Option<CustomField>, native: seq<Person>): (r: seq<string>)
    ensures forall n :: n in r ==> n != ""
  {
    var fromField := FieldPeople(field);
    NamesMembership(native);
    if ExclusiveStatus(status) then
      (if fromField.Some? then (NamesMembership(fromField.value); Names(fromField.value)) else [])
    else if fromField.Some? && |fromField.value| > 0 then
      (NamesMembership(fromField.value); Names(fromField.value))
    else Names(native)
  }

  /** Assignee resolution: for "code review" and "ready to prod" only the custom field's
      array counts and the native assignees never matter; for every other status a
      non-empty array wins and the native assignees are the fallback. Resolved names
      are never empty and are each some person's `username || name`. */
  lemma ResolveAssigneesSpec(status: string, field: Option<CustomField>, native: seq<Person>)
    ensures ExclusiveStatus(status) ==>
      forall other :: ResolveAssignees(status, field, other) == ResolveAssignees(status, field, native)
    ensures ExclusiveStatus(status) && FieldPeople(field).None? ==>
      ResolveAssignees(status, field, native) == []
    ensures !ExclusiveStatus(status) && (FieldPeople(field).None? || FieldPeople(field).value == []) ==>
      ResolveAssignees(status, field, native) == Names(native)
    ensures FieldPeople(field).Some? && (ExclusiveStatus(status) || FieldPeople(field).value != []) ==>
      ResolveAssignees(status, field, native) == Names(FieldPeople(field).value)
    ensures forall n :: n in ResolveAssignees(status, field, native) ==>
      n != "" &&
      (exists p :: PersonName(p) == n &&
        ((FieldPeople(field).Some? && p in FieldPeople(field).value) ||
         (!ExclusiveStatus(status) && p in native)))
  {
    NamesMembership(native);
    if FieldPeople(field).Some? {
      NamesMembership(FieldPeople(field).value);
    }
  }

  /** The inconsistency between the status table and the resolution rule: "testing" reads
      the "code review & qa" field like "code review" does, yet falls back to the native
      assignees when that field holds no users, where "code review" resolves to nobody. */
  lemma TestingFallsBackToAssignees(field: Option<CustomField>, native: seq<Person>)
    requires FieldPeople(field).None?
    ensures RuleFor("testing") == RuleFor("code review")
    ensures ResolveAssignees("testing", field, native) == Names(native)
    ensures ResolveAssignees("code review", field, native) == []
  {
  }

  /** `Number(timeTrackedField?.value || 0)`, where a value that is not a number counts as 0. */
  function TrackedTime(field: Option<CustomField>): (r: int)
    ensures field.None? || !field.value.value.Number? ==> r == 0
    ensures field.Some? && field.value.value.Number? ==> r == field.value.value.n
  {
    if field.Some? && field.value.value.Number? then field.value.value.n else 0
  }

  // -------------------------------------------------- last comment selection

  /** `c.user?.username || c.user?.name || ""`. */
  function Author(c: Comment): string {
    if c.user.Some? then PersonName(c.user.value) else ""
  }

  /** The comment's author is non-empty and equals some assignee after normalisation. */
  predicate ByAssignee(c: Comment, assignees: seq<string>) {
    Author(c) != "" && exists a :: a in assignees && Normalize(a) == Normalize(Author(c))
  }

  /** The date of the latest comment written by one of `assignees`, `None` when there is none. */
  function LastCommentDate(comments: seq<Comment>, assignees: seq<string>): (r: Option<int>)
    ensures r.None? <==> forall c :: c in comments ==> !ByAssignee(c, assignees)
    ensures r.Some? ==>
      (exists c :: c in comments && ByAssignee(c, assignees) && c.date == r.value) &&
      forall c :: c in comments && ByAssignee(c, assignees) ==> c.date <= r.value
  {
    if comments == [] then None
    else
      var init := comments[..|comments| - 1];
      var last := comments[|comments| - 1];
      InitLast(comments);
      var before := LastCommentDate(init, assignees);
      if !ByAssignee(last, assignees) then before
      else if before.Some? && before.value >= last.date then before
      else Some(last.date)
  }

  function CommentsOf(t: RawTask): seq<Comment> {
    if t.comments.Some? then t.comments.value else []
  }

  // ------------------------------------------------------------- enrichment

  predicate HasStatus(t: RawTask) {
    t.status.Some? && t.status.value != ""
  }

  /** The per-task mapper of `getTasksInList`: `None` for a task without status. */
  function Enrich(t: RawTask): (r: Option<Task>)
    ensures r.None? <==> !HasStatus(t)
    ensures r.Some? ==>
      && r.value.status == Lower(t.status.value)
      && r.value.name == t.name && r.value.url == t.url && r.value.spaceName == t.spaceName
      && (forall a :: a in r.value.assignees ==> a != "")
    ensures r.Some? ==>
      && r.value.assignees == ResolveAssignees(r.value.status,
           FindField(t.customFields, RuleFor(r.value.status).responsibleField), t.assignees)
      && r.value.timeSpent == TrackedTime(FindField(t.customFields, RuleFor(r.value.status).timeField))
      && r.value.lastCommentDate == LastCommentDate(CommentsOf(t), r.value.assignees)
  {
    if !HasStatus(t) then None
    else
      var status := Lower(t.status.value);
      var rule := RuleFor(status);
      var assignees := ResolveAssignees(status, FindField(t.customFields, rule.responsibleField), t.assignees);
      Some(Task(
        t.name, status,
        TrackedTime(FindField(t.customFields, rule.timeField)),
        assignees, t.url, t.spaceName,
        LastCommentDate(CommentsOf(t), assignees)))
  }

  /** A task in "code review" whose "code review & qa" field holds no user array has no
      responsible people, so no comment can count for it. */
  lemma ReviewWithoutReviewerField(t: RawTask)
    requires HasStatus(t) && Lower(t.status.value) == "code review"
    requires FieldPeople(FindField(t.customFields, "code review & qa")).None?
    ensures Enrich(t).Some? && Enrich(t).value.assignees == []
    ensures Enrich(t).value.lastCommentDate.None?
  {
  }

  /** A task in any status outside the table whose "assignee" field holds no users is
      attributed to its native assignees, and its time is read from "time tracked". */
  lemma OrdinaryStatusFallsBack(t: RawTask)
    requires HasStatus(t)
    requires RuleFor(Lower(t.status.value)) == DefaultRule
    requires FieldPeople(FindField(t.customFields, "assignee")).None? ||
             FieldPeople(FindField(t.customFields, "assignee")).value == []
    ensures Enrich(t).Some? && Enrich(t).value.assignees == Names(t.assignees)
    ensures Enrich(t).value.timeSpent == TrackedTime(FindField(t.customFields, "time tracked"))
  {
  }

  /** The mapper step by step, as the source reassigns its local variables. */
  method EnrichTask(t: RawTask) returns (r: Option<Task>)
    ensures r == Enrich(t)
  {
    if t.status.None? || t.status.value == "" {
      return None;
    }
    var status := Lower(t.status.value);
    var assigneeFieldName := "assignee";
    var timeTrackedFieldName := "time tracked";
    if status == "code review" || status == "testing" {
      assigneeFieldName := "code review & qa";
      timeTrackedFieldName := "code reviewer & qa time tracked";
    } else if status == "ready to prod" {
      assigneeFieldName := "deployer";
      timeTrackedFieldName := "deployer time tracked";
    }
    var assigneeField := FindField(t.customFields, assigneeFieldName);
    var timeTrackedField := FindField(t.customFields, timeTrackedFieldName);
    var assignees: seq<string> := [];
    if status == "code review" || status == "ready to prod" {
      if FieldPeople(assigneeField).Some? {
        assignees := Names(FieldPeople(assigneeField).value);
      }
    } else {
      assignees :=
        if FieldPeople(assigneeField).Some? && |FieldPeople(assigneeField).value| > 0
        then Names(FieldPeople(assigneeField).value)
        else Names(t.assignees);
    }
    var timeTrackedValue := TrackedTime(timeTrackedField);
    var comments := CommentsOf(t);
    var lastCommentDate := LastCommentDate(comments, assignees);
    r := Some(Task(t.name, status, timeTrackedValue, assignees, t.url, t.spaceName, lastCommentDate));
  }

  /** The enriched tasks of a task response, statusless tasks dropped. */
  function TasksOf(raws: seq<RawTask>): seq<Task> {
    if raws == [] then []
    else
      var last := Enrich(raws[|raws| - 1]);
      TasksOf(raws[..|raws| - 1]) + (if last.Some? then [last.value] else [])
  }

  /** `getTasksInList`: enrich every task (sequentially), then drop the `null`s. */
  method GetTasksInList(list: RawList) returns (tasks: seq<Task>)
    ensures tasks == TasksOf(list.tasks)
  {
    var raws := list.tasks;
    var mapped: seq<Option<Task>> := [];
    for i := 0 to |raws|
      invariant |mapped| == i
      invariant forall k :: 0 <= k < i ==> mapped[k] == Enrich(raws[k])
    {
      var r := EnrichTask(raws[i]);
      mapped := mapped + [r];
    }
    tasks := [];
    for i := 0 to |mapped|
      invariant tasks == TasksOf(raws[..i])
    {
      if mapped[i].Some? {
        tasks := tasks + [mapped[i].value];
      }
      assert raws[..i + 1][..i] == raws[..i];
    }
    assert raws[..|raws|] == raws;
  }

  /** Statusless tasks are dropped and the others keep their order: the result is the
      enrichment of exactly the tasks that have a status, position by position. */
  lemma {:induction false} TasksOfSpec(raws: seq<RawTask>)
    ensures |TasksOf(raws)| == |Filter(raws, HasStatus)|
    ensures forall k :: 0 <= k < |TasksOf(raws)| ==>
      Enrich(Filter(raws, HasStatus)[k]) == Some(TasksOf(raws)[k])
  {
    if raws != [] {
      TasksOfSpec(raws[..|raws| - 1]);
    }
  }

  lemma {:induction false} TasksOfMembership(raws: seq<RawTask>)
    ensures forall t :: t in TasksOf(raws) <==> exists r :: r in raws && Enrich(r) == Some(t)
  {
    if raws != [] {
      var init := raws[..|raws| - 1];
      TasksOfMembership(init);
      assert raws == init + [raws[|raws| - 1]];
    }
  }

  // --------------------------------------------------- hierarchy flattening

  /** `{ ...t, spaceName: name }` for every task. */
  function Stamp(tasks: seq<Task>, name: string): (r: seq<Task>)
    ensures |r| == |tasks|
  {
    seq(|tasks|, i requires 0 <= i < |tasks| => tasks[i].(spaceName := name))
  }

  /** The stamped tasks of the lists, list after list. */
  function ListsTasks(lists: seq<RawList>, spaceName: string): seq<Task> {
    if lists == [] then []
    else ListsTasks(lists[..|lists| - 1], spaceName) + Stamp(TasksOf(lists[|lists| - 1].tasks), spaceName)
  }

  /** The tasks of the folders' active lists, folder after folder. */
  function FoldersTasks(folders: seq<Folder>, spaceName: string, now: int): seq<Task> {
    if folders == [] then []
    else
      FoldersTasks(folders[..|folders| - 1], spaceName, now)
        + ListsTasks(ActiveLists(folders[|folders| - 1], now), spaceName)
  }

  /** The tasks of the spaces, space after space, each stamped with its space's name. */
  function SpacesTasks(spaces: seq<Space>, now: int): seq<Task> {
    if spaces == [] then []
    else
      var last := spaces[|spaces| - 1];
      SpacesTasks(spaces[..|spaces| - 1], now) + FoldersTasks(last.folders, last.name, now)
  }

  function TrackedPred(tracked: seq<string>): Space -> bool {
    (s: Space) => s.name in tracked
  }

  /** The tasks `getAllRelevantTasks` collects from the spaces of the workspace. */
  function AllRelevantTasks(spaces: seq<Space>, tracked: seq<string>, now: int): seq<Task> {
    SpacesTasks(Filter(spaces, TrackedPred(tracked)), now)
  }

  /** The body of the folder loop of `getAllRelevantTasks`: fetch the folder's active
      lists, then each list's tasks, and stamp them with the space's name. */
  method CollectFolderTasks(folder: Folder, spaceName: string, now: int) returns (collected: seq<Task>)
    ensures collected == ListsTasks(ActiveLists(folder, now), spaceName)
  {
    collected := [];
    var lists := GetListsInFolder(folder, now);
    if |lists| == 0 {
      return;
    }
    for k := 0 to |lists|
      invariant collected == ListsTasks(lists[..k], spaceName)
    {
      var tasks := GetTasksInList(lists[k]);
      assert lists[..k + 1][..k] == lists[..k];
      collected := collected + Stamp(tasks, spaceName);
    }
    assert lists[..|lists|] == lists;
  }

  /** The body of the space loop of `getAllRelevantTasks`: every folder in turn. */
  method CollectSpaceTasks(space: Space, now: int) returns (collected: seq<Task>)
    ensures collected == FoldersTasks(space.folders, space.name, now)
  {
    collected := [];
    var folders := space.folders;
    for j := 0 to |folders|
      invariant collected == FoldersTasks(folders[..j], space.name, now)
    {
      var folderTasks := CollectFolderTasks(folders[j], space.name, now);
      assert folders[..j + 1][..j] == folders[..j];
      collected := collected + folderTasks;
    }
    assert folders[..|folders|] == folders;
  }

  /** `getAllRelevantTasks`, with the API responses inside `spaces`, `config.trackedSpaces`
      as `tracked`, and one clock reading `now` for every list filter. */
  method GetAllRelevantTasks(spaces: seq<Space>, tracked: seq<string>, now: int)
    returns (allTasks: seq<Task>)
    ensures allTasks == AllRelevantTasks(spaces, tracked, now)
  {
    allTasks := [];
    var trackedSpaces := Filter(spaces, TrackedPred(tracked));
    for i := 0 to |trackedSpaces|
      invariant allTasks == SpacesTasks(trackedSpaces[..i], now)
    {
      var spaceTasks := CollectSpaceTasks(trackedSpaces[i], now);
      assert trackedSpaces[..i + 1][..i] == trackedSpaces[..i];
      allTasks := allTasks + spaceTasks;
    }
    assert trackedSpaces[..|trackedSpaces|] == trackedSpaces;
  }

  /** The task `t` comes from raw task of list `l`, stamped with `spaceName`. */
  ghost predicate FromList(t: Task, l: RawList, spaceName: string) {
    exists r :: r in l.tasks && Enrich(r).Some? && t == Enrich(r).value.(spaceName := spaceName)
  }

  ghost predicate FromFolder(t: Task, f: Folder, spaceName: string, now: int) {
    exists l :: l in ActiveLists(f, now) && FromList(t, l, spaceName)
  }

  ghost predicate FromSpace(t: Task, s: Space, now: int) {
    exists f :: f in s.folders && FromFolder(t, f, s.name, now)
  }

  lemma StampedFromList(l: RawList, spaceName: string, i: nat)
    requires i < |TasksOf(l.tasks)|
    ensures FromList(Stamp(TasksOf(l.tasks), spaceName)[i], l, spaceName)
  {
    var ts := TasksOf(l.tasks);
    TasksOfMembership(l.tasks);
    assert ts[i] in ts;
    var r :| r in l.tasks && Enrich(r) == Some(ts[i]);
  }

  lemma FromListStamped(l: RawList, spaceName: string, r: RawTask)
    requires r in l.tasks && Enrich(r).Some?
    ensures Enrich(r).value.(spaceName := spaceName) in Stamp(TasksOf(l.tasks), spaceName)
  {
    var ts := TasksOf(l.tasks);
    TasksOfMembership(l.tasks);
    var i :| 0 <= i < |ts| && ts[i] == Enrich(r).value;
    assert Stamp(ts, spaceName)[i] == Enrich(r).value.(spaceName := spaceName);
  }

  lemma StampedListMembership(l: RawList, spaceName: string)
    ensures forall t :: t in Stamp(TasksOf(l.tasks), spaceName) <==> FromList(t, l, spaceName)
  {
    var st := Stamp(TasksOf(l.tasks), spaceName);
    forall t ensures t in st <==> FromList(t, l, spaceName) {
      if t in st {
        var i :| 0 <= i < |st| && st[i] == t;
        StampedFromList(l, spaceName, i);
      }
      if FromList(t, l, spaceName) {
        var r :| r in l.tasks && Enrich(r).Some? && t == Enrich(r).value.(spaceName := spaceName);
        FromListStamped(l, spaceName, r);
      }
    }
  }

  lemma {:induction false} ListsTasksMembership(lists: seq<RawList>, spaceName: string)
    ensures forall t :: t in ListsTasks(lists, spaceName) <==>
      exists l :: l in lists && FromList(t, l, spaceName)
  {
    if lists != [] {
      var init := lists[..|lists| - 1];
      var last := lists[|lists| - 1];
      ListsTasksMembership(init, spaceName);
      StampedListMembership(last, spaceName);
      InitLast(lists);
    }
  }

  lemma {:induction false} FoldersTasksMembership(folders: seq<Folder>, spaceName: string, now: int)
    ensures forall t :: t in FoldersTasks(folders, spaceName, now) <==>
      exists f :: f in folders && FromFolder(t, f, spaceName, now)
  {
    if folders != [] {
      var init := folders[..|folders| - 1];
      var last := folders[|folders| - 1];
      FoldersTasksMembership(init, spaceName, now);
      ListsTasksMembership(ActiveLists(last, now), spaceName);
      forall t ensures t in FoldersTasks(folders, spaceName, now) <==>
        exists f :: f in folders && FromFolder(t, f, spaceName, now)
      {
        if exists f :: f in folders && FromFolder(t, f, spaceName, now) {
          var f :| f in folders && FromFolder(t, f, spaceName, now);
          if f != last {
            assert f in init;
            assert t in FoldersTasks(init, spaceName, now);
          } else {
            assert t in ListsTasks(ActiveLists(last, now), spaceName);
          }
        }
        if t in FoldersTasks(folders, spaceName, now) {
          assert FoldersTasks(folders, spaceName, now) ==
            FoldersTasks(init, spaceName, now) + ListsTasks(ActiveLists(last, now), spaceName);
          if t in FoldersTasks(init, spaceName, now) {
            var f :| f in init && FromFolder(t, f, spaceName, now);
            assert f in folders;
          } else {
            assert FromFolder(t, last, spaceName, now);
          }
        }
      }
    }
  }

  lemma {:induction false} SpacesTasksMembership(spaces: seq<Space>, now: int)
    ensures forall t :: t in SpacesTasks(spaces, now) <==>
      exists s :: s in spaces && FromSpace(t, s, now)
  {
    if spaces != [] {
      var init := spaces[..|spaces| - 1];
      var last := spaces[|spaces| - 1];
      SpacesTasksMembership(init, now);
      FoldersTasksMembership(last.folders, last.name, now);
      forall t ensures t in SpacesTasks(spaces, now) <==> exists s :: s in spaces && FromSpace(t, s, now) {
        if exists s :: s in spaces && FromSpace(t, s, now) {
          var s :| s in spaces && FromSpace(t, s, now);
          if s != last {
            assert s in init;
            assert t in SpacesTasks(init, now);
          } else {
            assert t in FoldersTasks(last.folders, last.name, now);
          }
        }
        if t in SpacesTasks(spaces, now) {
          assert SpacesTasks(spaces, now) ==
            SpacesTasks(init, now) + FoldersTasks(last.folders, last.name, now);
          if t in SpacesTasks(init, now) {
            var s :| s in init && FromSpace(t, s, now);
            assert s in spaces;
          } else {
            assert FromSpace(t, last, now);
          }
        }
      }
    }
  }

  /** A task is collected exactly when it is the enrichment of a raw task in an active
      list of a folder of a space whose name is tracked; its `spaceName` is then that
      space's name, whatever the raw task said. */
  lemma AllRelevantTasksSpec(spaces: seq<Space>, tracked: seq<string>, now: int)
    ensures forall t :: t in AllRelevantTasks(spaces, tracked, now) <==>
      exists s :: s in spaces && s.name in tracked && FromSpace(t, s, now)
    ensures forall t :: t in AllRelevantTasks(spaces, tracked, now) ==> t.spaceName in tracked
  {
    var kept := Filter(spaces, TrackedPred(tracked));
    FilterMembership(spaces, TrackedPred(tracked));
    SpacesTasksMembership(kept, now);
    forall t | t in AllRelevantTasks(spaces, tracked, now) ensures t.spaceName in tracked {
      var s :| s in kept && FromSpace(t, s, now);
      var f :| f in s.folders && FromFolder(t, f, s.name, now);
      var l :| l in ActiveLists(f, now) && FromList(t, l, s.name);
      var r :| r in l.tasks && Enrich(r).Some? && t == Enrich(r).value.(spaceName := s.name);
    }
  }

  // --------------------------------------------------------- compliance filter

  /** Some configured status is a substring of the task's status. */
  predicate IsRelevant(status: string, relevant: seq<string>) {
    exists s :: s in relevant && Contains(status, s)
  }

  /** `!t.last_comment_date || !isSameDay(...)`, with `day` the local calendar day of a timestamp. */
  predicate NoRecentComment(t: Task, day: int -> int, now: int) {
    t.lastCommentDate.None? || day(t.lastCommentDate.value) != day(now)
  }

  predicate IsMissing(t: Task, relevant: seq<string>, day: int -> int, now: int) {
    IsRelevant(t.status, relevant) && (t.timeSpent == 0 || NoRecentComment(t, day, now))
  }

  function MissingPred(relevant: seq<string>, day: int -> int, now: int): Task -> bool {
    (t: Task) => IsMissing(t, relevant, day, now)
  }

  /** `filterMissingTasks`, with `config.relevantStatuses` as `relevant` and `new Date()` as `now`. */
  function FilterMissingTasks(tasks: seq<Task>, relevant: seq<string>, day: int -> int, now: int): (r: seq<Task>)
    ensures IsSubsequence(r, tasks)
    ensures forall t :: t in r <==>
      t in tasks && IsRelevant(t.status, relevant) &&
      (t.timeSpent == 0 || t.lastCommentDate.None? || day(t.lastCommentDate.value) != day(now))
  {
    FilterIsSubsequence(tasks, MissingPred(relevant, day, now));
    FilterMembership(tasks, MissingPred(relevant, day, now));
    Filter(tasks, MissingPred(relevant, day, now))
  }
}
