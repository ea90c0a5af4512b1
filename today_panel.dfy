/** The today panel of Frontend/TaskCalender/src/components/BottomLeft.jsx: grouping the
    day's tasks by subject, the local completion toggles, the selection of status updates
    sent by "mark as complete", the client-side age gate of buffer deletion, and the
    choice of reschedule request. */
module TodayPanel {
  import opened Wrappers
  import TaskController

  /** A task as the panel receives it; `assignedDay` is the local day of `assignedDate`. */
  datatype ApiTask = ApiTask(id: string, subject: string, kind: string, status: string, assignedDay: int)

  /** A listed task with its local `completed` checkbox. */
  datatype Item = Item(task: ApiTask, completed: bool)

  /** The tasks of one subject, in the order they were received. */
  datatype Group = Group(subject: string, items: seq<Item>)

  /** A fetched task enters the list checked exactly when its status is "completed". */
  function Mark(t: ApiTask): Item {
    Item(t, t.status == "completed")
  }

  /** The subjects of `ts`, each once, in order of first appearance. */
  function Subjects(ts: seq<ApiTask>): seq<string> {
    if ts == [] then []
    else
      var s := Subjects(ts[..|ts| - 1]);
      if ts[|ts| - 1].subject in s then s else s + [ts[|ts| - 1].subject]
  }

  /** The tasks of `ts` on `subject`, in order, each marked from its status. */
  function ItemsFor(ts: seq<ApiTask>, subject: string): seq<Item> {
    if ts == [] then []
    else ItemsFor(ts[..|ts| - 1], subject) + (if ts[|ts| - 1].subject == subject then [Mark(ts[|ts| - 1])] else [])
  }

  /** What the grouping of `fetchTodayTasks` should produce: one group per subject in
      order of first appearance, holding that subject's tasks in input order. */
  predicate IsGrouping(groups: seq<Group>, ts: seq<ApiTask>) {
    && |groups| == |Subjects(ts)|
    && forall k :: 0 <= k < |groups| ==> groups[k] == Group(Subjects(ts)[k], ItemsFor(ts, Subjects(ts)[k]))
  }

  predicate HasKind(ts: seq<ApiTask>, kind: string) {
    exists i :: 0 <= i < |ts| && ts[i].kind == kind
  }

  /** The position of the group of `subject`, if there is one. */
  function FindGroup(groups: seq<Group>, subject: string): (r: Option<nat>)
    ensures r.Some? ==> r.value < |groups| && groups[r.value].subject == subject
    ensures r.None? <==> forall k :: 0 <= k < |groups| ==> groups[k].subject != subject
  {
    if groups == [] then None
    else if groups[0].subject == subject then Some(0)
    else match FindGroup(groups[1..], subject)
      case None => None
      case Some(k) => Some(k + 1)
  }

  /** No subject is listed twice. */
  lemma {:induction false} SubjectsDistinct(ts: seq<ApiTask>)
    ensures forall i, j :: 0 <= i < j < |Subjects(ts)| ==> Subjects(ts)[i] != Subjects(ts)[j]
  {
    if ts != [] {
      SubjectsDistinct(ts[..|ts| - 1]);
    }
  }

  /** A subject is listed iff some task has it. */
  lemma {:induction false} SubjectsComplete(ts: seq<ApiTask>, s: string)
    ensures s in Subjects(ts) <==> exists i :: 0 <= i < |ts| && ts[i].subject == s
  {
    if ts != [] {
      var init := ts[..|ts| - 1];
      SubjectsComplete(init, s);
      if s in Subjects(init) {
        var i :| 0 <= i < |init| && init[i].subject == s;
        assert ts[i].subject == s;
      }
      if exists i :: 0 <= i < |ts| && ts[i].subject == s {
        var i :| 0 <= i < |ts| && ts[i].subject == s;
        if i < |init| {
          assert init[i].subject == s;
        }
      }
    }
  }

  lemma {:induction false} NoItemsFor(ts: seq<ApiTask>, s: string)
    requires s !in Subjects(ts)
    ensures ItemsFor(ts, s) == []
  {
    if ts != [] {
      NoItemsFor(ts[..|ts| - 1], s);
    }
  }

  lemma GroupingSnocExisting(groups: seq<Group>, ts: seq<ApiTask>, t: ApiTask, j: nat)
    requires IsGrouping(groups, ts) && j < |groups| && groups[j].subject == t.subject
    ensures IsGrouping(groups[j := Group(t.subject, groups[j].items + [Mark(t)])], ts + [t])
  {
    var s := ts + [t];
    assert s[..|s| - 1] == ts;
    assert Subjects(s) == Subjects(ts);
    SubjectsDistinct(ts);
  }

  lemma GroupingSnocNew(groups: seq<Group>, ts: seq<ApiTask>, t: ApiTask)
    requires IsGrouping(groups, ts) && forall k :: 0 <= k < |groups| ==> groups[k].subject != t.subject
    ensures IsGrouping(groups + [Group(t.subject, [Mark(t)])], ts + [t])
  {
    var s := ts + [t];
    assert s[..|s| - 1] == ts;
    NoItemsFor(ts, t.subject);
  }

  lemma HasKindSnoc(ts: seq<ApiTask>, t: ApiTask, kind: string)
    ensures HasKind(ts + [t], kind) <==> HasKind(ts, kind) || t.kind == kind
  {
    var s := ts + [t];
    if HasKind(ts, kind) {
      var i :| 0 <= i < |ts| && ts[i].kind == kind;
      assert s[i] == ts[i];
    }
    if t.kind == kind {
      assert s[|ts|] == t;
    }
    if HasKind(s, kind) && !HasKind(ts, kind) {
      var i :| 0 <= i < |s| && s[i].kind == kind;
      if i < |ts| {
        assert ts[i] == s[i];
      }
    }
  }

  /** The properties every plain object `{}` inherits from `Object.prototype`. Reading
      one of them from the grouping object gives a truthy non-array, so the group is not
      created and the following `push` throws. */
  const InheritedKeys: set<string> := {
    "constructor", "hasOwnProperty", "isPrototypeOf", "propertyIsEnumerable",
    "toLocaleString", "toString", "valueOf", "__proto__",
    "__defineGetter__", "__defineSetter__", "__lookupGetter__", "__lookupSetter__" }

  predicate IsInheritedKey(subject: string) {
    subject in InheritedKeys
  }

  /** What `fetchTodayTasks` stores on success: the groups and the two flags. */
  datatype TodayView = TodayView(groups: seq<Group>, hasTest: bool, hasPyq: bool)

  /** The grouping loop of `fetchTodayTasks`, with the test and pyq flags. A subject
      named after an inherited property makes the loop throw; the error is caught before
      any state is set, so the panel keeps its previous view (`None`). */
  method GroupTodayTasks(ts: seq<ApiTask>) returns (r: Option<TodayView>)
    ensures r.None? <==> exists i :: 0 <= i < |ts| && IsInheritedKey(ts[i].subject)
    ensures r.Some? ==> IsGrouping(r.value.groups, ts)
    ensures r.Some? ==> (r.value.hasTest <==> HasKind(ts, "test"))
    ensures r.Some? ==> (r.value.hasPyq <==> HasKind(ts, "pyq"))
  {
    var groups := [];
    var hasTest := false;
    var hasPyq := false;
    for i := 0 to |ts|
      invariant IsGrouping(groups, ts[..i])
      invariant hasTest <==> HasKind(ts[..i], "test")
      invariant hasPyq <==> HasKind(ts[..i], "pyq")
      invariant forall k :: 0 <= k < i ==> !IsInheritedKey(ts[k].subject)
    {
      var t := ts[i];
      assert ts[..i + 1] == ts[..i] + [t];
      HasKindSnoc(ts[..i], t, "test");
      HasKindSnoc(ts[..i], t, "pyq");
      if t.kind == "test" {
        hasTest := true;
      }
      if t.kind == "pyq" {
        hasPyq := true;
      }
      if IsInheritedKey(t.subject) {
        return None;
      }
      groups := AddToGroup(groups, ts[..i], t);
    }
    assert ts[..|ts|] == ts;
    r := Some(TodayView(groups, hasTest, hasPyq));
  }

  /** One step of the grouping loop: create the subject's group when it is missing,
      then push the task, marked from its status, onto it. */
  method AddToGroup(groups: seq<Group>, ghost done: seq<ApiTask>, t: ApiTask) returns (next: seq<Group>)
    requires IsGrouping(groups, done)
    ensures IsGrouping(next, done + [t])
  {
    var j := FindGroup(groups, t.subject);
    next := groups;
    if j.None? {
      GroupingSnocNew(groups, done, t);
      next := next + [Group(t.subject, [])];
      j := Some(|next| - 1);
      assert next[j.value := Group(t.subject, next[j.value].items + [Mark(t)])] ==
        groups + [Group(t.subject, [Mark(t)])];
    } else {
      GroupingSnocExisting(groups, done, t, j.value);
    }
    next := next[j.value := Group(t.subject, next[j.value].items + [Mark(t)])];
  }

  /** Every fetched task sits in exactly one group: the group of its subject, which is
      the only group with that subject; and a group holds only tasks of its subject. */
  lemma EachTaskInOneGroup(groups: seq<Group>, ts: seq<ApiTask>, i: nat)
    requires IsGrouping(groups, ts) && i < |ts|
    ensures exists k :: 0 <= k < |groups| && groups[k].subject == ts[i].subject && Mark(ts[i]) in groups[k].items
    ensures forall k, l :: 0 <= k < l < |groups| ==> groups[k].subject != groups[l].subject
    ensures forall k, m :: 0 <= k < |groups| && 0 <= m < |groups[k].items| ==>
      groups[k].items[m].task.subject == groups[k].subject
  {
    SubjectsDistinct(ts);
    SubjectsComplete(ts, ts[i].subject);
    var k :| 0 <= k < |Subjects(ts)| && Subjects(ts)[k] == ts[i].subject;
    ItemsForContains(ts, i);
    assert groups[k].subject == ts[i].subject && Mark(ts[i]) in groups[k].items;
    forall k, m | 0 <= k < |groups| && 0 <= m < |groups[k].items|
      ensures groups[k].items[m].task.subject == groups[k].subject
    {
      ItemsForSound(ts, groups[k].subject);
      assert groups[k].items[m] in ItemsFor(ts, groups[k].subject);
    }
  }

  lemma {:induction false} ItemsForContains(ts: seq<ApiTask>, i: nat)
    requires i < |ts|
    ensures Mark(ts[i]) in ItemsFor(ts, ts[i].subject)
  {
    if i < |ts| - 1 {
      ItemsForContains(ts[..|ts| - 1], i);
    }
  }

  lemma {:induction false} ItemsForSound(ts: seq<ApiTask>, s: string)
    ensures forall it :: it in ItemsFor(ts, s) ==> it.task.subject == s && it == Mark(it.task)
  {
    if ts != [] {
      ItemsForSound(ts[..|ts| - 1], s);
    }
  }

  /** The `map` of the toggles: the entries with the id flip their checkbox, all others
      stay as they are. */
  function ToggleIn(items: seq<Item>, id: string): (r: seq<Item>)
    ensures |r| == |items|
    ensures forall k :: 0 <= k < |r| && items[k].task.id != id ==> r[k] == items[k]
    ensures forall k :: 0 <= k < |r| && items[k].task.id == id ==>
      r[k].task == items[k].task && r[k].completed == !items[k].completed
  {
    seq(|items|, k requires 0 <= k < |items| =>
      if items[k].task.id == id then items[k].(completed := !items[k].completed) else items[k])
  }

  /** Toggling the same task twice restores the list. */
  lemma ToggleTwice(items: seq<Item>, id: string)
    ensures ToggleIn(ToggleIn(items, id), id) == items
  {
    var r := ToggleIn(ToggleIn(items, id), id);
    forall k | 0 <= k < |items| ensures r[k] == items[k] {
    }
  }

  /** `toggleTaskComplete(subject, id)`: toggles within the subject's group; the other
      groups are untouched. With no group of that subject the handler fails (it maps
      over `undefined`). */
  function ToggleTaskComplete(groups: seq<Group>, subject: string, id: string): (r: Option<seq<Group>>)
    ensures r.None? <==> forall k :: 0 <= k < |groups| ==> groups[k].subject != subject
    ensures r.Some? ==> |r.value| == |groups| && exists j :: (
      && 0 <= j < |groups|
      && groups[j].subject == subject
      && r.value[j] == Group(subject, ToggleIn(groups[j].items, id))
      && forall k :: 0 <= k < |groups| && k != j ==> r.value[k] == groups[k])
  {
    match FindGroup(groups, subject)
    case None => None
    case Some(j) => Some(groups[j := Group(subject, ToggleIn(groups[j].items, id))])
  }

  /** Toggling the same task twice restores the panel. */
  lemma ToggleTaskCompleteTwice(groups: seq<Group>, subject: string, id: string)
    requires ToggleTaskComplete(groups, subject, id).Some?
    ensures ToggleTaskComplete(ToggleTaskComplete(groups, subject, id).value, subject, id) == Some(groups)
  {
    var j := FindGroup(groups, subject).value;
    var once := ToggleTaskComplete(groups, subject, id).value;
    FindGroupStable(groups, j, Group(subject, ToggleIn(groups[j].items, id)));
    ToggleTwice(groups[j].items, id);
    assert once[j := Group(subject, ToggleIn(once[j].items, id))] == groups;
  }

  /** Replacing a group by one of the same subject keeps the lookup where it was. */
  lemma {:induction false} FindGroupStable(groups: seq<Group>, j: nat, g: Group)
    requires FindGroup(groups, g.subject) == Some(j)
    ensures FindGroup(groups[j := g], g.subject) == Some(j)
  {
    if j > 0 {
      assert groups[j := g][1..] == groups[1..][j - 1 := g];
      FindGroupStable(groups[1..], j - 1, g);
    }
  }

  /** `toggleBufferTaskComplete(id)`: the same toggle over the buffer list. */
  function ToggleBufferTaskComplete(buffer: seq<Item>, id: string): (r: seq<Item>)
    ensures |r| == |buffer|
    ensures forall k :: 0 <= k < |r| && buffer[k].task.id != id ==> r[k] == buffer[k]
    ensures forall k :: 0 <= k < |r| && buffer[k].task.id == id ==>
      r[k].task == buffer[k].task && r[k].completed == !buffer[k].completed
    ensures ToggleIn(r, id) == buffer
  {
    ToggleTwice(buffer, id);
    ToggleIn(buffer, id)
  }

  /** `fetchBufferTasks`: the buffer list, each task marked from its status. */
  function MarkAll(ts: seq<ApiTask>): (r: seq<Item>)
    ensures |r| == |ts| && forall k :: 0 <= k < |r| ==> r[k].task == ts[k] && (r[k].completed <==> ts[k].status == "completed")
  {
    seq(|ts|, k requires 0 <= k < |ts| => Mark(ts[k]))
  }

  /** A checked task that the store does not yet have as completed. */
  predicate NeedsUpdate(it: Item) {
    it.completed && it.task.status != "completed"
  }

  /** The ids of the items needing an update, in order. */
  function Selected(items: seq<Item>): seq<string> {
    if items == [] then []
    else Selected(items[..|items| - 1]) + (if NeedsUpdate(items[|items| - 1]) then [items[|items| - 1].task.id] else [])
  }

  function SelectedInGroups(groups: seq<Group>): seq<string> {
    if groups == [] then [] else SelectedInGroups(groups[..|groups| - 1]) + Selected(groups[|groups| - 1].items)
  }

  /** The status updates "mark as complete" sends: the groups in order, then the buffer. */
  function ToUpdate(groups: seq<Group>, buffer: seq<Item>): seq<string> {
    SelectedInGroups(groups) + Selected(buffer)
  }

  /** `markAsComplete`: the ids sent a status update, group by group and then the buffer. */
  method MarkAsComplete(groups: seq<Group>, buffer: seq<Item>) returns (ids: seq<string>)
    ensures ids == ToUpdate(groups, buffer)
  {
    ids := [];
    for k := 0 to |groups|
      invariant ids == SelectedInGroups(groups[..k])
    {
      var items := groups[k].items;
      for m := 0 to |items|
        invariant ids == SelectedInGroups(groups[..k]) + Selected(items[..m])
      {
        if items[m].completed && items[m].task.status != "completed" {
          ids := ids + [items[m].task.id];
        }
        assert items[..m + 1][..m] == items[..m];
      }
      assert items[..|items|] == items;
      assert groups[..k + 1][..k] == groups[..k];
    }
    assert groups[..|groups|] == groups;
    for m := 0 to |buffer|
      invariant ids == SelectedInGroups(groups) + Selected(buffer[..m])
    {
      if buffer[m].completed && buffer[m].task.status != "completed" {
        ids := ids + [buffer[m].task.id];
      }
      assert buffer[..m + 1][..m] == buffer[..m];
    }
    assert buffer[..|buffer|] == buffer;
  }

  /** Some item of the list with that id needs an update. */
  predicate SelectsId(items: seq<Item>, id: string) {
    exists m :: 0 <= m < |items| && NeedsUpdate(items[m]) && items[m].task.id == id
  }

  /** An id is in the selection iff some item with that id needs an update. */
  lemma {:induction false} SelectedIff(items: seq<Item>, id: string)
    ensures id in Selected(items) <==> SelectsId(items, id)
  {
    if items != [] {
      var init := items[..|items| - 1];
      SelectedIff(init, id);
      if SelectsId(init, id) {
        var m :| 0 <= m < |init| && NeedsUpdate(init[m]) && init[m].task.id == id;
        assert items[m] == init[m];
      }
      if SelectsId(items, id) {
        var m :| 0 <= m < |items| && NeedsUpdate(items[m]) && items[m].task.id == id;
        if m < |init| {
          assert init[m] == items[m];
        }
      }
    }
  }

  lemma {:induction false} SelectedInGroupsIff(groups: seq<Group>, id: string)
    ensures id in SelectedInGroups(groups) <==> exists k :: 0 <= k < |groups| && SelectsId(groups[k].items, id)
  {
    if groups != [] {
      var init := groups[..|groups| - 1];
      var last := groups[|groups| - 1];
      SelectedInGroupsIff(init, id);
      SelectedIff(last.items, id);
      if exists k :: 0 <= k < |init| && SelectsId(init[k].items, id) {
        var k :| 0 <= k < |init| && SelectsId(init[k].items, id);
        assert groups[k] == init[k];
      }
      if exists k :: 0 <= k < |groups| && SelectsId(groups[k].items, id) {
        var k :| 0 <= k < |groups| && SelectsId(groups[k].items, id);
        if k < |init| {
          assert init[k] == groups[k];
        }
      }
    }
  }

  /** An update goes out for an id exactly when a checked item in one of the lists
      carries it and its stored status is not yet "completed". */
  lemma ToUpdateIff(groups: seq<Group>, buffer: seq<Item>, id: string)
    ensures id in ToUpdate(groups, buffer) <==>
      (exists k :: 0 <= k < |groups| && SelectsId(groups[k].items, id)) || SelectsId(buffer, id)
  {
    SelectedInGroupsIff(groups, id);
    SelectedIff(buffer, id);
  }

  /** Freshly fetched lists select nothing: the checkboxes start from the stored
      status, so only the user's toggles create updates. */
  lemma FreshListsSelectNothing(groups: seq<Group>, today: seq<ApiTask>, buffer: seq<ApiTask>)
    requires IsGrouping(groups, today)
    ensures ToUpdate(groups, MarkAll(buffer)) == []
  {
    NoneSelected(MarkAll(buffer));
    forall k, m | 0 <= k < |groups| && 0 <= m < |groups[k].items|
      ensures !NeedsUpdate(groups[k].items[m])
    {
      ItemsForSound(today, groups[k].subject);
      assert groups[k].items[m] in ItemsFor(today, groups[k].subject);
    }
    NoGroupSelects(groups);
  }

  lemma {:induction false} NoneSelected(items: seq<Item>)
    requires forall k :: 0 <= k < |items| ==> !NeedsUpdate(items[k])
    ensures Selected(items) == []
  {
    if items != [] {
      NoneSelected(items[..|items| - 1]);
    }
  }

  lemma {:induction false} NoGroupSelects(groups: seq<Group>)
    requires forall k, m :: 0 <= k < |groups| && 0 <= m < |groups[k].items| ==> !NeedsUpdate(groups[k].items[m])
    ensures SelectedInGroups(groups) == []
  {
    if groups != [] {
      NoGroupSelects(groups[..|groups| - 1]);
      NoneSelected(groups[|groups| - 1].items);
    }
  }

  /** The panel's `bufferThreshold`. */
  const BufferThreshold: int := 1

  /** `testTodayDate` when set: its text as sent to the server and its local day. */
  datatype TestDate = TestDate(text: string, day: int)

  /** `getEffectiveToday`: the test date when one is set, else the local day of now. */
  function EffectiveToday(testDate: Option<TestDate>, nowDay: int): (today: int)
    ensures testDate.Some? ==> today == testDate.value.day
    ensures testDate.None? ==> today == nowDay
  {
    match testDate
    case Some(d) => d.day
    case None => nowDay
  }

  /** `getDaysOld`: whole days from the task's local midnight to effective today's. */
  function DaysOld(testDate: Option<TestDate>, nowDay: int, taskDay: int): int {
    EffectiveToday(testDate, nowDay) - taskDay
  }

  /** `canDelete`: the delete button is shown for a buffer task at least a threshold old. */
  predicate CanDelete(daysOld: int) {
    daysOld >= BufferThreshold
  }

  /** What `deleteBufferTask` does on the client: refuse with an alert, stop at the
      confirmation dialog, or send the delete with the threshold and the test date. */
  datatype ClientDelete = RefusedTooRecent | Cancelled | SendDelete(id: string, threshold: int, date: Option<string>)

  function DeleteBufferTask(id: string, taskDay: int, testDate: Option<TestDate>, nowDay: int, confirmed: bool): (r: ClientDelete)
    ensures r == RefusedTooRecent <==> !CanDelete(DaysOld(testDate, nowDay, taskDay))
    ensures r == Cancelled <==> CanDelete(DaysOld(testDate, nowDay, taskDay)) && !confirmed
    ensures r.SendDelete? ==> (r.id == id && r.threshold == BufferThreshold &&
      r.date == (if testDate.Some? then Some(testDate.value.text) else None))
  {
    var daysDiff := DaysOld(testDate, nowDay, taskDay);
    if daysDiff < BufferThreshold then RefusedTooRecent
    else if !confirmed then Cancelled
    else SendDelete(id, BufferThreshold, if testDate.Some? then Some(testDate.value.text) else None)
  }

  /** The client and the server gate agree: when the server's today is the client's
      effective today, the delete the client sends passes the server's age check, and a
      delete the client refuses would be refused there too. */
  lemma ClientGateMatchesServer(id: string, taskDay: int, testDate: Option<TestDate>, nowDay: int,
                                confirmed: bool, serverToday: int)
    requires serverToday == EffectiveToday(testDate, nowDay)
    ensures DeleteBufferTask(id, taskDay, testDate, nowDay, confirmed).SendDelete? ==>
      TaskController.DeletionAllowed(serverToday - taskDay,
        TaskController.Threshold(DeleteBufferTask(id, taskDay, testDate, nowDay, confirmed).threshold))
    ensures DeleteBufferTask(id, taskDay, testDate, nowDay, confirmed) == RefusedTooRecent <==>
      !TaskController.DeletionAllowed(serverToday - taskDay, TaskController.Threshold(BufferThreshold))
  {
  }

  /** The request `confirmReschedule` sends. */
  datatype RescheduleRequest =
    | RescheduleAll(id: string, newDate: string, repeatEveryDays: Option<int>)
    | RescheduleOne(id: string, newDate: string)

  /** `confirmReschedule`: nothing without a new date; otherwise the reschedule-all
      request when the box is ticked (repeating weekly for a general task), else the
      single reschedule carrying only the new date. */
  function ConfirmReschedule(task: ApiTask, newDate: string, rescheduleAll: bool): (r: Option<RescheduleRequest>)
    ensures r.None? <==> newDate == ""
    ensures r.Some? ==> r.value.id == task.id && r.value.newDate == newDate
    ensures r.Some? ==> (r.value.RescheduleAll? <==> rescheduleAll)
    ensures r.Some? && r.value.RescheduleAll? ==>
      (r.value.repeatEveryDays == Some(7) <==> task.kind == "general") &&
      (r.value.repeatEveryDays.None? <==> task.kind != "general")
  {
    if newDate == "" then None
    else if rescheduleAll then Some(RescheduleAll(task.id, newDate, if task.kind == "general" then Some(7) else None))
    else Some(RescheduleOne(task.id, newDate))
  }
}
