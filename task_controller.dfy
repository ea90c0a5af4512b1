/** The task handlers of Backend/controllers/task.controller.js over an in-memory
    record store. Every handler that writes to the database is a method of
    `TaskStore` that changes `tasks` (and hands out ids from `nextId`); the read-only
    handlers are methods that change nothing. The caller's id, the current instant,
    the query and body parameters and the fifteen-month horizon are parameters. */
module TaskController {
  import opened Wrappers
  import opened TaskModel
  import opened Schedule
  import opened TaskQueries
  import opened Occurrences
  import opened TaskReports

  const MillisPerDay: int := 86400000

  /** `setHours(0, 0, 0, 0)` of an instant: the day it falls on (server clock in UTC). */
  function DayOf(instant: int): (day: int)
    ensures day * MillisPerDay <= instant < (day + 1) * MillisPerDay
  {
    instant / MillisPerDay
  }

  /** The non-success replies of the handlers. */
  datatype ApiError =
    | MissingRange            // 400: `start` or `end` missing
    | InvalidDate             // 400: "Invalid date format. Use YYYY-MM-DD"
    | NotFound                // 404: "Task not found"
    | TooRecent               // 400: "Task can only be deleted after … days"
    | StoreRejected           // a cast or validation error of the store, passed to the error handler
    | DocumentMissing         // `save()` of a document that was deleted meanwhile, passed to the error handler

  /** A date query parameter: absent (or empty), a day, or text `new Date` cannot parse. */
  datatype DateParam = NoDate | OnDay(day: int) | Unparseable

  /** The `bufferThreshold` query parameter of deleteBufferTask: absent (default 5),
      a number of days, or text that `Number` turns into NaN. */
  datatype ThresholdParam = DefaultThreshold | Threshold(days: int) | NotNumeric

  const DefaultBufferThreshold: int := 5

  /** The reply of `getTodayTasks` and `getBufferTasks`. */
  datatype Listing = Listing(dateUsed: int, tasks: seq<TaskRecord>)

  /** The two successful replies of updateTaskTypeAndRepetition. */
  datatype RetypeReply = Regenerated(created: nat) | Retyped(task: TaskRecord)

  /** The base of a task's occurrence group: its parent, or the task itself. */
  function ParentOf(t: TaskRecord): (p: TaskId)
    ensures t.parentTask.None? ==> p == t.id
    ensures t.parentTask.Some? ==> p == t.parentTask.value
  {
    t.parentTask.GetOr(t.id)
  }

  /** The `today` of a handler with an optional `date` parameter: the given day, or the
      day of the current instant when the parameter is absent. */
  function Today(date: DateParam, now: int): (r: Option<int>)
    ensures r.None? <==> date.Unparseable?
    ensures date.OnDay? ==> r == Some(date.day)
    ensures date.NoDate? ==> r == Some(DayOf(now))
  {
    match date
    case NoDate => Some(DayOf(now))
    case OnDay(d) => Some(d)
    case Unparseable => None
  }

  /** The age gate of deleteBufferTask: `daysDifference < Number(bufferThreshold)` refuses.
      A NaN threshold makes that comparison false, so the gate lets every task through. */
  function DeletionAllowed(daysOld: int, threshold: ThresholdParam): (allowed: bool)
    ensures threshold.DefaultThreshold? ==> (allowed <==> daysOld >= DefaultBufferThreshold)
    ensures threshold.Threshold? ==> (allowed <==> daysOld >= threshold.days)
    ensures threshold.NotNumeric? ==> allowed
  {
    match threshold
    case DefaultThreshold => !(daysOld < DefaultBufferThreshold)
    case Threshold(n) => !(daysOld < n)
    case NotNumeric => true
  }

  /** A task old enough to be deleted stays deletable as it ages. */
  lemma DeletionAllowedMonotone(daysOld: int, later: int, threshold: ThresholdParam)
    requires daysOld <= later && DeletionAllowed(daysOld, threshold)
    ensures DeletionAllowed(later, threshold)
  {
  }

  /** Appending records whose ids count up from the store's next id keeps ids increasing. */
  lemma AppendFreshIds(ts: seq<TaskRecord>, extra: seq<TaskRecord>, n: nat)
    requires IdsIncreasing(ts) && forall t :: t in ts ==> t.id < n
    requires forall k :: 0 <= k < |extra| ==> extra[k].id == n + k
    ensures IdsIncreasing(ts + extra)
    ensures forall t :: t in ts + extra ==> t.id < n + |extra|
  {
    var all := ts + extra;
    forall i, j | 0 <= i < j < |all| ensures all[i].id < all[j].id {
      if j < |ts| {
      } else if i < |ts| {
        assert all[i] in ts;
      }
    }
    forall t | t in all ensures t.id < n + |extra| {
      if t !in ts {
        var k :| 0 <= k < |extra| && extra[k] == t;
      }
    }
  }


  /** A record that survives a delete is the same record that was stored under its id. */
  lemma FindAfterRemove(ts: seq<TaskRecord>, q: Query, id: TaskId)
    requires IdsIncreasing(ts) && Find(ts, id).Some? && Find(Remove(ts, q), id).Some?
    ensures Remove(ts, q)[Find(Remove(ts, q), id).value] == ts[Find(ts, id).value]
  {
    RemoveSpec(ts, q);
    var kept := Remove(ts, q);
    var x := kept[Find(kept, id).value];
    assert x in kept;
    var i :| 0 <= i < |ts| && ts[i] == x;
    var k := Find(ts, id).value;
    assert ts[i].id == ts[k].id;
  }

  /** Updating a record in place without changing its id keeps ids increasing. */
  lemma UpdateKeepsIds(ts: seq<TaskRecord>, k: nat, t: TaskRecord, n: nat)
    requires IdsIncreasing(ts) && (forall x :: x in ts ==> x.id < n) && k < |ts| && t.id == ts[k].id
    ensures IdsIncreasing(ts[k := t]) && forall x :: x in ts[k := t] ==> x.id < n
  {
    var u := ts[k := t];
    forall x | x in u ensures x.id < n {
      var i :| 0 <= i < |u| && u[i] == x;
      if i != k {
        assert ts[i] in ts;
      }
    }
  }

  class TaskStore {
    /** The stored tasks, in insertion order. */
    var tasks: seq<TaskRecord>
    /** The id the next stored task receives. */
    var nextId: TaskId

    /** Ids strictly increase along the store and are all below `nextId`. */
    ghost predicate Valid()
      reads this
    {
      IdsIncreasing(tasks) && forall t :: t in tasks ==> t.id < nextId
    }

    constructor()
      ensures Valid() && tasks == [] && nextId == 0
    {
      tasks := [];
      nextId := 0;
    }

    /** Stores a base record on `start` and the occurrences its type calls for, linked
        to it (the tail shared by createTask and rescheduleAllOccurrences). */
    method StoreGroup(seed: Seed, start: int, repeatEveryDays: int, horizon: int -> int, now: int)
      returns (created: nat)
      requires Valid()
      modifies this
      ensures Valid()
      ensures var g := NewGroup(seed, PolicyOf(seed.taskType, repeatEveryDays), old(nextId), start, horizon(start), now);
        && tasks == old(tasks) + g
        && nextId == old(nextId) + |g|
        && created == |g|
    {
      var occ := PlanOccurrences(seed.taskType, repeatEveryDays, start, horizon(start));
      var g := [BaseRecord(nextId, seed, start, now)] + Materialize(seed, occ, nextId, nextId + 1, now);
      assert g == NewGroup(seed, PolicyOf(seed.taskType, repeatEveryDays), nextId, start, horizon(start), now);
      AppendFreshIds(tasks, g, nextId);
      tasks := tasks + g;
      nextId := nextId + |g|;
      created := |g|;
    }

    /** Stores the occurrences from `start` that the seed's type calls for, linked to an
        existing base `parent` (the tail of updateTaskTypeAndRepetition). */
    method StoreChildren(seed: Seed, start: int, repeatEveryDays: int, parent: TaskId,
                         horizon: int -> int, now: int)
      returns (created: nat)
      requires Valid()
      modifies this
      ensures Valid()
      ensures var children := Materialize(seed, Plan(PolicyOf(seed.taskType, repeatEveryDays), start, horizon(start)),
          parent, old(nextId), now);
        && tasks == old(tasks) + children
        && nextId == old(nextId) + |children|
        && created == |children|
        && forall k :: 0 <= k < |children| ==>
             children[k].parentTask == Some(parent) && children[k].revisionStep == k + 1 &&
             start < children[k].assignedDate
    {
      var occ := PlanOccurrences(seed.taskType, repeatEveryDays, start, horizon(start));
      var children := Materialize(seed, occ, parent, nextId, now);
      MaterializeLinks(seed, occ, parent, nextId, now);
      CreatedGroupWellFormed(seed, PolicyOf(seed.taskType, repeatEveryDays), parent, start, horizon(start), now);
      AppendFreshIds(tasks, children, nextId);
      tasks := tasks + children;
      nextId := nextId + |children|;
      created := |children|;
    }

    /** `createTask`: validates and stores the base task (step 0, no parent, pending),
        then the occurrences its type calls for, linked to it. A missing subject, title,
        date or type is a validation error and stores nothing. Replies with `1 + futureTasks.length`. */
    method CreateTask(user: UserId, subject: string, title: string, text: string,
                      assignedDate: Option<int>, taskType: Option<TaskType>, repeatEveryDays: int,
                      horizon: int -> int, now: int)
      returns (r: Result<nat, ApiError>)
      requires Valid()
      modifies this
      ensures Valid()
      ensures r.Err? <==> subject == [] || title == [] || assignedDate.None? || taskType.None?
      ensures r.Err? ==> r.error == StoreRejected && tasks == old(tasks) && nextId == old(nextId)
      ensures r.Ok? ==>
        var start := assignedDate.value;
        var seed := Seed(user, subject, title, text, taskType.value);
        var g := NewGroup(seed, PolicyOf(taskType.value, repeatEveryDays), old(nextId), start, horizon(start), now);
        && tasks == old(tasks) + g
        && r.value == |g|
        && WellFormedGroup(g[0], g[1..])
    {
      var input := TaskInput(user, subject, title, text, assignedDate, None, taskType, Some(0), None);
      var record := CreateRecord(nextId, input, now);
      if record.None? {
        return Err(StoreRejected);
      }
      var seed := Seed(user, subject, title, text, taskType.value);
      var created := StoreGroup(seed, assignedDate.value, repeatEveryDays, horizon, now);
      r := Ok(created);
    }

    /** `getTasksByDateRange`: the caller's tasks dated from `start` through `end`, by
        date. Both parameters are required; an unparseable one is a cast error. */
    method GetTasksByDateRange(user: UserId, start: DateParam, end: DateParam)
      returns (r: Result<seq<TaskRecord>, ApiError>)
      ensures start.NoDate? || end.NoDate? ==> r == Err(MissingRange)
      ensures !start.NoDate? && !end.NoDate? && (start.Unparseable? || end.Unparseable?) ==>
        r == Err(StoreRejected)
      ensures start.OnDay? && end.OnDay? ==>
        && r.Ok?
        && multiset(r.value) == multiset(Select(tasks, DateRange(user, start.day, end.day)))
        && SortedBy(r.value, DateAscending)
    {
      if start.NoDate? || end.NoDate? {
        return Err(MissingRange);
      }
      if start.Unparseable? || end.Unparseable? {
        return Err(StoreRejected);
      }
      r := Ok(Sort(Select(tasks, DateRange(user, start.day, end.day)), DateAscending));
    }

    /** `getTodayTasks`: the caller's tasks on the chosen day, newest first. */
    method GetTodayTasks(user: UserId, date: DateParam, now: int)
      returns (r: Result<Listing, ApiError>)
      ensures r.Err? <==> date.Unparseable?
      ensures r.Err? ==> r.error == InvalidDate
      ensures r.Ok? ==>
        var day := Today(date, now).value;
        && r.value.dateUsed == day
        && multiset(r.value.tasks) == multiset(Select(tasks, DateRange(user, day, day)))
        && SortedBy(r.value.tasks, CreatedDescending)
    {
      var today := Today(date, now);
      if today.None? {
        return Err(InvalidDate);
      }
      var day := today.value;
      r := Ok(Listing(day, Sort(Select(tasks, DateRange(user, day, day)), CreatedDescending)));
    }

    /** `getBufferTasks`: the caller's tasks dated before the chosen day and not
        completed, oldest first. */
    method GetBufferTasks(user: UserId, date: DateParam, now: int)
      returns (r: Result<Listing, ApiError>)
      ensures r.Err? <==> date.Unparseable?
      ensures r.Err? ==> r.error == InvalidDate
      ensures r.Ok? ==>
        var day := Today(date, now).value;
        && r.value.dateUsed == day
        && multiset(r.value.tasks) == multiset(Select(tasks, Overdue(user, day)))
        && SortedBy(r.value.tasks, DateAscending)
    {
      var today := Today(date, now);
      if today.None? {
        return Err(InvalidDate);
      }
      var day := today.value;
      r := Ok(Listing(day, Sort(Select(tasks, Overdue(user, day)), DateAscending)));
    }

    /** `updateTaskStatus`: sets the status of the task with this id, whoever owns it; an
        absent status leaves the task as it is. */
    method UpdateTaskStatus(id: TaskId, status: Option<Status>)
      returns (r: Result<TaskRecord, ApiError>)
      requires Valid()
      modifies this
      ensures Valid() && nextId == old(nextId)
      ensures r.Err? <==> Find(old(tasks), id).None?
      ensures r.Err? ==> r.error == NotFound && tasks == old(tasks)
      ensures r.Ok? ==>
        var k := Find(old(tasks), id).value;
        && r.value == old(tasks)[k].(status := status.GetOr(old(tasks)[k].status))
        && tasks == old(tasks)[k := r.value]
    {
      var found := Find(tasks, id);
      if found.None? {
        return Err(NotFound);
      }
      var k := found.value;
      var updated := tasks[k].(status := status.GetOr(tasks[k].status));
      tasks := tasks[k := updated];
      r := Ok(updated);
    }

    /** `rescheduleTask`: moves one task to a new day and makes it pending again. The
        date is cast before the lookup, so an unparseable one is an error whether or not
        the task exists. */
    method RescheduleTask(id: TaskId, newDate: Option<int>)
      returns (r: Result<TaskRecord, ApiError>)
      requires Valid()
      modifies this
      ensures Valid() && nextId == old(nextId)
      ensures newDate.None? ==> r == Err(StoreRejected) && tasks == old(tasks)
      ensures newDate.Some? && Find(old(tasks), id).None? ==> r == Err(NotFound) && tasks == old(tasks)
      ensures newDate.Some? && Find(old(tasks), id).Some? ==>
        var k := Find(old(tasks), id).value;
        && r == Ok(old(tasks)[k].(assignedDate := newDate.value, status := Pending))
        && tasks == old(tasks)[k := r.value]
    {
      if newDate.None? {
        return Err(StoreRejected);
      }
      var found := Find(tasks, id);
      if found.None? {
        return Err(NotFound);
      }
      var k := found.value;
      var updated := tasks[k].(assignedDate := newDate.value, status := Pending);
      tasks := tasks[k := updated];
      r := Ok(updated);
    }

    /** Deletes the caller's records matching `q`; ids keep increasing. */
    method DeleteMatching(q: Query)
      requires Valid()
      modifies this
      ensures Valid() && nextId == old(nextId)
      ensures tasks == Remove(old(tasks), q)
    {
      RemoveKeepsOrder(tasks, q);
      RemoveSpec(tasks, q);
      tasks := Remove(tasks, q);
    }

    /** `rescheduleAllOccurrences`: deletes the caller's records of the task's group dated
        today or later (the base included), then stores a new base on `newDate` with the
        task's labels and type and a fresh plan linked to the new base. Past records of the
        group stay. When the new base fails validation the deletion has already happened. */
    method RescheduleAllOccurrences(user: UserId, id: TaskId, newDate: Option<int>, repeatEveryDays: int,
                                    horizon: int -> int, now: int)
      returns (r: Result<nat, ApiError>)
      requires Valid()
      modifies this
      ensures Valid()
      ensures Find(old(tasks), id).None? ==> r == Err(NotFound) && tasks == old(tasks)
      ensures Find(old(tasks), id).Some? ==>
        var cur := old(tasks)[Find(old(tasks), id).value];
        var kept := Remove(old(tasks), GroupFrom(user, ParentOf(cur), DayOf(now)));
        var seed := Seed(user, cur.subject, cur.title, cur.text, cur.taskType);
        if newDate.None? || cur.subject == [] || cur.title == [] then
          r == Err(StoreRejected) && tasks == kept
        else
          var g := NewGroup(seed, PolicyOf(cur.taskType, repeatEveryDays), old(nextId), newDate.value,
            horizon(newDate.value), now);
          && tasks == kept + g
          && r == Ok(|g|)
          && WellFormedGroup(g[0], g[1..])
      ensures forall x :: x in old(tasks) && (x.assignedDate < DayOf(now) || x.user != user) ==> x in tasks
    {
      var found := Find(tasks, id);
      if found.None? {
        return Err(NotFound);
      }
      var cur := tasks[found.value];
      var today := DayOf(now);
      RemoveSpec(tasks, GroupFrom(user, ParentOf(cur), today));
      DeleteMatching(GroupFrom(user, ParentOf(cur), today));
      var input := TaskInput(user, cur.subject, cur.title, cur.text, newDate, Some(Pending), Some(cur.taskType),
        Some(0), None);
      if CreateRecord(nextId, input, now).None? {
        return Err(StoreRejected);
      }
      var seed := Seed(user, cur.subject, cur.title, cur.text, cur.taskType);
      var created := StoreGroup(seed, newDate.value, repeatEveryDays, horizon, now);
      r := Ok(created);
    }

    /** `updateTaskTypeAndRepetition`. Without `rescheduleAll` only the task's type
        changes. With it, the caller's children of the task's group dated after today are
        deleted, the task gets the new type, and a fresh plan from the task's own date is
        stored, linked to the group's base (not to a new one). A missing or invalid type
        fails validation on `save()`, and a task the deletion removed (a future child of the
        caller's) fails `save()` as deleted; in both cases the deletion stays. */
    method UpdateTaskTypeAndRepetition(user: UserId, id: TaskId, newType: Option<TaskType>,
                                       repeatEveryDays: int, rescheduleAll: bool,
                                       horizon: int -> int, now: int)
      returns (r: Result<RetypeReply, ApiError>)
      requires Valid()
      modifies this
      ensures Valid()
      ensures Find(old(tasks), id).None? ==> r == Err(NotFound) && tasks == old(tasks)
      ensures Find(old(tasks), id).Some? && !rescheduleAll ==>
        var k := Find(old(tasks), id).value;
        if newType.None? then r == Err(StoreRejected) && tasks == old(tasks)
        else r == Ok(Retyped(old(tasks)[k].(taskType := newType.value))) && tasks == old(tasks)[k := r.value.task]
      ensures Find(old(tasks), id).Some? && rescheduleAll ==>
        var cur := old(tasks)[Find(old(tasks), id).value];
        var parent := ParentOf(cur);
        var kept := Remove(old(tasks), ChildrenAfter(user, parent, DayOf(now)));
        if newType.None? then r == Err(StoreRejected) && tasks == kept
        else if Find(kept, id).None? then r == Err(DocumentMissing) && tasks == kept
        else
          var seed := Seed(user, cur.subject, cur.title, cur.text, newType.value);
          var children := Materialize(seed,
            Plan(PolicyOf(newType.value, repeatEveryDays), cur.assignedDate, horizon(cur.assignedDate)),
            parent, old(nextId), now);
          && tasks == kept[Find(kept, id).value := cur.(taskType := newType.value)] + children
          && r == Ok(Regenerated(|children|))
          && (forall k :: 0 <= k < |children| ==>
                children[k].parentTask == Some(parent) && children[k].revisionStep == k + 1 &&
                cur.assignedDate < children[k].assignedDate)
    {
      var found := Find(tasks, id);
      if found.None? {
        return Err(NotFound);
      }
      var cur := tasks[found.value];
      if !rescheduleAll {
        if newType.None? {
          return Err(StoreRejected);
        }
        var updated := cur.(taskType := newType.value);
        tasks := tasks[found.value := updated];
        return Ok(Retyped(updated));
      }
      r := RetypeAndRegenerate(user, id, cur, newType, repeatEveryDays, horizon, now);
    }

    /** The `rescheduleAll` branch of updateTaskTypeAndRepetition, for the task `cur`
        stored under `id`. */
    method RetypeAndRegenerate(user: UserId, id: TaskId, cur: TaskRecord, newType: Option<TaskType>,
                               repeatEveryDays: int, horizon: int -> int, now: int)
      returns (r: Result<RetypeReply, ApiError>)
      requires Valid()
      requires Find(tasks, id).Some? && tasks[Find(tasks, id).value] == cur
      modifies this
      ensures Valid()
      ensures
        var parent := ParentOf(cur);
        var kept := Remove(old(tasks), ChildrenAfter(user, parent, DayOf(now)));
        if newType.None? then r == Err(StoreRejected) && tasks == kept
        else if Find(kept, id).None? then r == Err(DocumentMissing) && tasks == kept
        else
          var seed := Seed(user, cur.subject, cur.title, cur.text, newType.value);
          var children := Materialize(seed,
            Plan(PolicyOf(newType.value, repeatEveryDays), cur.assignedDate, horizon(cur.assignedDate)),
            parent, old(nextId), now);
          && tasks == kept[Find(kept, id).value := cur.(taskType := newType.value)] + children
          && r == Ok(Regenerated(|children|))
          && (forall k :: 0 <= k < |children| ==>
                children[k].parentTask == Some(parent) && children[k].revisionStep == k + 1 &&
                cur.assignedDate < children[k].assignedDate)
    {
      var parent := ParentOf(cur);
      ghost var before := tasks;
      DeleteMatching(ChildrenAfter(user, parent, DayOf(now)));
      if newType.None? {
        return Err(StoreRejected);
      }
      var again := Find(tasks, id);
      if again.None? {
        return Err(DocumentMissing);
      }
      FindAfterRemove(before, ChildrenAfter(user, parent, DayOf(now)), id);
      var updated := cur.(taskType := newType.value);
      UpdateKeepsIds(tasks, again.value, updated, nextId);
      tasks := tasks[again.value := updated];
      var seed := Seed(user, cur.subject, cur.title, cur.text, newType.value);
      var created := StoreChildren(seed, cur.assignedDate, repeatEveryDays, parent, horizon, now);
      r := Ok(Regenerated(created));
    }

    /** `deleteBufferTask`: looks the task up (whoever owns it), then the chosen day,
        and deletes the task when it is at least the threshold's number of days old.
        Replies with the day used. */
    method DeleteBufferTask(id: TaskId, threshold: ThresholdParam, date: DateParam, now: int)
      returns (r: Result<int, ApiError>)
      requires Valid()
      modifies this
      ensures Valid() && nextId == old(nextId)
      ensures Find(old(tasks), id).None? ==> r == Err(NotFound) && tasks == old(tasks)
      ensures Find(old(tasks), id).Some? && date.Unparseable? ==> r == Err(InvalidDate) && tasks == old(tasks)
      ensures Find(old(tasks), id).Some? && !date.Unparseable? ==>
        var today := Today(date, now).value;
        var daysOld := today - old(tasks)[Find(old(tasks), id).value].assignedDate;
        if DeletionAllowed(daysOld, threshold) then r == Ok(today) && tasks == Remove(old(tasks), WithId(id))
        else r == Err(TooRecent) && tasks == old(tasks)
    {
      var found := Find(tasks, id);
      if found.None? {
        return Err(NotFound);
      }
      var today := Today(date, now);
      if today.None? {
        return Err(InvalidDate);
      }
      var daysOld := today.value - tasks[found.value].assignedDate;
      if !DeletionAllowed(daysOld, threshold) {
        return Err(TooRecent);
      }
      DeleteMatching(WithId(id));
      r := Ok(today.value);
    }

    /** `getAvailableDates`: scans the 59 days after today and reports the first three
        days without tasks and the first five with one or two, stopping once both lists
        are full. */
    method GetAvailableDates(user: UserId, now: int) returns (free: seq<DayLoad>, light: seq<DayLoad>)
      ensures free == Capped(FreeDays(tasks, user, DayOf(now), ScanDays), FreeCap)
      ensures light == Capped(LightDays(tasks, user, DayOf(now), ScanDays), LightCap)
    {
      var today := DayOf(now);
      free := [];
      light := [];
      var i := 1;
      while i < 60
        invariant 1 <= i <= 60
        invariant free == Capped(FreeDays(tasks, user, today, i - 1), FreeCap)
        invariant light == Capped(LightDays(tasks, user, today, i - 1), LightCap)
      {
        var day := today + i;
        var count := CountOn(tasks, user, day);
        CappedAppend(FreeDays(tasks, user, today, i - 1), if IsFree(count) then [DayLoad(day, count)] else [], FreeCap);
        CappedAppend(LightDays(tasks, user, today, i - 1), if IsLight(count) then [DayLoad(day, count)] else [], LightCap);
        if count == 0 && |free| < 3 {
          free := free + [DayLoad(day, count)];
        }
        if count > 0 && count < 3 && |light| < 5 {
          light := light + [DayLoad(day, count)];
        }
        if |free| >= 3 && |light| >= 5 {
          CappedStable(tasks, user, today, i, ScanDays);
          break;
        }
        i := i + 1;
      }
    }

    /** `getTaskPerformance`: tallies the caller's tasks dated in the window (the first
        day of last month through the last day of this month) by month and status.
        `monthOf` gives a day's month and `currentMonth` the month of now. */
    method GetTaskPerformance(user: UserId, windowStart: int, windowEnd: int,
                              currentMonth: int, monthOf: int -> int)
      returns (stats: Performance)
      ensures stats == TallyOf(Select(tasks, DateRange(user, windowStart, windowEnd)), currentMonth, monthOf)
    {
      var found := Select(tasks, DateRange(user, windowStart, windowEnd));
      stats := Performance(Zero, Zero);
      for i := 0 to |found|
        invariant stats == TallyOf(found[..i], currentMonth, monthOf)
      {
        assert found[..i + 1][..i] == found[..i];
        var t := found[i];
        if monthOf(t.assignedDate) == currentMonth {
          stats := stats.(thisMonth := Count(stats.thisMonth, t.status));
        } else {
          stats := stats.(lastMonth := Count(stats.lastMonth, t.status));
        }
      }
      assert found[..|found|] == found;
    }
  }
}
