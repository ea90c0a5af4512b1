/** The occurrence materializer of Backend/controllers/task.controller.js: which
    repetition policy each task type gets, the dates it yields, and the records
    (`futureTasks`) built from them and linked to a parent. */
module Occurrences {
  import opened Wrappers
  import opened TaskModel
  import opened Schedule
  import opened RevisionDates

  /** The offsets of the `task` type, in days from the base date: `[3, 6, 15]`. */
  const TaskOffsets: seq<int> := [3, 6, 15]

  /** Intervals of the repeating types, in days. */
  const PyqInterval: int := 21
  const FullRevisionInterval: int := 20
  const TestInterval: int := 30

  datatype Policy =
    | FixedSteps            // three occurrences at the fixed offsets
    | EveryDays(days: int)  // generateRepeatedDates with this interval
    | NoRepeat              // the base only

  /** The type switch: pyq every 21 days, fullrevision every 20, test every 30,
      general every `repeatEveryDays` days only when that is positive. */
  function PolicyOf(t: TaskType, repeatEveryDays: int): (p: Policy)
    ensures p.EveryDays? ==> p.days > 0
    ensures p == NoRepeat <==> t == General && repeatEveryDays <= 0
    ensures p == FixedSteps <==> t == Task
  {
    match t
    case Task => FixedSteps
    case Pyq => EveryDays(PyqInterval)
    case FullRevision => EveryDays(FullRevisionInterval)
    case Test => EveryDays(TestInterval)
    case General => if repeatEveryDays > 0 then EveryDays(repeatEveryDays) else NoRepeat
  }

  /** The dates and steps a policy yields from `start`; `limit` is fifteen months after `start`. */
  function Plan(p: Policy, start: int, limit: int): seq<Occurrence>
    requires p.EveryDays? ==> p.days > 0
  {
    match p
    case FixedSteps => seq(3, (k: nat) requires k < 3 => Occurrence(start + TaskOffsets[k], k + 1))
    case EveryDays(days) => RepeatedDates(start, days, limit)
    case NoRepeat => []
  }

  /** The type-based scheduling branch of the handlers: the fixed offsets for `task`,
      the generator for the repeating types, nothing for a general task without a
      positive interval. */
  method PlanOccurrences(t: TaskType, repeatEveryDays: int, start: int, limit: int)
    returns (occ: seq<Occurrence>)
    ensures occ == Plan(PolicyOf(t, repeatEveryDays), start, limit)
  {
    occ := [];
    if t == Task {
      occ := seq(3, (k: nat) requires k < 3 => Occurrence(start + TaskOffsets[k], k + 1));
    } else if t == Pyq {
      occ := GenerateRepeatedDates(start, PyqInterval, limit);
    } else if t == FullRevision {
      occ := GenerateRepeatedDates(start, FullRevisionInterval, limit);
    } else if t == Test {
      occ := GenerateRepeatedDates(start, TestInterval, limit);
    } else if t == General && repeatEveryDays > 0 {
      occ := GenerateRepeatedDates(start, repeatEveryDays, limit);
    }
  }

  /** The fixed steps agree with getRevisionDate: step k falls on RevisionDate(start, k),
      each offset measured from the original start. */
  lemma FixedStepsMatchRevisionDate(start: int, limit: int)
    ensures |Plan(FixedSteps, start, limit)| == 3
    ensures forall k :: 1 <= k <= 3 ==>
      Plan(FixedSteps, start, limit)[k - 1] == Occurrence(RevisionDate(start, k), k)
  {
  }

  /** The fields copied from the originating task onto every record of a group. */
  datatype Seed = Seed(user: UserId, subject: string, title: string, text: string, taskType: TaskType)

  /** The base record of a group: revision step 0, no parent, status pending. */
  function BaseRecord(id: TaskId, seed: Seed, date: int, createdAt: int): TaskRecord {
    TaskRecord(id, seed.user, seed.subject, seed.title, seed.text, date,
      Pending, seed.taskType, 0, None, createdAt)
  }

  /** `futureTasks`: one pending record per occurrence, linked to `parent`, with
      consecutive fresh ids starting at `firstId`. */
  function Materialize(seed: Seed, occ: seq<Occurrence>, parent: TaskId, firstId: TaskId, createdAt: int)
    : seq<TaskRecord>
  {
    seq(|occ|, (k: nat) requires k < |occ| =>
      TaskRecord(firstId + k, seed.user, seed.subject, seed.title, seed.text, occ[k].date,
        Pending, seed.taskType, occ[k].step, Some(parent), createdAt))
  }

  /** Every generated record carries the seed's owner, labels and type, points to the
      parent, takes its date and step from the occurrence and starts pending. */
  lemma MaterializeLinks(seed: Seed, occ: seq<Occurrence>, parent: TaskId, firstId: TaskId, createdAt: int)
    ensures |Materialize(seed, occ, parent, firstId, createdAt)| == |occ|
    ensures forall k :: 0 <= k < |occ| ==>
      var r := Materialize(seed, occ, parent, firstId, createdAt)[k];
      r.parentTask == Some(parent) && r.revisionStep == occ[k].step && r.assignedDate == occ[k].date &&
      r.status == Pending && r.id == firstId + k && r.user == seed.user && r.taskType == seed.taskType
  {
  }

  /** The group invariant of a freshly generated group: the base has step 0 and no
      parent; child k points to the base, has step k + 1, and the children's dates
      strictly increase, all after the base's date. */
  ghost predicate WellFormedGroup(base: TaskRecord, children: seq<TaskRecord>) {
    && base.parentTask.None? && base.revisionStep == 0
    && (forall k :: 0 <= k < |children| ==>
          children[k].parentTask == Some(base.id) && children[k].revisionStep == k + 1 &&
          base.assignedDate < children[k].assignedDate)
    && (forall i, j :: 0 <= i < j < |children| ==> children[i].assignedDate < children[j].assignedDate)
  }

  /** Creating a group (base plus materialized plan) yields a well-formed group, for
      every type and interval. */
  lemma CreatedGroupWellFormed(seed: Seed, p: Policy, baseId: TaskId, start: int, limit: int, createdAt: int)
    requires p.EveryDays? ==> p.days > 0
    ensures WellFormedGroup(BaseRecord(baseId, seed, start, createdAt),
      Materialize(seed, Plan(p, start, limit), baseId, baseId + 1, createdAt))
  {
    var occ := Plan(p, start, limit);
    MaterializeLinks(seed, occ, baseId, baseId + 1, createdAt);
    match p
    case EveryDays(days) =>
      RepeatedDatesIncreasing(start, days, limit);
      forall k | 0 <= k < |occ| ensures occ[k].step == k + 1 {
        RepeatedDatesEntry(start, days, limit, k);
      }
    case FixedSteps =>
    case NoRepeat =>
  }

  /** A new group: the base record `baseId` on `start`, then the plan's children
      numbered from `baseId + 1`; ids are consecutive and the group is well formed. */
  function NewGroup(seed: Seed, p: Policy, baseId: TaskId, start: int, limit: int, createdAt: int)
    : (g: seq<TaskRecord>)
    requires p.EveryDays? ==> p.days > 0
    ensures |g| == 1 + |Plan(p, start, limit)|
    ensures g[0] == BaseRecord(baseId, seed, start, createdAt)
    ensures forall k :: 0 <= k < |g| ==> g[k].id == baseId + k
    ensures WellFormedGroup(g[0], g[1..])
  {
    var base := BaseRecord(baseId, seed, start, createdAt);
    var children := Materialize(seed, Plan(p, start, limit), baseId, baseId + 1, createdAt);
    CreatedGroupWellFormed(seed, p, baseId, start, limit, createdAt);
    MaterializeLinks(seed, Plan(p, start, limit), baseId, baseId + 1, createdAt);
    assert ([base] + children)[1..] == children;
    [base] + children
  }
}
