/** Specifications of the two read-side reports of Backend/controllers/task.controller.js:
    the free/light-day scan of `getAvailableDates` and the two-month tally of
    `getTaskPerformance`. The handlers that compute them are methods of
    TaskController.TaskStore. */
module TaskReports {
  import opened TaskModel
  import opened TaskQueries

  /** Days after today that the scan visits: today + 1 .. today + ScanDays. */
  const ScanDays: nat := 59
  const FreeCap: nat := 3
  const LightCap: nat := 5

  /** A suggested day with the number of the caller's tasks on it. */
  datatype DayLoad = DayLoad(day: int, count: nat)

  /** `countDocuments`: the number of records matching a filter. */
  function CountMatching(ts: seq<TaskRecord>, q: Query): nat {
    if ts == [] then 0
    else CountMatching(ts[..|ts| - 1], q) + (if Matches(q, ts[|ts| - 1]) then 1 else 0)
  }

  /** Counting the matches agrees with selecting them. */
  lemma {:induction false} CountMatchingIsSelectSize(ts: seq<TaskRecord>, q: Query)
    ensures CountMatching(ts, q) == |Select(ts, q)|
  {
    if ts != [] {
      var init := ts[..|ts| - 1];
      CountMatchingIsSelectSize(init, q);
      SelectAppend(init, [ts[|ts| - 1]], q);
      assert ts == init + [ts[|ts| - 1]];
    }
  }

  /** The tasks of one user on one day. */
  function CountOn(ts: seq<TaskRecord>, user: UserId, day: int): nat {
    CountMatching(ts, DateRange(user, day, day))
  }

  predicate IsFree(count: nat) { count == 0 }
  predicate IsLight(count: nat) { 0 < count < 3 }

  /** The free days among today + 1 .. today + n, in date order. */
  function FreeDays(ts: seq<TaskRecord>, user: UserId, today: int, n: nat): seq<DayLoad> {
    if n == 0 then []
    else
      FreeDays(ts, user, today, n - 1) +
      (if IsFree(CountOn(ts, user, today + n)) then [DayLoad(today + n, CountOn(ts, user, today + n))] else [])
  }

  /** The lightly loaded days among today + 1 .. today + n, in date order. */
  function LightDays(ts: seq<TaskRecord>, user: UserId, today: int, n: nat): seq<DayLoad> {
    if n == 0 then []
    else
      LightDays(ts, user, today, n - 1) +
      (if IsLight(CountOn(ts, user, today + n)) then [DayLoad(today + n, CountOn(ts, user, today + n))] else [])
  }

  /** The first `cap` entries of a list. */
  function Capped(s: seq<DayLoad>, cap: nat): seq<DayLoad> {
    if |s| <= cap then s else s[..cap]
  }

  /** Pushing onto a capped list only while it is short: the capped list of a longer
      scan is the shorter scan's capped list, extended while there is room. */
  lemma CappedAppend(s: seq<DayLoad>, extra: seq<DayLoad>, cap: nat)
    requires |extra| <= 1
    ensures Capped(s + extra, cap) ==
      if |Capped(s, cap)| < cap then Capped(s, cap) + extra else Capped(s, cap)
  {
    if |s| >= cap {
      assert (s + extra)[..cap] == s[..cap];
    }
  }

  /** Scanning further never changes what was found so far. */
  lemma {:induction false} DaysPrefix(ts: seq<TaskRecord>, user: UserId, today: int, m: nat, n: nat)
    requires m <= n
    ensures FreeDays(ts, user, today, m) <= FreeDays(ts, user, today, n)
    ensures LightDays(ts, user, today, m) <= LightDays(ts, user, today, n)
    decreases n
  {
    if m < n {
      DaysPrefix(ts, user, today, m, n - 1);
    }
  }

  /** Once a capped list is full, scanning further leaves it as it is: this is why the
      scan may stop early once both lists are full. */
  lemma CappedStable(ts: seq<TaskRecord>, user: UserId, today: int, m: nat, n: nat)
    requires m <= n
    ensures |Capped(FreeDays(ts, user, today, m), FreeCap)| == FreeCap ==>
      Capped(FreeDays(ts, user, today, n), FreeCap) == Capped(FreeDays(ts, user, today, m), FreeCap)
    ensures |Capped(LightDays(ts, user, today, m), LightCap)| == LightCap ==>
      Capped(LightDays(ts, user, today, n), LightCap) == Capped(LightDays(ts, user, today, m), LightCap)
  {
    DaysPrefix(ts, user, today, m, n);
  }

  /** Every listed free day lies in the window, has no task, and the days strictly
      increase; a day of the window that is free and missing from the list comes after
      a full list. The same holds for light days (one or two tasks). */
  lemma {:induction false} FreeDaysSound(ts: seq<TaskRecord>, user: UserId, today: int, n: nat)
    ensures forall k :: 0 <= k < |FreeDays(ts, user, today, n)| ==>
      var d := FreeDays(ts, user, today, n)[k];
      today < d.day <= today + n && d.count == 0 && CountOn(ts, user, d.day) == 0
    ensures forall i, j :: 0 <= i < j < |FreeDays(ts, user, today, n)| ==>
      FreeDays(ts, user, today, n)[i].day < FreeDays(ts, user, today, n)[j].day
    ensures forall d :: today < d <= today + n && CountOn(ts, user, d) == 0 ==>
      DayLoad(d, 0) in FreeDays(ts, user, today, n)
  {
    if n > 0 {
      FreeDaysSound(ts, user, today, n - 1);
    }
  }

  lemma {:induction false} LightDaysSound(ts: seq<TaskRecord>, user: UserId, today: int, n: nat)
    ensures forall k :: 0 <= k < |LightDays(ts, user, today, n)| ==>
      var d := LightDays(ts, user, today, n)[k];
      today < d.day <= today + n && d.count == CountOn(ts, user, d.day) && 0 < d.count < 3
    ensures forall i, j :: 0 <= i < j < |LightDays(ts, user, today, n)| ==>
      LightDays(ts, user, today, n)[i].day < LightDays(ts, user, today, n)[j].day
    ensures forall d :: today < d <= today + n && 0 < CountOn(ts, user, d) < 3 ==>
      DayLoad(d, CountOn(ts, user, d)) in LightDays(ts, user, today, n)
  {
    if n > 0 {
      LightDaysSound(ts, user, today, n - 1);
    }
  }

  /** Per-bucket counters of the performance report. */
  datatype Tally = Tally(total: nat, completed: nat, pending: nat, missed: nat)
  datatype Performance = Performance(thisMonth: Tally, lastMonth: Tally)

  const Zero: Tally := Tally(0, 0, 0, 0)

  function Count(b: Tally, s: Status): Tally {
    Tally(b.total + 1,
      b.completed + (if s == Completed then 1 else 0),
      b.pending + (if s == Pending then 1 else 0),
      b.missed + (if s == Missed then 1 else 0))
  }

  /** The tally of `ts` (in order), bucketing a task into thisMonth exactly when the
      month of its date is `currentMonth`. */
  function TallyOf(ts: seq<TaskRecord>, currentMonth: int, monthOf: int -> int): Performance {
    if ts == [] then Performance(Zero, Zero)
    else
      var p := TallyOf(ts[..|ts| - 1], currentMonth, monthOf);
      var t := ts[|ts| - 1];
      if monthOf(t.assignedDate) == currentMonth then p.(thisMonth := Count(p.thisMonth, t.status))
      else p.(lastMonth := Count(p.lastMonth, t.status))
  }

  /** The number of tasks of `ts` dated in `month`. */
  function InMonth(ts: seq<TaskRecord>, month: int, monthOf: int -> int): nat {
    if ts == [] then 0
    else InMonth(ts[..|ts| - 1], month, monthOf) + (if monthOf(ts[|ts| - 1].assignedDate) == month then 1 else 0)
  }

  /** Every task lands in exactly one bucket, thisMonth holds exactly the tasks of the
      current month, and in each bucket the total is completed + pending + missed. */
  lemma {:induction false} TallyPartition(ts: seq<TaskRecord>, currentMonth: int, monthOf: int -> int)
    ensures TallyOf(ts, currentMonth, monthOf).thisMonth.total + TallyOf(ts, currentMonth, monthOf).lastMonth.total == |ts|
    ensures TallyOf(ts, currentMonth, monthOf).thisMonth.total == InMonth(ts, currentMonth, monthOf)
    ensures var b := TallyOf(ts, currentMonth, monthOf).thisMonth; b.total == b.completed + b.pending + b.missed
    ensures var b := TallyOf(ts, currentMonth, monthOf).lastMonth; b.total == b.completed + b.pending + b.missed
  {
    if ts != [] {
      TallyPartition(ts[..|ts| - 1], currentMonth, monthOf);
    }
  }
}
