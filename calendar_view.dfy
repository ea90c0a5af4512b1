/** The month calendar of Frontend/TaskCalender/src/components/BottomCenter.jsx: the
    per-day bucketing of fetched tasks, the month grid, month navigation, and the
    decisions behind each day card (today, past, border colour, indicator circles). */
module CalendarView {
  import opened Wrappers
  import opened DateKeys

  /** A 0-based month, as `getMonth()` returns it. */
  type Month0 = m: nat | m < 12

  /** A local calendar date as `getFullYear()`, `getMonth()` and `getDate()` give it. */
  datatype CivilDate = CivilDate(year: int, month: Month0, day: nat)

  /** The month the calendar shows (`currentDate`, whose day is irrelevant). */
  datatype YearMonth = YearMonth(year: int, month: Month0)

  /** A fetched task as the calendar reads it: its `type` and `status` strings and the
      local date of its `assignedDate`. */
  datatype CalendarTask = CalendarTask(kind: string, status: string, date: CivilDate)

  /** The buckets of one day. */
  datatype Buckets = Buckets(
    tasks: seq<CalendarTask>,
    pyqs: seq<CalendarTask>,
    tests: seq<CalendarTask>,
    revisions: seq<CalendarTask>,
    fullrevisions: seq<CalendarTask>,
    generals: seq<CalendarTask>)

  const EmptyBuckets := Buckets([], [], [], [], [], [])

  function KeyOf(d: CivilDate): string {
    DateKey(d.year, d.month, d.day)
  }

  /** The tasks of `ts` on the day `key` whose type is `kind`, in input order. */
  function OfKind(ts: seq<CalendarTask>, key: string, kind: string): seq<CalendarTask> {
    if ts == [] then []
    else
      OfKind(ts[..|ts| - 1], key, kind) +
      (if KeyOf(ts[|ts| - 1].date) == key && ts[|ts| - 1].kind == kind then [ts[|ts| - 1]] else [])
  }

  function BucketsAt(ts: seq<CalendarTask>, key: string): Buckets {
    Buckets(OfKind(ts, key, "task"), OfKind(ts, key, "pyq"), OfKind(ts, key, "test"),
      OfKind(ts, key, "revision"), OfKind(ts, key, "fullrevision"), OfKind(ts, key, "general"))
  }

  /** The days that have at least one task. */
  function DaysOf(ts: seq<CalendarTask>): set<string> {
    set t | t in ts :: KeyOf(t.date)
  }

  /** What `formatTasksData` should produce: an entry for exactly the days that have a
      task, each holding that day's tasks of each bucketed type in input order. */
  predicate IsFormatting(data: map<string, Buckets>, ts: seq<CalendarTask>) {
    && data.Keys == DaysOf(ts)
    && forall k :: k in data ==> data[k] == BucketsAt(ts, k)
  }

  /** `[t]` when `t` belongs to the bucket `kind` of day `k`. */
  function Hit(t: CalendarTask, k: string, kind: string): seq<CalendarTask> {
    if KeyOf(t.date) == k && t.kind == kind then [t] else []
  }

  /** Appending a task extends only the bucket of its own day and type. */
  lemma BucketsSnoc(ts: seq<CalendarTask>, t: CalendarTask, k: string)
    ensures var b := BucketsAt(ts, k); var c := BucketsAt(ts + [t], k);
      && c.tasks == b.tasks + Hit(t, k, "task")
      && c.pyqs == b.pyqs + Hit(t, k, "pyq")
      && c.tests == b.tests + Hit(t, k, "test")
      && c.revisions == b.revisions + Hit(t, k, "revision")
      && c.fullrevisions == b.fullrevisions + Hit(t, k, "fullrevision")
      && c.generals == b.generals + Hit(t, k, "general")
  {
    assert (ts + [t])[..|ts|] == ts;
  }

  /** The other days keep their buckets. */
  lemma BucketsSnocOther(ts: seq<CalendarTask>, t: CalendarTask, k: string)
    requires k != KeyOf(t.date)
    ensures BucketsAt(ts + [t], k) == BucketsAt(ts, k)
  {
    BucketsSnoc(ts, t, k);
  }

  lemma DaysSnoc(ts: seq<CalendarTask>, t: CalendarTask)
    ensures DaysOf(ts + [t]) == DaysOf(ts) + {KeyOf(t.date)}
  {
    assert forall u :: u in ts + [t] <==> u in ts || u == t;
  }

  /** A day without tasks has empty buckets. */
  lemma {:induction false} NoneOnDay(ts: seq<CalendarTask>, key: string, kind: string)
    requires key !in DaysOf(ts)
    ensures OfKind(ts, key, kind) == []
  {
    if ts != [] {
      assert forall t :: t in ts[..|ts| - 1] ==> t in ts;
      NoneOnDay(ts[..|ts| - 1], key, kind);
      assert ts[|ts| - 1] in ts;
    }
  }

  lemma EmptyDay(ts: seq<CalendarTask>, key: string)
    requires key !in DaysOf(ts)
    ensures BucketsAt(ts, key) == EmptyBuckets
  {
    NoneOnDay(ts, key, "task");
    NoneOnDay(ts, key, "pyq");
    NoneOnDay(ts, key, "test");
    NoneOnDay(ts, key, "revision");
    NoneOnDay(ts, key, "fullrevision");
    NoneOnDay(ts, key, "general");
  }

  /** The entry of a day in a formatting, or empty buckets for a day it lacks, holds
      that day's tasks. */
  lemma EntryOrEmpty(data: map<string, Buckets>, ts: seq<CalendarTask>, key: string)
    requires IsFormatting(data, ts)
    ensures (if key in data then data[key] else EmptyBuckets) == BucketsAt(ts, key)
  {
    if key !in data {
      EmptyDay(ts, key);
    }
  }

  /** Storing the extended buckets of the new task's day keeps the map a formatting. */
  lemma FormattingSnoc(data: map<string, Buckets>, ts: seq<CalendarTask>, t: CalendarTask, b: Buckets)
    requires IsFormatting(data, ts)
    requires b == BucketsAt(ts + [t], KeyOf(t.date))
    ensures IsFormatting(data[KeyOf(t.date) := b], ts + [t])
  {
    var key := KeyOf(t.date);
    var d := data[key := b];
    forall k | k in d ensures d[k] == BucketsAt(ts + [t], k) {
      if k != key {
        BucketsSnocOther(ts, t, k);
      }
    }
    DaysSnoc(ts, t);
  }

  /** `formatTasksData`: one pass over the fetched tasks, creating a day's entry on
      its first task and pushing each task into the bucket of its type. */
  method FormatTasksData(ts: seq<CalendarTask>) returns (formatted: map<string, Buckets>)
    ensures IsFormatting(formatted, ts)
  {
    formatted := map[];
    for i := 0 to |ts|
      invariant IsFormatting(formatted, ts[..i])
    {
      formatted := AddToDay(formatted, ts[..i], ts[i]);
      assert ts[..i + 1] == ts[..i] + [ts[i]];
    }
    assert ts[..|ts|] == ts;
  }

  /** The loop body of `formatTasksData`: creates the task's day when it is new and
      pushes the task into the bucket of its type. */
  method AddToDay(formatted: map<string, Buckets>, ghost done: seq<CalendarTask>, t: CalendarTask)
    returns (next: map<string, Buckets>)
    requires IsFormatting(formatted, done)
    ensures IsFormatting(next, done + [t])
  {
    var key := KeyOf(t.date);
    // Creating the day's entry and pushing into it store one value under `key`.
    var current := if key in formatted then formatted[key] else EmptyBuckets;
    var b := PushByType(current, t);
    PushStep(formatted, done, t, b);
    next := formatted[key := b];
  }

  /** One step of the pass: the day's current buckets (empty when the day is new),
      extended by the task, stored back, keep the map a formatting. */
  lemma PushStep(data: map<string, Buckets>, ts: seq<CalendarTask>, t: CalendarTask, b: Buckets)
    requires IsFormatting(data, ts)
    requires var k := KeyOf(t.date);
      var cur := if k in data then data[k] else EmptyBuckets;
      && b.tasks == cur.tasks + Hit(t, k, "task")
      && b.pyqs == cur.pyqs + Hit(t, k, "pyq")
      && b.tests == cur.tests + Hit(t, k, "test")
      && b.revisions == cur.revisions + Hit(t, k, "revision")
      && b.fullrevisions == cur.fullrevisions + Hit(t, k, "fullrevision")
      && b.generals == cur.generals + Hit(t, k, "general")
    ensures IsFormatting(data[KeyOf(t.date) := b], ts + [t])
  {
    var key := KeyOf(t.date);
    EntryOrEmpty(data, ts, key);
    BucketsSnoc(ts, t, key);
    FormattingSnoc(data, ts, t, b);
  }

  /** The push of one task into the bucket named by its type; a task of any other type
      leaves the buckets as they are. */
  method PushByType(b: Buckets, t: CalendarTask) returns (r: Buckets)
    ensures var k := KeyOf(t.date);
      && r.tasks == b.tasks + Hit(t, k, "task")
      && r.pyqs == b.pyqs + Hit(t, k, "pyq")
      && r.tests == b.tests + Hit(t, k, "test")
      && r.revisions == b.revisions + Hit(t, k, "revision")
      && r.fullrevisions == b.fullrevisions + Hit(t, k, "fullrevision")
      && r.generals == b.generals + Hit(t, k, "general")
  {
    r := b;
    if t.kind == "task" {
      r := r.(tasks := r.tasks + [t]);
    } else if t.kind == "pyq" {
      r := r.(pyqs := r.pyqs + [t]);
    } else if t.kind == "test" {
      r := r.(tests := r.tests + [t]);
    } else if t.kind == "revision" {
      r := r.(revisions := r.revisions + [t]);
    } else if t.kind == "fullrevision" {
      r := r.(fullrevisions := r.fullrevisions + [t]);
    } else if t.kind == "general" {
      r := r.(generals := r.generals + [t]);
    }
  }

  function BucketSize(b: Buckets): nat {
    |b.tasks| + |b.pyqs| + |b.tests| + |b.revisions| + |b.fullrevisions| + |b.generals|
  }

  /** The type strings that have a bucket. */
  predicate HasBucket(kind: string) {
    kind == "task" || kind == "pyq" || kind == "test" || kind == "revision" || kind == "fullrevision" || kind == "general"
  }

  /** The number of tasks on day `key`; with `bucketedOnly`, of those whose type has a bucket. */
  function CountOnDay(ts: seq<CalendarTask>, key: string, bucketedOnly: bool): nat {
    if ts == [] then 0
    else
      var t := ts[|ts| - 1];
      CountOnDay(ts[..|ts| - 1], key, bucketedOnly) +
      (if KeyOf(t.date) == key && (HasBucket(t.kind) || !bucketedOnly) then 1 else 0)
  }

  /** Every task of a day lands in exactly one bucket when its type has one, and in none
      otherwise (such a task only creates its day's entry). */
  lemma {:induction false} BucketsPartitionDay(ts: seq<CalendarTask>, key: string)
    ensures BucketSize(BucketsAt(ts, key)) == CountOnDay(ts, key, true)
    ensures CountOnDay(ts, key, true) <= CountOnDay(ts, key, false)
  {
    if ts != [] {
      var init := ts[..|ts| - 1];
      var t := ts[|ts| - 1];
      BucketsPartitionDay(init, key);
      assert ts == init + [t];
      BucketsSnoc(init, t, key);
    }
  }

  /** Gregorian leap years. */
  predicate IsLeapYear(y: int) {
    (y % 4 == 0 && y % 100 != 0) || y % 400 == 0
  }

  /** `new Date(year, month + 1, 0).getDate()`: the length of the month. */
  function DaysInMonth(y: int, m: Month0): (n: nat)
    ensures 28 <= n <= 31
    ensures n == 29 <==> m == 1 && IsLeapYear(y)
  {
    if m == 1 then (if IsLeapYear(y) then 29 else 28)
    else if m == 3 || m == 5 || m == 8 || m == 10 then 30
    else 31
  }

  /** Days from the start of the year to the first of month `m`. */
  function DaysBeforeMonth(y: int, m: Month0): nat {
    [0, 31, 59, 90, 120, 151, 181, 212, 243, 273, 304, 334][m] + (if m >= 2 && IsLeapYear(y) then 1 else 0)
  }

  /** Leap years among 1 .. y (counted negatively below year 1). */
  function LeapsThrough(y: int): int {
    y / 4 - y / 100 + y / 400
  }

  /** Days from 1970-01-01 to the first of January of year `y`. */
  function DaysBeforeYear(y: int): int {
    365 * (y - 1970) + LeapsThrough(y - 1) - LeapsThrough(1969)
  }

  /** Days from 1970-01-01 to the given date. */
  function DayNumber(y: int, m: Month0, d: int): int {
    DaysBeforeYear(y) + DaysBeforeMonth(y, m) + d - 1
  }

  /** `getDay()`: 0 for Sunday; 1970-01-01 was a Thursday. */
  function Weekday(y: int, m: Month0, d: int): (w: nat)
    ensures w < 7
  {
    (DayNumber(y, m, d) + 4) % 7
  }

  /** Anchors of the weekday count: 1970-01-01 was a Thursday, 2000-03-01 a Wednesday
      (just after a leap day of a century leap year) and 2024-01-01 a Monday. */
  lemma WeekdayAnchors()
    ensures DayNumber(1970, 0, 1) == 0 && Weekday(1970, 0, 1) == 4
    ensures Weekday(2000, 2, 1) == 3
    ensures Weekday(2024, 0, 1) == 1
  {
    assert LeapsThrough(1969) == 477 && LeapsThrough(1999) == 484 && LeapsThrough(2023) == 490;
    assert DayNumber(2000, 2, 1) == 11017;
    assert DayNumber(2024, 0, 1) == 19723;
  }

  /** A year has 366 days when it is a leap year and 365 otherwise. */
  lemma YearLength(y: int)
    ensures DaysBeforeYear(y + 1) - DaysBeforeYear(y) == if IsLeapYear(y) then 366 else 365
  {
    assert DaysBeforeYear(y + 1) - DaysBeforeYear(y) == 365 + LeapsThrough(y) - LeapsThrough(y - 1);
    FloorStep4(y);
    FloorStep100(y);
    FloorStep400(y);
    assert LeapsThrough(y) - LeapsThrough(y - 1) ==
      (if y % 4 == 0 then 1 else 0) - (if y % 100 == 0 then 1 else 0) + (if y % 400 == 0 then 1 else 0);
    Divisors(y);
  }

  /** A multiple of 400 is a multiple of 100, which is a multiple of 4. */
  lemma Divisors(y: int)
    ensures y % 400 == 0 ==> y % 100 == 0
    ensures y % 100 == 0 ==> y % 4 == 0
  {
    if y % 400 == 0 {
      assert y == 400 * (y / 400);
      assert y / 100 == 4 * (y / 400);
    }
    if y % 100 == 0 {
      assert y == 100 * (y / 100);
      assert y / 4 == 25 * (y / 100);
    }
  }

  lemma FloorStep4(y: int)
    ensures y / 4 - (y - 1) / 4 == if y % 4 == 0 then 1 else 0
  {
  }

  lemma FloorStep100(y: int)
    ensures y / 100 - (y - 1) / 100 == if y % 100 == 0 then 1 else 0
  {
  }

  lemma FloorStep400(y: int)
    ensures y / 400 - (y - 1) / 400 == if y % 400 == 0 then 1 else 0
  {
  }

  /** The first of month `m + 1` comes `DaysInMonth(y, m)` days after the first of `m`. */
  lemma MonthLength(y: int, m: Month0)
    requires m < 11
    ensures DaysBeforeMonth(y, m + 1) == DaysBeforeMonth(y, m) + DaysInMonth(y, m)
  {
  }

  lemma WeekdayShift(a: int, n: int)
    ensures (a + n) % 7 == (a % 7 + n) % 7
  {
    assert a == 7 * (a / 7) + a % 7;
  }

  /** The first of the next month is `DaysInMonth` days after the first of this one, so the
      grid of the next month starts on the weekday where this month's grid ends. */
  lemma NextMonthStart(v: YearMonth)
    ensures var n := NextMonth(v);
      DayNumber(n.year, n.month, 1) == DayNumber(v.year, v.month, 1) + DaysInMonth(v.year, v.month)
    ensures var n := NextMonth(v);
      Weekday(n.year, n.month, 1) == (Weekday(v.year, v.month, 1) + DaysInMonth(v.year, v.month)) % 7
  {
    NextMonthDayNumber(v);
    WeekdayShift(DayNumber(v.year, v.month, 1) + 4, DaysInMonth(v.year, v.month));
  }

  lemma NextMonthDayNumber(v: YearMonth)
    ensures var n := NextMonth(v);
      DayNumber(n.year, n.month, 1) == DayNumber(v.year, v.month, 1) + DaysInMonth(v.year, v.month)
  {
    var y := v.year;
    if v.month == 11 {
      assert DayNumber(y + 1, 0, 1) == DaysBeforeYear(y + 1);
      assert DayNumber(y, 11, 1) == DaysBeforeYear(y) + 334 + (if IsLeapYear(y) then 1 else 0);
      YearLength(y);
    } else {
      MonthLength(y, v.month);
    }
  }

  /** `getDaysInMonth`: a blank cell for each weekday before the first, then the days
      1 .. length of the month. */
  method GetDaysInMonth(v: YearMonth) returns (days: seq<Option<nat>>)
    ensures var lead := Weekday(v.year, v.month, 1);
      && |days| == lead + DaysInMonth(v.year, v.month)
      && (forall k :: 0 <= k < lead ==> days[k] == None)
      && (forall k :: lead <= k < |days| ==> days[k] == Some(k - lead + 1))
  {
    var daysInMonth := DaysInMonth(v.year, v.month);
    var startingDayOfWeek := Weekday(v.year, v.month, 1);
    days := [];
    var i := 0;
    while i < startingDayOfWeek
      invariant 0 <= i <= startingDayOfWeek && |days| == i
      invariant forall k :: 0 <= k < i ==> days[k] == None
    {
      days := days + [None];
      i := i + 1;
    }
    i := 1;
    while i <= daysInMonth
      invariant 1 <= i <= daysInMonth + 1 && |days| == startingDayOfWeek + i - 1
      invariant forall k :: 0 <= k < startingDayOfWeek ==> days[k] == None
      invariant forall k :: startingDayOfWeek <= k < |days| ==> days[k] == Some(k - startingDayOfWeek + 1)
    {
      days := days + [Some(i)];
      i := i + 1;
    }
  }

  /** Months counted from year 0. */
  function MonthIndex(v: YearMonth): int {
    v.year * 12 + v.month
  }

  /** `nextMonth`: `new Date(year, month + 1)`, rolling December over into January. */
  function NextMonth(v: YearMonth): (r: YearMonth)
    ensures MonthIndex(r) == MonthIndex(v) + 1
  {
    if v.month == 11 then YearMonth(v.year + 1, 0) else YearMonth(v.year, v.month + 1)
  }

  /** `prevMonth`: `new Date(year, month - 1)`, rolling January back into December. */
  function PrevMonth(v: YearMonth): (r: YearMonth)
    ensures MonthIndex(r) == MonthIndex(v) - 1
  {
    if v.month == 0 then YearMonth(v.year - 1, 11) else YearMonth(v.year, v.month - 1)
  }

  /** A month is determined by its index. */
  lemma MonthIndexInjective(v: YearMonth, w: YearMonth)
    ensures MonthIndex(v) == MonthIndex(w) <==> v == w
  {
  }

  /** Going forward then back, or back then forward, returns to the same month. */
  lemma NextPrevInverse(v: YearMonth)
    ensures PrevMonth(NextMonth(v)) == v && NextMonth(PrevMonth(v)) == v
  {
    MonthIndexInjective(PrevMonth(NextMonth(v)), v);
    MonthIndexInjective(NextMonth(PrevMonth(v)), v);
  }

  /** `!day`: a blank cell (null) or day 0. */
  predicate IsBlankDay(day: Option<nat>) {
    day.None? || day.value == 0
  }

  /** `isToday`: the cell's key equals the key of today. */
  predicate IsToday(v: YearMonth, day: Option<nat>, today: CivilDate) {
    !IsBlankDay(day) && DateKey(v.year, v.month, day.value) == KeyOf(today)
  }

  /** The key comparison decides exactly the date: the cell is today iff year, month
      and day all agree. */
  lemma IsTodayIff(v: YearMonth, day: Option<nat>, today: CivilDate)
    ensures IsToday(v, day, today) <==>
      !IsBlankDay(day) && v.year == today.year && v.month == today.month && day.value == today.day
  {
    if !IsBlankDay(day) {
      DateKeyInjective(v.year, v.month, day.value, today.year, today.month, today.day);
    }
  }

  /** Calendar order of dates. */
  predicate Before(a: CivilDate, b: CivilDate) {
    a.year < b.year || (a.year == b.year && (a.month < b.month || (a.month == b.month && a.day < b.day)))
  }

  /** `isPastDate`: the cell's date is before today's midnight. */
  predicate IsPastDate(v: YearMonth, day: Option<nat>, today: CivilDate) {
    !IsBlankDay(day) && Before(CivilDate(v.year, v.month, day.value), today)
  }

  /** A cell is never both today and past; a non-blank cell is today, past, or after today. */
  lemma TodayPastExclusive(v: YearMonth, day: Option<nat>, today: CivilDate)
    ensures !(IsToday(v, day, today) && IsPastDate(v, day, today))
    ensures !IsBlankDay(day) ==>
      IsToday(v, day, today) || IsPastDate(v, day, today) || Before(today, CivilDate(v.year, v.month, day.value))
  {
    IsTodayIff(v, day, today);
  }

  datatype Border = BorderTransparent | BorderGreen500 | BorderGray400 | BorderAccent1 | BorderSecondary | BorderAccent2

  /** `getCardBorderColor`: blank, then today, then past, then no data, then tests,
      then pyqs, then tasks, else the default accent. */
  function CardBorder(v: YearMonth, day: Option<nat>, today: CivilDate, data: map<string, Buckets>): (b: Border)
    ensures b == BorderTransparent <==> IsBlankDay(day)
    ensures IsToday(v, day, today) ==> b == BorderGreen500
    ensures b == BorderGray400 <==> !IsToday(v, day, today) && IsPastDate(v, day, today)
    ensures b == BorderSecondary <==>
      && !IsBlankDay(day) && !IsToday(v, day, today) && !IsPastDate(v, day, today)
      && DateKey(v.year, v.month, day.value) in data && |data[DateKey(v.year, v.month, day.value)].tests| > 0
    ensures b == BorderAccent2 <==>
      && !IsBlankDay(day) && !IsToday(v, day, today) && !IsPastDate(v, day, today)
      && DateKey(v.year, v.month, day.value) in data
      && var e := data[DateKey(v.year, v.month, day.value)];
      e.tests == [] && e.pyqs == [] && e.tasks != []
    ensures b == BorderAccent1 <==>
      && !IsBlankDay(day) && !IsToday(v, day, today) && !IsPastDate(v, day, today)
      && (DateKey(v.year, v.month, day.value) !in data ||
          var e := data[DateKey(v.year, v.month, day.value)];
          e.tests == [] && e.pyqs == [] && e.tasks == [])
    ensures b == BorderGreen500 <==>
      || IsToday(v, day, today)
      || (&& !IsBlankDay(day) && !IsPastDate(v, day, today)
          && DateKey(v.year, v.month, day.value) in data
          && var e := data[DateKey(v.year, v.month, day.value)];
          e.tests == [] && e.pyqs != [])
  {
    if IsBlankDay(day) then BorderTransparent
    else if IsToday(v, day, today) then BorderGreen500
    else if IsPastDate(v, day, today) then BorderGray400
    else
      var key := DateKey(v.year, v.month, day.value);
      if key !in data then BorderAccent1
      else if |data[key].tests| > 0 then BorderSecondary
      else if |data[key].pyqs| > 0 then BorderGreen500
      else if |data[key].tasks| > 0 then BorderAccent2
      else BorderAccent1
  }

  /** On the calendar's own data, a future day with a test is outlined in the test
      colour whatever else is due that day. */
  lemma TestDayBorder(data: map<string, Buckets>, ts: seq<CalendarTask>, v: YearMonth, d: nat, today: CivilDate, i: nat)
    requires IsFormatting(data, ts)
    requires d != 0 && i < |ts| && ts[i].kind == "test" && ts[i].date == CivilDate(v.year, v.month, d)
    requires Before(today, CivilDate(v.year, v.month, d))
    ensures CardBorder(v, Some(d), today, data) == BorderSecondary
  {
    IsTodayIff(v, Some(d), today);
    var key := KeyOf(ts[i].date);
    assert ts[i] in ts;
    OfKindContains(ts, i, key, "test");
  }

  /** A task of the given day and type is in that day's bucket. */
  lemma {:induction false} OfKindContains(ts: seq<CalendarTask>, i: nat, key: string, kind: string)
    requires i < |ts| && KeyOf(ts[i].date) == key && ts[i].kind == kind
    ensures ts[i] in OfKind(ts, key, kind)
  {
    if i < |ts| - 1 {
      OfKindContains(ts[..|ts| - 1], i, key, kind);
    }
  }

  datatype CircleColor = Green500 | Red500 | Yellow500 | Black | Purple500 | Blue500 | Cyan500

  datatype Circle = Circle(color: CircleColor, count: nat, title: string)

  predicate AllCompleted(ts: seq<CalendarTask>) {
    forall k :: 0 <= k < |ts| ==> ts[k].status == "completed"
  }

  /** The six possible circles of a day, in display order. */
  function CircleCandidates(b: Buckets): seq<Circle> {
    [ Circle(if AllCompleted(b.tasks) then Green500 else Red500, |b.tasks|, NatText(|b.tasks|) + " Tasks"),
      Circle(Yellow500, |b.pyqs|, NatText(|b.pyqs|) + " PYQs"),
      Circle(Black, |b.tests|, NatText(|b.tests|) + " Tests"),
      Circle(Purple500, |b.generals|, NatText(|b.generals|) + " General"),
      Circle(Blue500, |b.fullrevisions|, NatText(|b.fullrevisions|) + " Full Revisions"),
      Circle(Cyan500, |b.revisions|, NatText(|b.revisions|) + " Revisions") ]
  }

  /** The circles the pushes from candidate `i` on leave, starting from `acc`: each
      candidate is pushed when its count is positive. */
  function PushNonEmpty(cs: seq<Circle>, i: nat, acc: seq<Circle>): seq<Circle>
    requires i <= |cs|
    decreases |cs| - i
  {
    if i == |cs| then acc else PushNonEmpty(cs, i + 1, acc + IfAny(cs[i]))
  }

  function NonEmptyCircles(cs: seq<Circle>): seq<Circle> {
    PushNonEmpty(cs, 0, [])
  }

  function IfAny(c: Circle): seq<Circle> {
    if c.count > 0 then [c] else []
  }

  /** `getIndicatorCircles`: nothing for a day without data; otherwise a circle for
      each non-empty bucket in the fixed order, counting its tasks. */
  method GetIndicatorCircles(data: map<string, Buckets>, key: string) returns (circles: seq<Circle>)
    ensures key !in data ==> circles == []
    ensures key in data ==> circles == NonEmptyCircles(CircleCandidates(data[key]))
  {
    if key !in data {
      return [];
    }
    var b := data[key];
    ghost var c := CircleCandidates(b);
    var allCompleted := forall k :: 0 <= k < |b.tasks| ==> b.tasks[k].status == "completed";
    circles := [];
    circles := PushIfAny(circles, Circle(if allCompleted then Green500 else Red500, |b.tasks|, NatText(|b.tasks|) + " Tasks"));
    assert NonEmptyCircles(c) == PushNonEmpty(c, 1, circles);
    circles := PushIfAny(circles, Circle(Yellow500, |b.pyqs|, NatText(|b.pyqs|) + " PYQs"));
    assert NonEmptyCircles(c) == PushNonEmpty(c, 2, circles);
    circles := PushIfAny(circles, Circle(Black, |b.tests|, NatText(|b.tests|) + " Tests"));
    assert NonEmptyCircles(c) == PushNonEmpty(c, 3, circles);
    circles := PushIfAny(circles, Circle(Purple500, |b.generals|, NatText(|b.generals|) + " General"));
    assert NonEmptyCircles(c) == PushNonEmpty(c, 4, circles);
    circles := PushIfAny(circles, Circle(Blue500, |b.fullrevisions|, NatText(|b.fullrevisions|) + " Full Revisions"));
    assert NonEmptyCircles(c) == PushNonEmpty(c, 5, circles);
    circles := PushIfAny(circles, Circle(Cyan500, |b.revisions|, NatText(|b.revisions|) + " Revisions"));
    assert NonEmptyCircles(c) == PushNonEmpty(c, 6, circles);
  }

  /** `if (count > 0) circles.push(circle)`. */
  method PushIfAny(circles: seq<Circle>, c: Circle) returns (r: seq<Circle>)
    ensures r == circles + IfAny(c)
  {
    r := circles;
    if c.count > 0 {
      r := r + [c];
    }
  }

  /** Each circle stands for a non-empty bucket of the day. */
  lemma CirclesSound(b: Buckets)
    ensures forall c :: c in NonEmptyCircles(CircleCandidates(b)) ==> c.count > 0 && c in CircleCandidates(b)
  {
    PushNonEmptySound(CircleCandidates(b), 0, []);
  }

  /** There is one circle per non-empty bucket. */
  lemma CirclesCount(b: Buckets)
    ensures |NonEmptyCircles(CircleCandidates(b))| ==
      (if b.tasks != [] then 1 else 0) + (if b.pyqs != [] then 1 else 0) + (if b.tests != [] then 1 else 0) +
      (if b.generals != [] then 1 else 0) + (if b.fullrevisions != [] then 1 else 0) + (if b.revisions != [] then 1 else 0)
  {
    var c := CircleCandidates(b);
    PushNonEmptyCount(c, 0, []);
    CountOfSix(c);
  }

  /** A day with tasks shows the tasks circle first, counting them, green iff all of them
      are completed. */
  lemma CirclesFirst(b: Buckets)
    requires b.tasks != []
    ensures var cs := NonEmptyCircles(CircleCandidates(b));
      && cs != []
      && cs[0].count == |b.tasks|
      && (cs[0].color == Green500 <==> AllCompleted(b.tasks))
  {
    var c := CircleCandidates(b);
    assert NonEmptyCircles(c) == PushNonEmpty(c, 1, [] + [c[0]]);
    PushNonEmptyExtends(c, 1, [] + [c[0]]);
    assert ([] + [c[0]])[0] == c[0];
  }

  lemma CountOfSix(cs: seq<Circle>)
    requires |cs| == 6
    ensures CountFrom(cs, 0) ==
      (if cs[0].count > 0 then 1 else 0) + (if cs[1].count > 0 then 1 else 0) + (if cs[2].count > 0 then 1 else 0) +
      (if cs[3].count > 0 then 1 else 0) + (if cs[4].count > 0 then 1 else 0) + (if cs[5].count > 0 then 1 else 0)
  {
    assert CountFrom(cs, 6) == 0;
    assert CountFrom(cs, 5) == (if cs[5].count > 0 then 1 else 0);
    assert CountFrom(cs, 4) == (if cs[4].count > 0 then 1 else 0) + CountFrom(cs, 5);
    assert CountFrom(cs, 3) == (if cs[3].count > 0 then 1 else 0) + CountFrom(cs, 4);
    assert CountFrom(cs, 2) == (if cs[2].count > 0 then 1 else 0) + CountFrom(cs, 3);
    assert CountFrom(cs, 1) == (if cs[1].count > 0 then 1 else 0) + CountFrom(cs, 2);
  }

  /** How many candidates from `i` on are non-empty. */
  function CountFrom(cs: seq<Circle>, i: nat): nat
    requires i <= |cs|
    decreases |cs| - i
  {
    if i == |cs| then 0 else (if cs[i].count > 0 then 1 else 0) + CountFrom(cs, i + 1)
  }

  /** Every circle pushed is a non-empty candidate. */
  lemma {:induction false} PushNonEmptySound(cs: seq<Circle>, i: nat, acc: seq<Circle>)
    requires i <= |cs|
    ensures forall c :: c in PushNonEmpty(cs, i, acc) ==> c in acc || (c.count > 0 && c in cs)
    decreases |cs| - i
  {
    if i < |cs| {
      PushNonEmptySound(cs, i + 1, acc + IfAny(cs[i]));
    }
  }

  /** One circle per non-empty candidate. */
  lemma {:induction false} PushNonEmptyCount(cs: seq<Circle>, i: nat, acc: seq<Circle>)
    requires i <= |cs|
    ensures |PushNonEmpty(cs, i, acc)| == |acc| + CountFrom(cs, i)
    decreases |cs| - i
  {
    if i < |cs| {
      PushNonEmptyCount(cs, i + 1, acc + IfAny(cs[i]));
    }
  }

  /** Pushing only appends: what was there stays in front. */
  lemma {:induction false} PushNonEmptyExtends(cs: seq<Circle>, i: nat, acc: seq<Circle>)
    requires i <= |cs|
    ensures |acc| <= |PushNonEmpty(cs, i, acc)| && PushNonEmpty(cs, i, acc)[..|acc|] == acc
    decreases |cs| - i
  {
    if i < |cs| {
      var next := acc + IfAny(cs[i]);
      PushNonEmptyExtends(cs, i + 1, next);
      assert next[..|acc|] == acc;
    }
  }
}
