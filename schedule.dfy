/** The repeating-date generator of Backend/utils/schedule.util.js.

    Dates are day ordinals. The generator advances a date by a fixed number of
    days until the candidate passes a limit; in the source the limit is the base
    date plus fifteen calendar months (`addMonths`), which depends on the calendar
    and is therefore an argument here. */
module Schedule {

  /** One generated occurrence: the day it falls on and its revision step. */
  datatype Occurrence = Occurrence(date: int, step: nat)

  /** How many candidates base + k * interval (k = 1, 2, ...) stay on or before limit. */
  function StepCount(base: int, interval: int, limit: int): nat
    requires interval > 0
    decreases limit - base
  {
    if base + interval > limit then 0 else 1 + StepCount(base + interval, interval, limit)
  }

  /** Specification of the generator: step k (1-based) falls on base + k * interval,
      for exactly StepCount(base, interval, limit) steps. */
  function RepeatedDates(base: int, interval: int, limit: int): seq<Occurrence>
    requires interval > 0
  {
    seq(StepCount(base, interval, limit), (k: nat) => Occurrence(base + (k + 1) * interval, k + 1))
  }

  /** The generator as the source runs it: an unbounded loop that advances `current`
      by `intervalDays`, stops at the first candidate past the limit and otherwise
      appends the candidate with the current step. With a non-positive interval the
      source loop never stops, so a positive interval is required. */
  method GenerateRepeatedDates(baseDate: int, intervalDays: int, limitDate: int)
    returns (dates: seq<Occurrence>)
    requires intervalDays > 0
    ensures dates == RepeatedDates(baseDate, intervalDays, limitDate)
  {
    dates := [];
    var step: nat := 1;
    var current := baseDate;
    while true
      invariant step == |dates| + 1
      invariant current == baseDate + |dates| * intervalDays
      invariant |dates| + StepCount(current, intervalDays, limitDate) == StepCount(baseDate, intervalDays, limitDate)
      invariant forall k :: 0 <= k < |dates| ==> dates[k] == Occurrence(baseDate + (k + 1) * intervalDays, k + 1)
      decreases limitDate - current
    {
      current := current + intervalDays;
      if current > limitDate {
        break;
      }
      dates := dates + [Occurrence(current, step)];
      step := step + 1;
    }
  }

  /** The last counted step is on or before the limit, and the next one is past it. */
  lemma {:induction false} StepCountBounds(base: int, interval: int, limit: int)
    requires interval > 0
    ensures StepCount(base, interval, limit) == 0 || base + StepCount(base, interval, limit) * interval <= limit
    ensures base + (StepCount(base, interval, limit) + 1) * interval > limit
    decreases limit - base
  {
    var n := StepCount(base, interval, limit);
    if base + interval <= limit {
      var m := StepCount(base + interval, interval, limit);
      StepCountBounds(base + interval, interval, limit);
      assert n == m + 1;
      assert base + (n + 1) * interval == base + interval + (m + 1) * interval;
      assert base + n * interval == base + interval + m * interval;
    }
  }

  /** Entry k has step k + 1 and lies k + 1 intervals after the base. */
  lemma RepeatedDatesEntry(base: int, interval: int, limit: int, k: nat)
    requires interval > 0
    requires k < |RepeatedDates(base, interval, limit)|
    ensures RepeatedDates(base, interval, limit)[k].step == k + 1
    ensures RepeatedDates(base, interval, limit)[k].date == base + (k + 1) * interval
    ensures k == 0 ==> RepeatedDates(base, interval, limit)[k].date == base + interval
    ensures k > 0 ==> RepeatedDates(base, interval, limit)[k].date == RepeatedDates(base, interval, limit)[k - 1].date + interval
  {
  }

  /** Every produced date is on or before the limit. */
  lemma RepeatedDatesWithinLimit(base: int, interval: int, limit: int)
    requires interval > 0
    ensures forall k :: 0 <= k < |RepeatedDates(base, interval, limit)| ==> RepeatedDates(base, interval, limit)[k].date <= limit
  {
    var r := RepeatedDates(base, interval, limit);
    StepCountBounds(base, interval, limit);
    forall k | 0 <= k < |r| ensures r[k].date <= limit {
      MultiplyMonotone(k + 1, |r|, interval);
    }
  }

  /** The output is maximal: the candidate after the last produced one passes the limit. */
  lemma RepeatedDatesMaximal(base: int, interval: int, limit: int)
    requires interval > 0
    ensures base + (|RepeatedDates(base, interval, limit)| + 1) * interval > limit
  {
    StepCountBounds(base, interval, limit);
  }

  /** The output is empty exactly when the first candidate already passes the limit. */
  lemma RepeatedDatesEmpty(base: int, interval: int, limit: int)
    requires interval > 0
    ensures RepeatedDates(base, interval, limit) == [] <==> base + interval > limit
  {
  }

  /** Dates strictly increase with the step, and the first one is after the base. */
  lemma RepeatedDatesIncreasing(base: int, interval: int, limit: int)
    requires interval > 0
    ensures forall i, j :: 0 <= i < j < |RepeatedDates(base, interval, limit)| ==>
      RepeatedDates(base, interval, limit)[i].date < RepeatedDates(base, interval, limit)[j].date
    ensures forall i :: 0 <= i < |RepeatedDates(base, interval, limit)| ==> base < RepeatedDates(base, interval, limit)[i].date
  {
    var r := RepeatedDates(base, interval, limit);
    forall i, j | 0 <= i < j < |r| ensures r[i].date < r[j].date {
      MultiplyMonotone(i + 1, j, interval);
    }
    forall i | 0 <= i < |r| ensures base < r[i].date {
      MultiplyMonotone(1, i + 1, interval);
    }
  }

  lemma MultiplyMonotone(a: nat, b: nat, c: int)
    requires a <= b && c > 0
    ensures a * c <= b * c
  {
  }
}
