/** Occurrence expansion: the dates one challenge is scheduled on, as
    ChallengeActivityController::createActivitiesBasedOnFrequency derives
    them from start_date, end_date and the frequency with CarbonPeriod. */
module Schedule {
  import opened Common
  import opened Calendar

  /** CarbonPeriod::create(from, step days, to): from, from + step, ... while
      not after `to`; empty when `from` is after `to`. */
  function DaySteps(from: Day, to: Day, step: nat): seq<Day>
    requires step > 0
    decreases if from <= to then to - from + 1 else 0
  {
    if from > to then [] else [from] + DaySteps(from + step, to, step)
  }

  /** CarbonPeriod::create(first of month k, '1 month', to): the first of
      month k, k + 1, ... while not after `to`. Stepping a month from the
      first of a month lands on the first of the next. */
  function MonthSteps(k: MonthIndex, to: Day): seq<Day>
    decreases if FirstDayOfMonth(k) <= to then to - FirstDayOfMonth(k) + 1 else 0
  {
    if FirstDayOfMonth(k) > to then [] else [FirstDayOfMonth(k)] + MonthSteps(k + 1, to)
  }

  /** The dates the switch on the frequency produces. In the monthly case
      `startOfMonth` and `endOfMonth` move the very Carbon objects the range
      filter then compares against, so the filter bounds are the widened
      ones. A frequency outside the three yields no dates. */
  function Expand(start: Day, end: Day, frequency: string): seq<Day>
  {
    if frequency == "daily" then DaySteps(start, end, 1)
    else if frequency == "weekly" then DaySteps(start, end, 7)
    else if frequency == "monthly" then MonthlyDates(StartOfMonth(start), EndOfMonth(end))
    else []
  }

  /** The monthly loop: a month-stepped period from `lo`'s month through
      `hi`, kept only where it lies between `lo` and `hi`. */
  function MonthlyDates(lo: Day, hi: Day): seq<Day>
  {
    Filter(MonthSteps(MonthIndexOf(lo), hi), Between(lo, hi))
  }

  /** The monthly loop's guard `$date >= $startDate && $date <= $endDate`. */
  function Between(lo: Day, hi: Day): Day -> bool
  {
    (d: Day) => lo <= d <= hi
  }

  /** The shape of a day-stepped period: the i-th date is from + step * i,
      the last one is not after `to` and the next step would be. */
  lemma {:induction false} DayStepsShape(from: Day, to: Day, step: nat)
    requires step > 0
    ensures var r := DaySteps(from, to, step);
      && (r == [] <==> from > to)
      && (forall i :: 0 <= i < |r| ==> r[i] == from + step * i)
      && (r != [] ==> r[|r| - 1] <= to < r[|r| - 1] + step)
    decreases if from <= to then to - from + 1 else 0
  {
    if from <= to {
      DayStepsShape(from + step, to, step);
      var r := DaySteps(from, to, step);
      var rest := DaySteps(from + step, to, step);
      assert r == [from] + rest;
      forall i | 0 < i < |r| ensures r[i] == from + step * i {
        assert r[i] == rest[i - 1];
        assert step * i == step * (i - 1) + step;
      }
    }
  }

  /** Daily: every day from start_date to end_date, one each, ascending;
      nothing when start_date is after end_date. */
  lemma {:induction false} DailyExpansion(start: Day, end: Day)
    ensures var r := Expand(start, end, "daily");
      && |r| == (if start <= end then end - start + 1 else 0)
      && (forall i :: 0 <= i < |r| ==> r[i] == start + i)
  {
    DayStepsShape(start, end, 1);
  }

  /** Weekly: starts at start_date, seven days between neighbours, never
      after end_date, and one more week would pass end_date. */
  lemma {:induction false} WeeklyExpansion(start: Day, end: Day)
    ensures var r := Expand(start, end, "weekly");
      && (r == [] <==> start > end)
      && (r != [] ==> r[0] == start && end < r[|r| - 1] + 7)
      && (forall i :: 0 <= i < |r| ==> r[i] == start + 7 * i && r[i] <= end)
      && (forall i :: 0 <= i < |r| - 1 ==> r[i + 1] == r[i] + 7)
  {
    DayStepsShape(start, end, 7);
    var r := Expand(start, end, "weekly");
    forall i | 0 <= i < |r| ensures r[i] <= end {
      assert 7 * i <= 7 * (|r| - 1);
    }
  }

  /** Month steps up to the last day of month ke: the first of every month
      from k through ke. */
  lemma {:induction false} MonthStepsThrough(k: MonthIndex, ke: MonthIndex)
    ensures var r := MonthSteps(k, FirstDayOfMonth(ke + 1) - 1);
      && |r| == (if k <= ke then ke - k + 1 else 0)
      && (forall i :: 0 <= i < |r| ==> r[i] == FirstDayOfMonth(k + i))
    decreases if k <= ke then ke - k + 1 else 0
  {
    var r := MonthSteps(k, FirstDayOfMonth(ke + 1) - 1);
    FirstDayOrder(ke + 1, k);
    if k <= ke {
      MonthStepsThrough(k + 1, ke);
      var rest := MonthSteps(k + 1, FirstDayOfMonth(ke + 1) - 1);
      assert r == [FirstDayOfMonth(k)] + rest;
      forall i | 0 < i < |r| ensures r[i] == FirstDayOfMonth(k + i) {
        assert r[i] == rest[i - 1];
      }
    }
  }

  /** Every month step lies between the first of month k and `to`. */
  lemma {:induction false} MonthStepsBounds(k: MonthIndex, to: Day)
    ensures forall i :: 0 <= i < |MonthSteps(k, to)| ==> FirstDayOfMonth(k) <= MonthSteps(k, to)[i] <= to
    decreases if FirstDayOfMonth(k) <= to then to - FirstDayOfMonth(k) + 1 else 0
  {
    if FirstDayOfMonth(k) <= to {
      MonthStepsBounds(k + 1, to);
      var r := MonthSteps(k, to);
      var rest := MonthSteps(k + 1, to);
      assert FirstDayOfMonth(k) <= FirstDayOfMonth(k + 1);
      assert r == [FirstDayOfMonth(k)] + rest;
      forall i | 0 < i < |r| ensures FirstDayOfMonth(k) <= r[i] <= to {
        assert r[i] == rest[i - 1];
        assert FirstDayOfMonth(k + 1) <= rest[i - 1] <= to;
      }
    }
  }

  /** The monthly range filter keeps every step: its bounds are the first
      of start_date's month and the end of end_date's month. */
  lemma {:induction false} MonthlyFilterKeepsAll(start: Day, end: Day)
    ensures Expand(start, end, "monthly") == MonthSteps(MonthIndexOf(start), EndOfMonth(end))
  {
    var lo := StartOfMonth(start);
    assert MonthIndexOf(lo) == MonthIndexOf(start);
    MonthlyDatesAll(lo, EndOfMonth(end));
  }

  /** From the first of a month, the range filter keeps every month step. */
  lemma {:induction false} MonthlyDatesAll(lo: Day, hi: Day)
    requires lo == FirstDayOfMonth(MonthIndexOf(lo))
    ensures MonthlyDates(lo, hi) == MonthSteps(MonthIndexOf(lo), hi)
  {
    var steps := MonthSteps(MonthIndexOf(lo), hi);
    MonthStepsBounds(MonthIndexOf(lo), hi);
    FilterAll(steps, Between(lo, hi));
  }

  /** Monthly, as written: exactly the first of each month from start_date's
      month through end_date's month, one per month; the range filter drops
      nothing because its bounds were already widened to whole months. */
  lemma {:induction false} MonthlyExpansion(start: Day, end: Day)
    ensures var r := Expand(start, end, "monthly");
      var ks, ke := MonthIndexOf(start), MonthIndexOf(end);
      && |r| == (if ks <= ke then ke - ks + 1 else 0)
      && (forall i :: 0 <= i < |r| ==> r[i] == FirstDayOfMonth(ks + i))
  {
    MonthlyFilterKeepsAll(start, end);
    MonthStepsThrough(MonthIndexOf(start), MonthIndexOf(end));
  }

  /** Consecutive monthly dates are one calendar month apart. */
  lemma {:induction false} MonthlyStepIsOneMonth(start: Day, end: Day, i: nat)
    requires i + 1 < |Expand(start, end, "monthly")|
    ensures var r := Expand(start, end, "monthly");
      var k := MonthIndexOf(start) + i;
      r[i + 1] == r[i] + DaysInMonth(YearOf(k), MonthOf(k))
  {
    var r := Expand(start, end, "monthly");
    var k := MonthIndexOf(start) + i;
    MonthlyExpansion(start, end);
    assert r[i] == FirstDayOfMonth(k);
    assert r[i + 1] == FirstDayOfMonth(k + 1);
    NextFirstDayCivil(k);
  }

  /** Monthly, as written, schedules the first of start_date's month even
      when start_date is later in that month: a date before the challenge
      starts. */
  lemma {:induction false} MonthlyCanPrecedeStart(start: Day, end: Day)
    requires StartOfMonth(start) != start
    requires MonthIndexOf(start) <= MonthIndexOf(end)
    ensures var r := Expand(start, end, "monthly");
      |r| > 0 && r[0] < start
  {
    MonthlyExpansion(start, end);
  }

  /** Monthly, as written, ignores the order of the two dates within one
      month: one date even when start_date is after end_date. */
  lemma {:induction false} MonthlySameMonthOneDate(start: Day, end: Day)
    requires MonthIndexOf(start) == MonthIndexOf(end)
    ensures Expand(start, end, "monthly") == [StartOfMonth(start)]
  {
    MonthlyExpansion(start, end);
  }

  /** A single-day range schedules exactly one date for every known
      frequency. */
  lemma {:induction false} SingleDayOneDate(d: Day, frequency: string)
    requires frequency in ["daily", "weekly", "monthly"]
    ensures |Expand(d, d, frequency)| == 1
  {
    if frequency == "monthly" {
      MonthlyExpansion(d, d);
    } else {
      DayStepsShape(d, d, if frequency == "daily" then 1 else 7);
    }
  }

  /** Every date produced for a known frequency lies in the start's month
      or later and in the end's month or earlier. */
  lemma {:induction false} ExpansionWithinMonths(start: Day, end: Day, frequency: string, i: nat)
    requires i < |Expand(start, end, frequency)|
    ensures var d := Expand(start, end, frequency)[i];
      StartOfMonth(start) <= d <= EndOfMonth(end)
  {
    if frequency == "daily" {
      DayStepsShape(start, end, 1);
    } else if frequency == "weekly" {
      WeeklyExpansion(start, end);
    } else {
      MonthlyFilterKeepsAll(start, end);
      MonthStepsBounds(MonthIndexOf(start), EndOfMonth(end));
    }
  }

  /** Weekly from 2024-01-01 to 2024-01-22: the 1st, 8th, 15th and 22nd. */
  lemma {:induction false} WeeklyJanuary2024()
    ensures DayNumber(2024, 1, 1) == 19723
    ensures Expand(19723, 19723 + 21, "weekly") == [19723, 19730, 19737, 19744]
  {
  }
}
