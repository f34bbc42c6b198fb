/** The Gregorian calendar as Carbon uses it for `date` columns: a date is a
    day number (days since 1970-01-01) and a month is a month index (months
    since January 1970). Only the three Carbon operations the scheduler uses
    are modelled: stepping by days, `startOfMonth` and `endOfMonth`. */
module Calendar {

  /** Days since 1970-01-01 (day 0 is 1970-01-01). */
  type Day = nat

  /** Months since January 1970 (index 0 is January 1970). */
  type MonthIndex = nat

  /** The calendar year of a month index (1970 + k / 12, counted by years). */
  function YearOf(k: MonthIndex): int
  {
    if k < 12 then 1970 else YearOf(k - 12) + 1
  }

  /** The calendar month 1..12 of a month index (k % 12 + 1, counted by years). */
  function MonthOf(k: MonthIndex): (m: int)
    ensures 1 <= m <= 12
  {
    if k < 12 then k + 1 else MonthOf(k - 12)
  }

  /** Moving to the next month index advances the calendar month, and the
      year after December. */
  lemma {:induction false} NextMonthOf(k: MonthIndex)
    ensures MonthOf(k + 1) == (if MonthOf(k) == 12 then 1 else MonthOf(k) + 1)
    ensures YearOf(k + 1) == (if MonthOf(k) == 12 then YearOf(k) + 1 else YearOf(k))
    ensures YearOf(k) >= 1970
  {
    if k >= 12 {
      NextMonthOf(k - 12);
    }
  }

  /** The month index of month m of year y. */
  lemma {:induction false} MonthIndexOfCivil(y: int, m: int)
    requires y >= 1970 && 1 <= m <= 12
    ensures YearOf((y - 1970) * 12 + m - 1) == y
    ensures MonthOf((y - 1970) * 12 + m - 1) == m
  {
    if y > 1970 {
      MonthIndexOfCivil(y - 1, m);
      assert (y - 1970) * 12 + m - 1 - 12 == (y - 1 - 1970) * 12 + m - 1;
    }
  }

  predicate IsLeapYear(y: int)
  {
    y % 4 == 0 && (y % 100 != 0 || y % 400 == 0)
  }

  function DaysInMonth(y: int, m: int): (n: nat)
    requires 1 <= m <= 12
    ensures 28 <= n <= 31
  {
    if m == 2 then (if IsLeapYear(y) then 29 else 28)
    else if m == 4 || m == 6 || m == 9 || m == 11 then 30
    else 31
  }

  /** The length of month k, counted out month by month from January 1970. */
  function MonthLength(k: MonthIndex): (n: nat)
    ensures 28 <= n <= 31
  {
    LengthAfter(k, 1970, 1)
  }

  /** The length of the month n months after month m of year y. */
  function LengthAfter(n: nat, y: int, m: int): (r: nat)
    requires 1 <= m <= 12
    ensures 28 <= r <= 31
  {
    if n == 0 then DaysInMonth(y, m)
    else if m == 12 then LengthAfter(n - 1, y + 1, 1)
    else LengthAfter(n - 1, y, m + 1)
  }

  /** Month k has the length of its civil month. */
  lemma {:induction false} MonthLengthCivil(k: MonthIndex)
    ensures MonthLength(k) == DaysInMonth(YearOf(k), MonthOf(k))
  {
    LengthAfterCivil(k, 0);
  }

  lemma {:induction false} LengthAfterCivil(n: nat, j: MonthIndex)
    ensures LengthAfter(n, YearOf(j), MonthOf(j)) == DaysInMonth(YearOf(j + n), MonthOf(j + n))
    decreases n
  {
    if n > 0 {
      NextMonthOf(j);
      LengthAfterCivil(n - 1, j + 1);
      assert j + 1 + (n - 1) == j + n;
    }
  }

  /** Leap years among 1..y. */
  function LeapsUpTo(y: nat): int
  {
    y / 4 - y / 100 + y / 400
  }

  /** Days from 1970-01-01 to January 1st of year y. */
  function DaysBeforeYear(y: int): int
    requires y >= 1970
  {
    365 * (y - 1970) + LeapsUpTo(y - 1) - LeapsUpTo(1969)
  }

  /** Days from January 1st of year y to the first of month m. */
  function DaysBeforeMonth(y: int, m: int): nat
    requires 1 <= m <= 12
  {
    [0, 31, 59, 90, 120, 151, 181, 212, 243, 273, 304, 334][m - 1]
      + (if m > 2 && IsLeapYear(y) then 1 else 0)
  }

  /** The day number of the first day of month k: the lengths of the months
      before it, added up. */
  function FirstDayOfMonth(k: MonthIndex): Day
  {
    if k == 0 then 0 else FirstDayOfMonth(k - 1) + MonthLength(k - 1)
  }

  /** One month on, the first day has moved by the month's length. */
  lemma {:induction false} FirstDayStep(k: MonthIndex)
    ensures FirstDayOfMonth(k + 1) == FirstDayOfMonth(k) + MonthLength(k)
  {
  }

  /** The first day of the next month is the first day of this one plus the
      number of days the civil calendar gives this month. */
  lemma {:induction false} NextFirstDayCivil(k: MonthIndex)
    ensures FirstDayOfMonth(k + 1) == FirstDayOfMonth(k) + DaysInMonth(YearOf(k), MonthOf(k))
  {
    FirstDayStep(k);
    MonthLengthCivil(k);
  }

  /** The same day number in closed form, from the year's and the month's
      offsets; it lets concrete dates be computed without unrolling. */
  function FirstDayClosedForm(k: MonthIndex): int
  {
    var y := YearOf(k);
    NextMonthOf(k);
    DaysBeforeYear(y) + DaysBeforeMonth(y, MonthOf(k))
  }

  /** Among 1..y there is one more multiple of n than among 1..y-1
      exactly when y is one (for the three divisors of the leap-year rule). */
  lemma {:induction false} MultiplesStep(y: int, n: int)
    requires y >= 1 && (n == 4 || n == 100 || n == 400)
    ensures y / n - (y - 1) / n == if y % n == 0 then 1 else 0
  {
  }

  /** A multiple of 400 is a multiple of 100, and that of 4. */
  lemma {:induction false} DivisorsNest(y: int)
    ensures y % 400 == 0 ==> y % 100 == 0
    ensures y % 100 == 0 ==> y % 4 == 0
  {
    if y % 400 == 0 {
      var q := y / 400;
      assert y == 400 * q;
      assert y / 100 == 4 * q;
    }
    if y % 100 == 0 {
      var q := y / 100;
      assert y == 100 * q;
      assert y / 4 == 25 * q;
    }
  }

  /** Year y adds one leap year to the count exactly when it is one. */
  lemma {:induction false} LeapStep(y: nat)
    requires y >= 1
    ensures LeapsUpTo(y) - LeapsUpTo(y - 1) == if IsLeapYear(y) then 1 else 0
  {
    MultiplesStep(y, 4);
    MultiplesStep(y, 100);
    MultiplesStep(y, 400);
    DivisorsNest(y);
    var a, b, c := y / 4 - (y - 1) / 4, y / 100 - (y - 1) / 100, y / 400 - (y - 1) / 400;
    assert LeapsUpTo(y) - LeapsUpTo(y - 1) == a - b + c;
  }

  lemma {:induction false} ClosedFormStep(k: MonthIndex)
    ensures FirstDayClosedForm(k + 1) == FirstDayClosedForm(k) + MonthLength(k)
  {
    NextMonthOf(k);
    MonthLengthCivil(k);
    if MonthOf(k) == 12 {
      LeapStep(YearOf(k));
    }
  }

  /** The running sum and the closed form agree on every month. */
  lemma {:induction false} FirstDayClosedFormAgrees(k: MonthIndex)
    ensures FirstDayOfMonth(k) == FirstDayClosedForm(k)
  {
    if k > 0 {
      FirstDayClosedFormAgrees(k - 1);
      ClosedFormStep(k - 1);
    }
  }

  lemma {:induction false} FirstDayIncreasing(j: MonthIndex, k: MonthIndex)
    requires j < k
    ensures FirstDayOfMonth(j) + 28 * (k - j) <= FirstDayOfMonth(k)
    decreases k - j
  {
    if j + 1 < k {
      FirstDayIncreasing(j + 1, k);
    }
  }

  /** First days are in the order of their months. */
  lemma {:induction false} FirstDayOrder(j: MonthIndex, k: MonthIndex)
    ensures j <= k <==> FirstDayOfMonth(j) <= FirstDayOfMonth(k)
  {
    if j < k {
      FirstDayIncreasing(j, k);
    } else if k < j {
      FirstDayIncreasing(k, j);
    }
  }

  /** The month a day falls in. */
  function MonthIndexOf(d: Day): (k: MonthIndex)
    ensures FirstDayOfMonth(k) <= d < FirstDayOfMonth(k + 1)
  {
    MonthFrom(0, d)
  }

  /** The month of d, searching upwards from a month k that starts no later
      than d. */
  function MonthFrom(k: MonthIndex, d: Day): (j: MonthIndex)
    requires FirstDayOfMonth(k) <= d
    ensures k <= j && FirstDayOfMonth(j) <= d < FirstDayOfMonth(j + 1)
    decreases d - FirstDayOfMonth(k)
  {
    FirstDayStep(k);
    if d < FirstDayOfMonth(k + 1) then k else MonthFrom(k + 1, d)
  }

  /** A day lies in exactly one month. */
  lemma {:induction false} MonthIndexUnique(d: Day, k: MonthIndex)
    requires FirstDayOfMonth(k) <= d < FirstDayOfMonth(k + 1)
    ensures MonthIndexOf(d) == k
  {
    var j := MonthIndexOf(d);
    if j < k {
      FirstDayOrder(j + 1, k);
    } else if k < j {
      FirstDayOrder(k + 1, j);
    }
  }

  lemma {:induction false} MonthIndexOfFirstDay(k: MonthIndex)
    ensures MonthIndexOf(FirstDayOfMonth(k)) == k
  {
    MonthIndexUnique(FirstDayOfMonth(k), k);
  }

  /** Carbon's `startOfMonth`, on day numbers. */
  function StartOfMonth(d: Day): (r: Day)
    ensures r <= d && MonthIndexOf(r) == MonthIndexOf(d)
    ensures d - r < 31
  {
    var k := MonthIndexOf(d);
    MonthIndexOfFirstDay(k);
    FirstDayOfMonth(k)
  }

  /** Carbon's `endOfMonth`, on day numbers: the day before the next
      month's first day. Its time of day (23:59:59) is dropped, which changes
      no comparison against a midnight date. */
  function EndOfMonth(d: Day): (r: Day)
    ensures d <= r
  {
    FirstDayOfMonth(MonthIndexOf(d) + 1) - 1
  }

  /** The last day of a month lies in that month. */
  lemma {:induction false} LastDayInMonth(k: MonthIndex)
    ensures MonthIndexOf(FirstDayOfMonth(k + 1) - 1) == k
  {
    FirstDayStep(k);
    MonthIndexUnique(FirstDayOfMonth(k + 1) - 1, k);
  }

  /** endOfMonth stays in d's month, and the next day opens the next month. */
  lemma {:induction false} EndOfMonthInMonth(d: Day)
    ensures MonthIndexOf(EndOfMonth(d)) == MonthIndexOf(d)
    ensures MonthIndexOf(EndOfMonth(d) + 1) == MonthIndexOf(d) + 1
  {
    var k := MonthIndexOf(d);
    LastDayInMonth(k);
    MonthIndexOfFirstDay(k + 1);
  }

  /** The day number of a calendar date, as a date string names it. */
  function DayNumber(y: int, m: int, dd: int): int
    requires y >= 1970 && 1 <= m <= 12 && 1 <= dd <= DaysInMonth(y, m)
  {
    DaysBeforeYear(y) + DaysBeforeMonth(y, m) + dd - 1
  }

  /** A calendar date is the given number of days into its month. */
  lemma {:induction false} DayNumberInMonth(y: int, m: int, dd: int)
    requires y >= 1970 && 1 <= m <= 12 && 1 <= dd <= DaysInMonth(y, m)
    ensures DayNumber(y, m, dd) == FirstDayOfMonth((y - 1970) * 12 + m - 1) + dd - 1
  {
    var k := (y - 1970) * 12 + m - 1;
    MonthIndexOfCivil(y, m);
    FirstDayClosedFormAgrees(k);
  }
}
