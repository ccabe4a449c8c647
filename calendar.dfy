/**
 * Calendar dates at day granularity, as PostgreSQL's `date` type holds them
 * (proleptic Gregorian calendar), with the two pieces of date arithmetic the
 * bot's queries use: `date + interval 'N days'` and `date + interval 'M month'`.
 */
module Calendar {

  datatype Civil = Civil(year: int, month: int, day: int)

  predicate IsLeapYear(y: int) {
    y % 4 == 0 && (y % 100 != 0 || y % 400 == 0)
  }

  function DaysInMonth(y: int, m: int): (n: int)
    requires 1 <= m <= 12
    ensures 28 <= n <= 31
    ensures m == 2 ==> (n == 29 <==> IsLeapYear(y))
    ensures m != 2 ==> 30 <= n
    // the knuckle rule: up to July the odd months are long, from August the even ones
    ensures m != 2 ==> (n == 31 <==> (m <= 7) == (m % 2 == 1))
  {
    if m == 2 then (if IsLeapYear(y) then 29 else 28)
    else if m == 4 || m == 6 || m == 9 || m == 11 then 30
    else 31
  }

  predicate ValidCivil(c: Civil) {
    1 <= c.month <= 12 && 1 <= c.day <= DaysInMonth(c.year, c.month)
  }

  /** A calendar day that exists. */
  type Date = c: Civil | ValidCivil(c) witness Civil(1970, 1, 1)

  /** Months since the start of year 0; orders dates month by month. */
  function MonthIndex(d: Date): int {
    d.year * 12 + d.month - 1
  }

  /** `a < b` on dates: earlier month, or same month and earlier day. */
  predicate Before(a: Date, b: Date) {
    MonthIndex(a) < MonthIndex(b) || (MonthIndex(a) == MonthIndex(b) && a.day < b.day)
  }

  /** `a <= b` on dates. */
  predicate NotAfter(a: Date, b: Date) {
    a == b || Before(a, b)
  }

  lemma MonthIndexInjective(a: Date, b: Date)
    requires MonthIndex(a) == MonthIndex(b)
    ensures a.year == b.year && a.month == b.month
  {
  }

  lemma BeforeIsStrictTotalOrder(a: Date, b: Date, c: Date)
    ensures !Before(a, a)
    ensures Before(a, b) ==> !Before(b, a)
    ensures Before(a, b) && Before(b, c) ==> Before(a, c)
    ensures Before(a, b) || a == b || Before(b, a)
  {
    if MonthIndex(a) == MonthIndex(b) {
      MonthIndexInjective(a, b);
    }
  }

  /** The following calendar day. */
  function NextDay(d: Date): (r: Date)
    ensures Before(d, r)
  {
    if d.day < DaysInMonth(d.year, d.month) then Civil(d.year, d.month, d.day + 1)
    else if d.month < 12 then Civil(d.year, d.month + 1, 1)
    else Civil(d.year + 1, 1, 1)
  }

  /** Nothing lies strictly between a day and the next: any later date is on or after `NextDay(d)`. */
  lemma NextDayIsImmediate(d: Date, x: Date)
    ensures Before(d, x) <==> NotAfter(NextDay(d), x)
    ensures !(Before(d, x) && Before(x, NextDay(d)))
  {
    var n := NextDay(d);
    BeforeIsStrictTotalOrder(d, n, x);
    if MonthIndex(d) == MonthIndex(x) {
      MonthIndexInjective(d, x);
    }
    if MonthIndex(n) == MonthIndex(x) {
      MonthIndexInjective(n, x);
    }
  }

  /** The lengths of the first `k` months of year `y`, added up. */
  function DaysBeforeMonth(y: int, k: nat): int
    requires k <= 12
  {
    if k == 0 then 0 else DaysBeforeMonth(y, k - 1) + DaysInMonth(y, k)
  }

  /** A year has 365 days, and 366 exactly in a leap year. */
  lemma YearLength(y: int)
    ensures DaysBeforeMonth(y, 12) == if IsLeapYear(y) then 366 else 365
  {
    // each step adds one month's length; only February's depends on the year
    assert DaysBeforeMonth(y, 1) == 31;
    assert DaysBeforeMonth(y, 2) == 31 + DaysInMonth(y, 2);
    assert DaysBeforeMonth(y, 3) == DaysBeforeMonth(y, 2) + 31;
    assert DaysBeforeMonth(y, 4) == DaysBeforeMonth(y, 3) + 30;
    assert DaysBeforeMonth(y, 5) == DaysBeforeMonth(y, 4) + 31;
    assert DaysBeforeMonth(y, 6) == DaysBeforeMonth(y, 5) + 30;
    assert DaysBeforeMonth(y, 7) == DaysBeforeMonth(y, 6) + 31;
    assert DaysBeforeMonth(y, 8) == DaysBeforeMonth(y, 7) + 31;
    assert DaysBeforeMonth(y, 9) == DaysBeforeMonth(y, 8) + 30;
    assert DaysBeforeMonth(y, 10) == DaysBeforeMonth(y, 9) + 31;
    assert DaysBeforeMonth(y, 11) == DaysBeforeMonth(y, 10) + 30;
  }

  /** `d + interval 'n days'`. */
  function AddDays(d: Date, n: nat): Date
    decreases n
  {
    if n == 0 then d else NextDay(AddDays(d, n - 1))
  }

  /** Adding more days gives a strictly later date. */
  lemma {:induction false} AddDaysIncreasing(d: Date, i: nat, j: nat)
    requires i < j
    ensures Before(AddDays(d, i), AddDays(d, j))
    decreases j
  {
    if i < j - 1 {
      AddDaysIncreasing(d, i, j - 1);
      BeforeIsStrictTotalOrder(AddDays(d, i), AddDays(d, j - 1), AddDays(d, j));
    }
  }

  /** `d + interval 'n days'` is never before `d`. */
  lemma AddDaysNotBefore(d: Date, n: nat)
    ensures NotAfter(d, AddDays(d, n))
  {
    if n > 0 {
      AddDaysIncreasing(d, 0, n);
    }
  }

  /**
   * `d + interval 'm month'`: move m months forward and clamp the day of the
   * month to the length of the month reached (31 January + 1 month is the last
   * day of February).
   */
  function AddMonths(d: Date, m: nat): (r: Date)
    ensures MonthIndex(r) == MonthIndex(d) + m
    ensures r.day <= d.day
    ensures r.day == d.day || r.day == DaysInMonth(r.year, r.month)
  {
    var k := MonthIndex(d) + m;
    var y := k / 12;
    var mo := k % 12 + 1;
    var dim := DaysInMonth(y, mo);
    Civil(y, mo, if d.day <= dim then d.day else dim)
  }

  /** Adding at least one month moves a date strictly forward. */
  lemma AddMonthsLater(d: Date, m: nat)
    requires m >= 1
    ensures Before(d, AddMonths(d, m))
  {
  }

  /** Adding the same number of months preserves the order of two dates. */
  lemma AddMonthsMonotone(a: Date, b: Date, m: nat)
    requires NotAfter(a, b)
    ensures NotAfter(AddMonths(a, m), AddMonths(b, m))
  {
    if a != b && MonthIndex(a) == MonthIndex(b) {
      MonthIndexInjective(AddMonths(a, m), AddMonths(b, m));
    }
  }

  /**
   * Because of clamping, adding months in two steps never lands later than
   * adding them in one step (31 January + 1 month + 1 month is 28 or 29 March,
   * 31 January + 2 months is 31 March).
   */
  lemma AddMonthsInStepsNotLater(d: Date, a: nat, b: nat)
    ensures NotAfter(AddMonths(AddMonths(d, a), b), AddMonths(d, a + b))
  {
    var two, one := AddMonths(AddMonths(d, a), b), AddMonths(d, a + b);
    MonthIndexInjective(two, one);
  }
}
