/**
 * Proleptic Gregorian calendar dates, as Python's `datetime.date`, with the
 * two pieces of arithmetic the billing engine uses:
 * - `AddMonths`, which is `d + relativedelta(months=n)` from dateutil: the
 *   month moves forward and the day is clamped to the end of the new month;
 * - `AddDays`, which is `d + timedelta(days=n)`.
 * `Ordinal` (Python's `date.toordinal`) is an independent count of days that
 * both the day arithmetic and the date order are checked against.
 */
module Dates {

  datatype CalendarDate = CalendarDate(year: int, month: int, day: int)

  predicate IsLeapYear(y: int) {
    y % 4 == 0 && (y % 100 != 0 || y % 400 == 0)
  }

  function DaysInMonth(y: int, m: int): (n: int)
    requires 1 <= m <= 12
    ensures 28 <= n <= 31
    ensures m == 2 ==> (n == 29 <==> IsLeapYear(y))
  {
    if m == 2 then (if IsLeapYear(y) then 29 else 28)
    else if m == 4 || m == 6 || m == 9 || m == 11 then 30
    else 31
  }

  predicate IsValidDate(d: CalendarDate) {
    1 <= d.year && 1 <= d.month <= 12 && 1 <= d.day <= DaysInMonth(d.year, d.month)
  }

  /** A date that Python's `date` constructor accepts (the upper year bound 9999 is not modelled). */
  type Date = d: CalendarDate | IsValidDate(d) witness CalendarDate(1, 1, 1)

  /** Python's `a < b` on dates: year, then month, then day. */
  predicate Before(a: Date, b: Date) {
    a.year < b.year
    || (a.year == b.year && a.month < b.month)
    || (a.year == b.year && a.month == b.month && a.day < b.day)
  }

  /** Python's `a <= b` on dates. */
  predicate OnOrBefore(a: Date, b: Date) {
    Before(a, b) || a == b
  }

  function Min(a: int, b: int): int {
    if a <= b then a else b
  }

  /** `d + relativedelta(months=n)`: the day is clamped to the last day of the target month. */
  function AddMonths(d: Date, n: nat): (r: Date)
    ensures r.day <= d.day
    ensures r.day == d.day || r.day == DaysInMonth(r.year, r.month)
  {
    var total := d.month - 1 + n;
    var y := d.year + total / 12;
    var m := total % 12 + 1;
    CalendarDate(y, m, Min(d.day, DaysInMonth(y, m)))
  }

  /** The day after `d`. */
  function NextDay(d: Date): Date {
    if d.day < DaysInMonth(d.year, d.month) then CalendarDate(d.year, d.month, d.day + 1)
    else if d.month < 12 then CalendarDate(d.year, d.month + 1, 1)
    else CalendarDate(d.year + 1, 1, 1)
  }

  /** `d + timedelta(days=n)` for a non-negative `n`. */
  function AddDays(d: Date, n: nat): Date
    decreases n
  {
    if n == 0 then d else AddDays(NextDay(d), n - 1)
  }

  // ---------------------------------------------------------------------------
  // Reference day count (Python's toordinal: 0001-01-01 is day 1)

  function DaysInYear(y: int): int {
    if IsLeapYear(y) then 366 else 365
  }

  /** Days in the years before year `y`, in the closed form Python's datetime module uses. */
  function DaysBeforeYear(y: int): int
    requires 1 <= y
  {
    var prior := y - 1;
    prior * 365 + prior / 4 - prior / 100 + prior / 400
  }

  function DaysBeforeMonth(y: int, m: int): nat
    requires 1 <= m <= 12
  {
    [0, 31, 59, 90, 120, 151, 181, 212, 243, 273, 304, 334][m - 1]
    + (if m > 2 && IsLeapYear(y) then 1 else 0)
  }

  function Ordinal(d: Date): int {
    DaysBeforeYear(d.year) + DaysBeforeMonth(d.year, d.month) + d.day
  }

  /** Months since the start of year 0, which orders dates by year and month. */
  function MonthIndex(d: Date): int {
    d.year * 12 + d.month - 1
  }

  // ---------------------------------------------------------------------------
  // Lemmas

  /** Adding zero months is the identity. */
  lemma AddMonthsZero(d: Date)
    ensures AddMonths(d, 0) == d
  {
    assert (d.month - 1) / 12 == 0 && (d.month - 1) % 12 == d.month - 1;
  }

  /** Adding `n` months moves the year-month pair exactly `n` months forward. */
  lemma AddMonthsIndex(d: Date, n: nat)
    ensures MonthIndex(AddMonths(d, n)) == MonthIndex(d) + n
  {
    var total := d.month - 1 + n;
    assert total == (total / 12) * 12 + total % 12;
  }

  /** A later year-month means a later date, whatever the days. */
  lemma MonthIndexOrder(a: Date, b: Date)
    requires MonthIndex(a) < MonthIndex(b)
    ensures Before(a, b)
  {
  }

  /** Month offsets from one start date give strictly increasing dates. */
  lemma AddMonthsStrictlyIncreasing(d: Date, i: nat, j: nat)
    requires i < j
    ensures Before(AddMonths(d, i), AddMonths(d, j))
  {
    AddMonthsIndex(d, i);
    AddMonthsIndex(d, j);
    MonthIndexOrder(AddMonths(d, i), AddMonths(d, j));
  }

  /** A date lies strictly before the same date moved forward by a positive number of months. */
  lemma AddMonthsLater(d: Date, n: nat)
    requires 0 < n
    ensures Before(d, AddMonths(d, n))
  {
    AddMonthsZero(d);
    AddMonthsStrictlyIncreasing(d, 0, n);
  }

  lemma DaysBeforeNextMonth(y: int, m: int)
    requires 1 <= m < 12
    ensures DaysBeforeMonth(y, m + 1) == DaysBeforeMonth(y, m) + DaysInMonth(y, m)
  {
  }

  lemma DaysBeforeEndOfYear(y: int)
    ensures DaysBeforeMonth(y, 12) + DaysInMonth(y, 12) == DaysInYear(y)
  {
  }

  /** `NextDay` is one day later by the reference count. */
  lemma NextDayOrdinal(d: Date)
    ensures Ordinal(NextDay(d)) == Ordinal(d) + 1
  {
    if d.day < DaysInMonth(d.year, d.month) {
    } else if d.month < 12 {
      DaysBeforeNextMonth(d.year, d.month);
    } else {
      DaysBeforeEndOfYear(d.year);
      DaysBeforeNextYear(d.year);
    }
  }

  /** `AddDays(d, n)` is exactly `n` days later by the reference count. */
  lemma {:induction false} AddDaysOrdinal(d: Date, n: nat)
    ensures Ordinal(AddDays(d, n)) == Ordinal(d) + n
    decreases n
  {
    if n > 0 {
      NextDayOrdinal(d);
      AddDaysOrdinal(NextDay(d), n - 1);
    }
  }

  lemma {:induction false} DaysBeforeMonthIncreasing(y: int, m1: int, m2: int)
    requires 1 <= m1 < m2 <= 12
    ensures DaysBeforeMonth(y, m1) + DaysInMonth(y, m1) <= DaysBeforeMonth(y, m2)
    decreases m2 - m1
  {
    DaysBeforeNextMonth(y, m1);
    if m1 + 1 < m2 {
      DaysBeforeMonthIncreasing(y, m1 + 1, m2);
    }
  }

  /** Counting multiples of `d` up to `y` gains one exactly at a multiple of `d`. */
  lemma MultiplesStep(y: int, d: int)
    requires d == 4 || d == 100 || d == 400
    ensures y / d == (y - 1) / d + (if y % d == 0 then 1 else 0)
  {
    var q, r := (y - 1) / d, (y - 1) % d;
    assert y - 1 == d * q + r && 0 <= r < d;
    if r == d - 1 {
      assert y == d * (q + 1);
    } else {
      assert y == d * q + (r + 1);
    }
  }

  /** The closed form adds one year's length per year. */
  lemma DaysBeforeNextYear(y: int)
    requires 1 <= y
    ensures DaysBeforeYear(y + 1) == DaysBeforeYear(y) + DaysInYear(y)
  {
    MultiplesStep(y, 4);
    MultiplesStep(y, 100);
    MultiplesStep(y, 400);
    DivisibilityChain(y);
    var a, b := DaysBeforeYear(y + 1), DaysBeforeYear(y);
    assert a - b == 365 + (y / 4 - (y - 1) / 4) - (y / 100 - (y - 1) / 100) + (y / 400 - (y - 1) / 400);
  }

  /** A multiple of 400 is a multiple of 100, and a multiple of 100 is a multiple of 4. */
  lemma DivisibilityChain(y: int)
    ensures y % 400 == 0 ==> y % 100 == 0
    ensures y % 100 == 0 ==> y % 4 == 0
  {
    if y % 400 == 0 {
      MultipleOf400(y);
    }
    if y % 100 == 0 {
      MultipleOf100(y);
    }
  }

  lemma MultipleOf400(y: int)
    requires y % 400 == 0
    ensures y % 100 == 0
  {
    var q := y / 400;
    assert y == 100 * (4 * q);
  }

  lemma MultipleOf100(y: int)
    requires y % 100 == 0
    ensures y % 4 == 0
  {
    var q := y / 100;
    assert y == 4 * (25 * q);
  }

  lemma {:induction false} DaysBeforeYearIncreasing(y1: int, y2: int)
    requires 1 <= y1 < y2
    ensures DaysBeforeYear(y1) + DaysInYear(y1) <= DaysBeforeYear(y2)
    decreases y2 - y1
  {
    DaysBeforeNextYear(y1);
    if y1 + 1 < y2 {
      DaysBeforeYearIncreasing(y1 + 1, y2);
      assert DaysInYear(y1 + 1) >= 0;
    }
  }

  /** The day of the year of `d` lies within its year. */
  lemma DayOfYearBound(d: Date)
    ensures DaysBeforeMonth(d.year, d.month) + d.day <= DaysInYear(d.year)
  {
    if d.month < 12 {
      DaysBeforeMonthIncreasing(d.year, d.month, 12);
    }
    DaysBeforeEndOfYear(d.year);
  }

  lemma BeforeByOrdinal(a: Date, b: Date)
    requires Before(a, b)
    ensures Ordinal(a) < Ordinal(b)
  {
    if a.year < b.year {
      DayOfYearBound(a);
      DaysBeforeYearIncreasing(a.year, b.year);
    } else if a.month < b.month {
      DaysBeforeMonthIncreasing(a.year, a.month, b.month);
    }
  }

  /** Python's date order agrees with the reference day count, in both directions. */
  lemma OrdinalOrder(a: Date, b: Date)
    ensures Before(a, b) <==> Ordinal(a) < Ordinal(b)
    ensures OnOrBefore(a, b) <==> Ordinal(a) <= Ordinal(b)
  {
    if Before(a, b) {
      BeforeByOrdinal(a, b);
    } else if a != b {
      assert Before(b, a);
      BeforeByOrdinal(b, a);
    }
  }

  /** Moving forward a positive number of days gives a strictly later date. */
  lemma AddDaysLater(d: Date, n: nat)
    requires 0 < n
    ensures Before(d, AddDays(d, n))
  {
    AddDaysOrdinal(d, n);
    OrdinalOrder(d, AddDays(d, n));
  }

  /** The month after `a`'s: the next month of the same year, or January of the next year. */
  lemma NextMonthIndex(a: Date, b: Date)
    requires MonthIndex(b) == MonthIndex(a) + 1
    ensures a.month < 12 ==> b.year == a.year && b.month == a.month + 1
    ensures a.month == 12 ==> b.year == a.year + 1 && b.month == 1
  {
    assert a.year <= b.year <= a.year + 1;
  }

  /** The first day of the month after `a`'s lies `DaysInMonth - day + 1` days after `a`. */
  lemma NextMonthStart(a: Date, b: Date)
    requires MonthIndex(b) == MonthIndex(a) + 1 && b.day == 1
    ensures Ordinal(b) == Ordinal(a) - a.day + DaysInMonth(a.year, a.month) + 1
  {
    NextMonthIndex(a, b);
    if a.month < 12 {
      DaysBeforeNextMonth(a.year, a.month);
    } else {
      DaysBeforeEndOfYear(a.year);
      DaysBeforeNextYear(a.year);
    }
  }

  function FirstOfNextMonth(d: Date): (r: Date)
    ensures MonthIndex(r) == MonthIndex(d) + 1 && r.day == 1
  {
    if d.month < 12 then CalendarDate(d.year, d.month + 1, 1) else CalendarDate(d.year + 1, 1, 1)
  }

  /** Dates at least two calendar months apart are more than 28 days apart. */
  lemma MonthsApart(a: Date, b: Date)
    requires MonthIndex(a) + 2 <= MonthIndex(b)
    ensures Ordinal(a) + 28 < Ordinal(b)
  {
    var f := FirstOfNextMonth(a);
    var g := FirstOfNextMonth(f);
    NextMonthStart(a, f);
    NextMonthStart(f, g);
    if MonthIndex(g) < MonthIndex(b) {
      MonthIndexOrder(g, b);
    }
    OrdinalOrder(g, b);
  }

  lemma BeforeTransitive(a: Date, b: Date, c: Date)
    requires Before(a, b) && Before(b, c)
    ensures Before(a, c)
  {
  }

  /** `a < b` rules out `b <= a`. */
  lemma BeforeExcludes(a: Date, b: Date)
    requires Before(a, b)
    ensures !OnOrBefore(b, a)
  {
  }

  lemma OnOrBeforeTransitive(a: Date, b: Date, c: Date)
    requires OnOrBefore(a, b) && OnOrBefore(b, c)
    ensures OnOrBefore(a, c)
  {
  }
}
