/** Proleptic Gregorian calendar dates, the calendar-month offset used to
    step a coupon schedule, and the whole-day difference between two dates. */
module Calendar {

  datatype CivilDate = CivilDate(year: int, month: int, day: int)

  predicate IsLeapYear(y: int) {
    y % 4 == 0 && (y % 100 != 0 || y % 400 == 0)
  }

  function DaysInMonth(y: int, m: int): (n: int)
    requires 1 <= m <= 12
    ensures 28 <= n <= 31
    ensures m == 2 ==> (n == 29 <==> IsLeapYear(y))
  {
    if m == 2 then (if IsLeapYear(y) then 29 else 28)
    else if m == 4 || m == 6 || m == 9 || m == 11 then 30
    else 31
  }

  predicate ValidDate(d: CivilDate) {
    1 <= d.month <= 12 && 1 <= d.day <= DaysInMonth(d.year, d.month)
  }

  /** A calendar date with no time of day. */
  type Date = d: CivilDate | ValidDate(d) witness CivilDate(1970, 1, 1)

  /** Chronological order, compared field by field. */
  predicate Before(a: Date, b: Date) {
    || a.year < b.year
    || (a.year == b.year && a.month < b.month)
    || (a.year == b.year && a.month == b.month && a.day < b.day)
  }

  predicate After(a: Date, b: Date) {
    Before(b, a)
  }

  predicate OnOrBefore(a: Date, b: Date) {
    !Before(b, a)
  }

  function YearLength(y: int): int {
    if IsLeapYear(y) then 366 else 365
  }

  /** Days in the years before `y`, counted from 0001-01-01 (floor division,
      so it also holds for years before 1). */
  function DaysBeforeYear(y: int): int {
    var p := y - 1;
    365 * p + p / 4 - p / 100 + p / 400
  }

  /** Days in the months of year `y` before month `m`; `m == 13` gives the year. */
  function DaysBeforeMonth(y: int, m: int): int
    requires 1 <= m <= 13
  {
    [0, 31, 59, 90, 120, 151, 181, 212, 243, 273, 304, 334, 365][m - 1]
      + (if m > 2 && IsLeapYear(y) then 1 else 0)
  }

  /** The day number of `d`, 1 for 0001-01-01, as Python's `date.toordinal`. */
  function Ordinal(d: Date): int {
    DaysBeforeYear(d.year) + DaysBeforeMonth(d.year, d.month) + d.day
  }

  /** `(later - earlier).days` of two midnight timestamps: positive exactly
      when `earlier` is before `later`, zero exactly for the same date. */
  function DaysBetween(earlier: Date, later: Date): (n: int)
    ensures n > 0 <==> Before(earlier, later)
    ensures n == 0 <==> earlier == later
  {
    OrdinalOrder(earlier, later);
    Ordinal(later) - Ordinal(earlier)
  }

  /** The calendar day after `d`: the next day of the month, the first of the
      next month, or the first of January of the next year. */
  function NextDay(d: Date): (r: Date)
    ensures Before(d, r)
    ensures Ordinal(r) == Ordinal(d) + 1
  {
    if d.day < DaysInMonth(d.year, d.month) then
      CivilDate(d.year, d.month, d.day + 1)
    else if d.month < 12 then
      DaysBeforeMonthStep(d.year, d.month);
      CivilDate(d.year, d.month + 1, 1)
    else
      DaysBeforeMonthStep(d.year, 12);
      DaysBeforeYearStep(d.year);
      CivilDate(d.year + 1, 1, 1)
  }

  /** The date `n` calendar days after `d`, one day at a time. */
  function AddDays(d: Date, n: nat): Date
    decreases n
  {
    if n == 0 then d else AddDays(NextDay(d), n - 1)
  }

  /** The day difference counts calendar days: `n` days after `d` is `n`
      days away from it. */
  lemma {:induction false} DaysBetweenCountsDays(d: Date, n: nat)
    ensures DaysBetween(d, AddDays(d, n)) == n
    decreases n
  {
    if n > 0 {
      DaysBetweenCountsDays(NextDay(d), n - 1);
    }
  }

  lemma FirstDayOrdinal()
    ensures Ordinal(CivilDate(1, 1, 1)) == 1
  {
  }

  lemma EpochOrdinal()
    ensures Ordinal(CivilDate(1970, 1, 1)) == 719163
  {
    assert DaysBeforeYear(1970) == 719162;
    assert DaysBeforeMonth(1970, 1) == 0;
  }

  lemma FloorDivSteps(p: int)
    ensures (p + 1) / 4 - p / 4 == (if (p + 1) % 4 == 0 then 1 else 0)
    ensures (p + 1) / 100 - p / 100 == (if (p + 1) % 100 == 0 then 1 else 0)
    ensures (p + 1) / 400 - p / 400 == (if (p + 1) % 400 == 0 then 1 else 0)
  {
  }

  lemma DivisibilityChain(y: int)
    ensures y % 400 == 0 ==> y % 100 == 0
    ensures y % 100 == 0 ==> y % 4 == 0
  {
  }

  /** Consecutive year starts are one year length apart. */
  lemma {:induction false} DaysBeforeYearStep(y: int)
    ensures DaysBeforeYear(y + 1) == DaysBeforeYear(y) + YearLength(y)
  {
    FloorDivSteps(y - 1);
    DivisibilityChain(y);
  }

  lemma {:induction false} DaysBeforeYearMonotone(a: int, b: int)
    requires a <= b
    ensures DaysBeforeYear(a) <= DaysBeforeYear(b)
    decreases b - a
  {
    if a < b {
      DaysBeforeYearStep(a);
      DaysBeforeYearMonotone(a + 1, b);
    }
  }

  lemma DaysBeforeMonthStep(y: int, m: int)
    requires 1 <= m <= 12
    ensures DaysBeforeMonth(y, m + 1) == DaysBeforeMonth(y, m) + DaysInMonth(y, m)
  {
  }

  /** A date's day number lies within its own year. */
  lemma OrdinalWithinYear(d: Date)
    ensures DaysBeforeYear(d.year) < Ordinal(d) <= DaysBeforeYear(d.year + 1)
  {
    DaysBeforeMonthStep(d.year, d.month);
    DaysBeforeYearStep(d.year);
    assert DaysBeforeMonth(d.year, d.month + 1) <= DaysBeforeMonth(d.year, 13);
  }

  /** Field-wise order is chronological order: `Before` agrees with the
      order of day numbers, so comparing dates and subtracting them agree. */
  lemma OrdinalOrder(a: Date, b: Date)
    ensures Before(a, b) <==> Ordinal(a) < Ordinal(b)
    ensures a == b <==> Ordinal(a) == Ordinal(b)
  {
    if a.year != b.year {
      var (p, q) := if a.year < b.year then (a, b) else (b, a);
      OrdinalWithinYear(p);
      OrdinalWithinYear(q);
      DaysBeforeYearMonotone(p.year + 1, q.year);
    } else if a.month != b.month {
      var (p, q) := if a.month < b.month then (a, b) else (b, a);
      DaysBeforeMonthStep(p.year, p.month);
      assert DaysBeforeMonth(p.year, p.month + 1) <= DaysBeforeMonth(q.year, q.month);
    }
  }

  /** Months elapsed since January of year 0. */
  function MonthIndex(d: Date): int {
    d.year * 12 + d.month - 1
  }

  lemma MonthIndexOrder(a: Date, b: Date)
    ensures MonthIndex(a) < MonthIndex(b) ==> Before(a, b)
  {
  }

  /** `d + DateOffset(months=k)`: the month moves by `k` (back when `k < 0`)
      and the day is kept, unless the target month is shorter, in which case
      it becomes that month's last day. */
  function ShiftMonths(d: Date, k: int): (r: Date)
    ensures MonthIndex(r) == MonthIndex(d) + k
    ensures r.day <= d.day
    ensures r.day == d.day || r.day == DaysInMonth(r.year, r.month)
    ensures k < 0 ==> Before(r, d)
    ensures k > 0 ==> Before(d, r)
    ensures k == 0 ==> r == d
  {
    var idx := MonthIndex(d) + k;
    var y := idx / 12;
    var m := idx % 12 + 1;
    var last := DaysInMonth(y, m);
    var r: Date := CivilDate(y, m, if d.day <= last then d.day else last);
    MonthIndexOrder(r, d);
    MonthIndexOrder(d, r);
    r
  }

  /** A date is determined by its month index and its day. */
  lemma MonthIndexInjective(a: Date, b: Date)
    requires MonthIndex(a) == MonthIndex(b) && a.day == b.day
    ensures a == b
  {
  }

  /** Moving back and forth by the same number of months is the identity
      whenever the day exists in every month. */
  lemma ShiftMonthsRoundTrip(d: Date, k: int)
    requires d.day <= 28
    ensures ShiftMonths(ShiftMonths(d, k), -k) == d
  {
    MonthIndexInjective(ShiftMonths(ShiftMonths(d, k), -k), d);
  }

  /** Past the 28th the round trip can lose days: the 31st of March moved one
      month back is the 29th of February 2024, and moved forward again is
      the 29th of March. */
  lemma ShiftMonthsDrift()
    ensures ShiftMonths(CivilDate(2024, 3, 31), -1) == CivilDate(2024, 2, 29)
    ensures ShiftMonths(ShiftMonths(CivilDate(2024, 3, 31), -1), 1) == CivilDate(2024, 3, 29)
  {
  }
}
