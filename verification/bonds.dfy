/** The bond record read by the valuation functions, the two ways the
    source resolves a bond's effective maturity, and the coupon frequency
    and month step derived from the record. */
module Bonds {
  import opened Wrappers
  import opened Calendar

  /** One row of the bond table, its fields already parsed. */
  datatype Bond = Bond(
    maturity: Option<Date>,         // "Maturity"
    nextCallDate: Option<Date>,     // "Next Call Date"
    callable: string,               // "Callable"; "Y" marks a callable bond
    coupon: real,                   // "Coupon", annual rate in percent of the 100 face
    couponFrequency: Option<int>)   // "Coupon Frequency", payments per year

  /** Why a valuation function produces no value. */
  datatype Fault =
    | DivisionByZero    // a coupon frequency of 0 reaches a division
    | NonTerminating    // a month step of 0 or less: the backward walk never ends
    | MissingMaturity   // the accrual start date is undefined (arithmetic on a missing date)

  predicate IsCallable(b: Bond) {
    b.callable == "Y"
  }

  /** The date the cashflow schedule is built back from: the next call date
      stands in for the maturity of a callable bond, and of a bond with no
      maturity, whenever it is present. */
  function EffectiveMaturity(b: Bond): (r: Option<Date>)
    ensures r.None? <==> b.maturity.None? && b.nextCallDate.None?
    ensures IsCallable(b) && b.nextCallDate.Some? ==> r == b.nextCallDate
    ensures b.maturity.None? ==> r == b.nextCallDate
    ensures !IsCallable(b) && b.maturity.Some? ==> r == b.maturity
    ensures b.nextCallDate.None? ==> r == b.maturity
  {
    var maturity := b.maturity;
    if IsCallable(b) || maturity.None? then
      (if b.nextCallDate.Some? then b.nextCallDate else maturity)
    else maturity
  }

  /** The date the accrual computation walks back from. Unlike
      `EffectiveMaturity`, a missing maturity is not replaced by the call
      date unless the bond is callable. */
  function AccrualMaturity(b: Bond): (r: Option<Date>)
    ensures IsCallable(b) && b.nextCallDate.Some? ==> r == b.nextCallDate
    ensures !(IsCallable(b) && b.nextCallDate.Some?) ==> r == b.maturity
  {
    if IsCallable(b) && b.nextCallDate.Some? then b.nextCallDate else b.maturity
  }

  /** The two resolutions agree except for a non-callable bond with no
      maturity but a call date, where only the schedule finds a date. */
  lemma MaturityResolutionsAgree(b: Bond)
    ensures AccrualMaturity(b) == EffectiveMaturity(b) || AccrualMaturity(b).None?
    ensures AccrualMaturity(b) != EffectiveMaturity(b)
      <==> !IsCallable(b) && b.maturity.None? && b.nextCallDate.Some?
  {
  }

  /** Coupon payments per year; 1 when the field is missing. */
  function Frequency(b: Bond): (f: int)
    ensures b.couponFrequency.None? ==> f == 1
    ensures b.couponFrequency.Some? ==> f == b.couponFrequency.value
  {
    match b.couponFrequency
    case None => 1
    case Some(f) => f
  }

  /** The amount paid at each coupon date per 100 of face value; over a
      year the payments add up to the annual coupon. */
  function CouponAmount(b: Bond): (c: real)
    requires Frequency(b) != 0
    ensures c * (Frequency(b) as real) == b.coupon
    ensures b.coupon >= 0.0 && Frequency(b) > 0 ==> c >= 0.0
  {
    100.0 * (b.coupon / 100.0) / (Frequency(b) as real)
  }

  /** `int(12 / freq)`: the whole number of months between coupon dates,
      the exact quotient truncated toward zero, listed for the frequencies
      where it is not 0 (see `StepMonthsIsTruncatedQuotient`). */
  function StepMonths(freq: int): (m: int)
    requires freq != 0
    ensures m >= 1 <==> 1 <= freq <= 12
    ensures freq > 12 || freq <= -13 ==> m == 0
    ensures freq < 0 ==> m <= 0
  {
    if freq > 12 || freq < -12 then 0
    else if freq > 0 then [12, 6, 4, 3, 2, 2, 1, 1, 1, 1, 1, 1][freq - 1]
    else -[12, 6, 4, 3, 2, 2, 1, 1, 1, 1, 1, 1][-freq - 1]
  }

  /** The step is 12 divided by the frequency, rounded toward zero. */
  lemma StepMonthsIsTruncatedQuotient(freq: int)
    requires freq != 0
    ensures freq > 0 ==> StepMonths(freq) == 12 / freq
    ensures freq < 0 ==> StepMonths(freq) == -(12 / -freq)
  {
  }

  /** For a frequency from 1 to 12 the step is the largest whole number of
      months that fits `freq` times into a year. */
  lemma StepMonthsFits(freq: int)
    requires 1 <= freq <= 12
    ensures StepMonths(freq) * freq <= 12 < (StepMonths(freq) + 1) * freq
  {
  }
}
