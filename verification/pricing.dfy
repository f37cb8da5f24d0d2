/** The price of a bond for a spread: the discounted sum of its schedule
    (dirty price), the coupon accrued since the previous coupon date, and
    the difference of the two (clean price). */
module Pricing {
  import opened Wrappers
  import opened Calendar
  import opened Bonds
  import opened CouponWalk
  import opened Cashflows

  /** `(dirty_price, accrued_interest, clean_price)`, or `(None, None, None)`. */
  datatype Quote = NoQuote | Quote(dirty: real, accrued: real, clean: real)

  /** The discount factor of a payment date for a spread, with the curve and
      the analysis date already fixed. */
  type DiscountFactor = (Date, real) -> real

  /** The present value of a list of cashflows: each amount times the
      discount factor of its date, summed in list order. */
  function DirtyPrice(cfs: seq<Cashflow>, discount: DiscountFactor, spread: real): (v: real)
    ensures |cfs| == 0 ==> v == 0.0
  {
    if |cfs| == 0 then 0.0
    else cfs[0].amount * discount(cfs[0].date, spread) + DirtyPrice(cfs[1..], discount, spread)
  }

  /** Present values add up over a split of the list. */
  lemma {:induction false} DirtyPriceAppend(a: seq<Cashflow>, b: seq<Cashflow>, discount: DiscountFactor, spread: real)
    ensures DirtyPrice(a + b, discount, spread) == DirtyPrice(a, discount, spread) + DirtyPrice(b, discount, spread)
  {
    if |a| > 0 {
      assert (a + b)[1..] == a[1..] + b;
      DirtyPriceAppend(a[1..], b, discount, spread);
    } else {
      assert a + b == b;
    }
  }

  /** Undiscounted, a list of equal coupons is worth their count times the
      amount. */
  lemma {:induction false} UndiscountedCoupons(dates: seq<Date>, c: real, discount: DiscountFactor, spread: real)
    requires forall d :: discount(d, spread) == 1.0
    ensures DirtyPrice(Coupons(dates, c), discount, spread) == (|dates| as real) * c
  {
    if |dates| > 0 {
      assert Coupons(dates, c)[1..] == Coupons(dates[1..], c);
      UndiscountedCoupons(dates[1..], c, discount, spread);
      var n := (|dates| - 1) as real;
      assert DirtyPrice(Coupons(dates, c), discount, spread) == c * 1.0 + n * c;
      assert c * 1.0 + n * c == (n + 1.0) * c;
    }
  }

  /** Actual/365 (Fixed) year fraction from `start` to `end`, never negative:
      whole days between the two dates over 365. */
  function YearFraction(start: Date, end: Date): (t: real)
    ensures t >= 0.0
    ensures OnOrBefore(start, end) ==> t * 365.0 == DaysBetween(start, end) as real
    ensures OnOrBefore(end, start) ==> t == 0.0
  {
    OrdinalOrder(start, end);
    OrdinalOrder(end, start);
    var days := DaysBetween(start, end);
    (if days < 0 then 0 else days) as real / 365.0
  }

  /** The coupon date accrual starts from: the maturity as resolved for the
      accrual, stepped back while it is after the analysis date. */
  function PreviousCouponDate(b: Bond, analysis: Date): (r: Result<Date, Fault>)
    ensures r.Ok? ==> OnOrBefore(r.value, analysis)
    ensures r.Err? && r.error == DivisionByZero <==> Frequency(b) == 0
    ensures r.Err? && r.error == MissingMaturity <==> Frequency(b) != 0 && AccrualMaturity(b).None?
    ensures r.Err? && r.error == NonTerminating <==>
      Frequency(b) != 0 && AccrualMaturity(b).Some? && After(AccrualMaturity(b).value, analysis)
      && !(1 <= Frequency(b) <= 12)
    ensures Frequency(b) != 0 && AccrualMaturity(b).Some? && OnOrBefore(AccrualMaturity(b).value, analysis)
      ==> r.Ok? && r.value == AccrualMaturity(b).value
  {
    if Frequency(b) == 0 then
      Err(DivisionByZero)
    else
      var step := StepMonths(Frequency(b));
      match AccrualMaturity(b)
      case None =>
        // the loop compares a missing date and does not run; the day count
        // of a missing date is undefined
        Err(MissingMaturity)
      case Some(maturity) =>
        if OnOrBefore(maturity, analysis) then Ok(maturity)
        else if step < 1 then Err(NonTerminating)
        else Ok(PreviousCoupon(maturity, analysis, step))
  }

  /** Interest accrued since the previous coupon date, per 100 of face
      value: the annual coupon times the Actual/365 (Fixed) year fraction
      (section 4.16(d) of the 2006 ISDA Definitions). */
  function AccruedInterest(b: Bond, analysis: Date): (r: Result<real, Fault>)
    ensures r.Err? <==> PreviousCouponDate(b, analysis).Err?
    ensures r.Err? ==> r.error == PreviousCouponDate(b, analysis).error
    ensures r.Ok? ==> r.value == Prorated(b.coupon, YearFraction(PreviousCouponDate(b, analysis).value, analysis))
    ensures r.Ok? && b.coupon >= 0.0 ==> r.value >= 0.0
  {
    AccrueSince(b.coupon, PreviousCouponDate(b, analysis), analysis)
  }

  /** Accrual from a previous coupon date that may have failed to resolve:
      a failure passes through unchanged. */
  function AccrueSince(coupon: real, previous: Result<Date, Fault>, analysis: Date): (r: Result<real, Fault>)
    ensures r.Err? <==> previous.Err?
    ensures r.Err? ==> r.error == previous.error
    ensures r.Ok? ==> r.value == Prorated(coupon, YearFraction(previous.value, analysis))
    ensures r.Ok? && coupon >= 0.0 ==> r.value >= 0.0
  {
    if previous.Err? then Err(previous.error)
    else Ok(Accrual(coupon, YearFraction(previous.value, analysis)))
  }

  /** An annual amount prorated over a fraction of a year. Kept as a named
      product so that contracts mentioning it compare terms rather than
      reason about nonlinear arithmetic. */
  function Prorated(annual: real, fraction: real): real
  {
    annual * fraction
  }

  /** `100 * rate * fraction` with the rate given in percent: the annual
      coupon, per 100 of face, prorated by the year fraction. */
  function Accrual(coupon: real, fraction: real): (a: real)
    requires fraction >= 0.0
    ensures a == Prorated(coupon, fraction)
    ensures coupon >= 0.0 ==> a >= 0.0
  {
    100.0 * (coupon / 100.0) * fraction
  }

  /** `calculate_bond_price(bond, curve, analysis_date, spread)`. */
  function Price(b: Bond, analysis: Date, discount: DiscountFactor, spread: real): (r: Result<Quote, Fault>)
    ensures r == Ok(NoQuote) <==> GetBondCashflows(b, analysis) == Ok([])
    ensures GetBondCashflows(b, analysis).Err? ==> r == Err(GetBondCashflows(b, analysis).error)
    ensures r.Ok? && r.value.Quote? ==>
      && r.value.dirty == DirtyPrice(GetBondCashflows(b, analysis).value, discount, spread)
      && r.value.dirty == r.value.accrued + r.value.clean
      && AccruedInterest(b, analysis) == Ok(r.value.accrued)
    ensures r.Ok? && r.value.Quote? && b.coupon >= 0.0 ==> r.value.accrued >= 0.0
  {
    match GetBondCashflows(b, analysis)
    case Err(e) => Err(e)
    case Ok(cfs) =>
      if cfs == [] then Ok(NoQuote)
      else
        var dirty := DirtyPrice(cfs, discount, spread);
        match AccruedInterest(b, analysis)
        case Err(e) => Err(e)
        case Ok(accrued) => Ok(Quote(dirty, accrued, dirty - accrued))
  }

  /** A non-empty schedule means a future effective maturity and a
      frequency from 1 to 12. */
  lemma NonEmptySchedule(b: Bond, analysis: Date)
    requires GetBondCashflows(b, analysis).Ok? && GetBondCashflows(b, analysis).value != []
    ensures EffectiveMaturity(b).Some? && After(EffectiveMaturity(b).value, analysis)
    ensures 1 <= Frequency(b) <= 12
  {
    ScheduleEmptyIff(b, analysis);
  }

  /** Pricing fails only where the schedule fails, or where the schedule
      exists but the accrual finds no maturity (a bond that is not callable,
      has no maturity and has a call date). */
  lemma PriceFailures(b: Bond, analysis: Date, discount: DiscountFactor, spread: real)
    ensures Price(b, analysis, discount, spread).Err? <==>
      || GetBondCashflows(b, analysis).Err?
      || (GetBondCashflows(b, analysis).Ok? && GetBondCashflows(b, analysis).value != []
          && !IsCallable(b) && b.maturity.None? && b.nextCallDate.Some?)
  {
    var cfs := GetBondCashflows(b, analysis);
    if cfs.Ok? && cfs.value != [] {
      NonEmptySchedule(b, analysis);
      MaturityResolutionsAgree(b);
    }
  }

  /** The previous coupon date sits one coupon step before the first
      scheduled payment, on or before the analysis date, while that payment
      is after it. */
  lemma AccrualPeriod(b: Bond, analysis: Date)
    requires GetBondCashflows(b, analysis).Ok? && GetBondCashflows(b, analysis).value != []
    requires PreviousCouponDate(b, analysis).Ok?
    ensures var previous := PreviousCouponDate(b, analysis).value;
      var next := GetBondCashflows(b, analysis).value[0].date;
      && OnOrBefore(previous, analysis)
      && After(next, analysis)
      && previous == StepBack(next, StepMonths(Frequency(b)))
  {
    NonEmptySchedule(b, analysis);
    MaturityResolutionsAgree(b);
    var maturity := EffectiveMaturity(b).value;
    var step := StepMonths(Frequency(b));
    var w := Walk(maturity, analysis, step);
    ScheduleLayout(b, analysis);
    EarlyCoupons(w, CouponAmount(b));
    PreviousCouponEndsWalk(maturity, analysis, step);
    assert GetBondCashflows(b, analysis).value[0].date == w[|w| - 1];
  }

  /** Stepping forward one period from the previous coupon date reaches
      the month of the first scheduled payment, on a day no later than its
      day; it reaches the payment itself, and so a date after `analysis`,
      when that payment falls on or before the 28th. A month-end payment
      can be missed: see `Scenarios.ForwardStepFallsShort`. */
  lemma StepForwardFromPrevious(b: Bond, analysis: Date)
    requires GetBondCashflows(b, analysis).Ok? && GetBondCashflows(b, analysis).value != []
    requires PreviousCouponDate(b, analysis).Ok?
    ensures 1 <= Frequency(b) <= 12
    ensures var previous := PreviousCouponDate(b, analysis).value;
      var next := GetBondCashflows(b, analysis).value[0].date;
      var forward := ShiftMonths(previous, StepMonths(Frequency(b)));
      && MonthIndex(forward) == MonthIndex(next)
      && forward.day <= next.day
      && (next.day <= 28 ==> forward == next && After(forward, analysis))
  {
    NonEmptySchedule(b, analysis);
    AccrualPeriod(b, analysis);
    StepForwardAfterBack(GetBondCashflows(b, analysis).value[0].date, StepMonths(Frequency(b)));
  }

  /** The spread moves the dirty and clean prices together and leaves the
      accrued interest alone. */
  lemma SpreadOnlyMovesDiscounting(b: Bond, analysis: Date, discount: DiscountFactor, s1: real, s2: real)
    requires Price(b, analysis, discount, s1).Ok? && Price(b, analysis, discount, s1).value.Quote?
    ensures Price(b, analysis, discount, s2).Ok? && Price(b, analysis, discount, s2).value.Quote?
    ensures Price(b, analysis, discount, s1).value.accrued == Price(b, analysis, discount, s2).value.accrued
    ensures Price(b, analysis, discount, s1).value.clean - Price(b, analysis, discount, s2).value.clean
      == Price(b, analysis, discount, s1).value.dirty - Price(b, analysis, discount, s2).value.dirty
  {
  }

  /** The sum of `n` coupons of `c`. */
  function CouponTotal(n: nat, c: real): real {
    (n as real) * c
  }

  /** Without discounting, the principal and the coupon paid on the
      maturity date are worth their sum. */
  lemma UndiscountedMaturity(maturity: Date, c: real, discount: DiscountFactor, spread: real)
    requires forall d :: discount(d, spread) == 1.0
    ensures DirtyPrice([Cashflow(maturity, Principal), Cashflow(maturity, c)], discount, spread) == Principal + c
  {
    var last := [Cashflow(maturity, Principal), Cashflow(maturity, c)];
    assert discount(maturity, spread) == 1.0;
    assert DirtyPrice(last[1..], discount, spread) == c * 1.0 + DirtyPrice(last[1..][1..], discount, spread);
    assert DirtyPrice(last, discount, spread) == Principal * 1.0 + DirtyPrice(last[1..], discount, spread);
  }

  /** Without discounting, a schedule laid out as the coupons of the walk
      `w` before maturity, the principal and the final coupon is worth the
      principal plus one coupon per walk date. */
  lemma UndiscountedLayout(maturity: Date, w: seq<Date>, c: real, discount: DiscountFactor, spread: real)
    requires forall d :: discount(d, spread) == 1.0
    requires |w| > 0
    ensures DirtyPrice(Coupons(Reverse(w[1..]), c) + [Cashflow(maturity, Principal), Cashflow(maturity, c)], discount, spread)
      == Principal + CouponTotal(|w|, c)
  {
    var early := Reverse(w[1..]);
    var last := [Cashflow(maturity, Principal), Cashflow(maturity, c)];
    DirtyPriceAppend(Coupons(early, c), last, discount, spread);
    UndiscountedCoupons(early, c, discount, spread);
    UndiscountedMaturity(maturity, c, discount, spread);
    var n := |early| as real;
    assert n + 1.0 == |w| as real;
    assert n * c + (Principal + c) == Principal + (n + 1.0) * c;
  }

  /** Without discounting, the dirty price is the principal plus one coupon
      per visited coupon date. */
  lemma UndiscountedDirtyPrice(b: Bond, analysis: Date, discount: DiscountFactor, spread: real)
    requires forall d :: discount(d, spread) == 1.0
    requires EffectiveMaturity(b).Some? && After(EffectiveMaturity(b).value, analysis)
    requires 1 <= Frequency(b) <= 12
    ensures var w := Walk(EffectiveMaturity(b).value, analysis, StepMonths(Frequency(b)));
      DirtyPrice(GetBondCashflows(b, analysis).value, discount, spread)
        == Principal + CouponTotal(|w|, CouponAmount(b))
  {
    ScheduleLayout(b, analysis);
    var w := Walk(EffectiveMaturity(b).value, analysis, StepMonths(Frequency(b)));
    UndiscountedLayout(EffectiveMaturity(b).value, w, CouponAmount(b), discount, spread);
  }
}
