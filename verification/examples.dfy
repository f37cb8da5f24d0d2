/** Three worked bonds: an annual bond two whole years from maturity, a
    semi-annual bond whose month-end maturity drifts to the 28th as the walk
    passes through February, and a month-end bond two days from maturity
    whose previous coupon date, stepped forward, does not pass the analysis
    date. */
module Scenarios {
  import opened Wrappers
  import opened Calendar
  import opened Bonds
  import opened CouponWalk
  import opened Cashflows
  import opened Pricing

  const Mar2024: Date := CivilDate(2024, 3, 15)
  const Mar2025: Date := CivilDate(2025, 3, 15)
  const Mar2026: Date := CivilDate(2026, 3, 15)

  /** 5% annual coupon, maturing two years after the analysis date. */
  const AnnualBond := Bond(Some(Mar2026), None, "N", 5.0, Some(1))

  /** Coupons of 5 one and two years out, the principal between them on
      the maturity date, and nothing accrued: the clean price is the dirty
      price. */
  lemma TwoYearAnnualBond(discount: DiscountFactor, spread: real)
    ensures GetBondCashflows(AnnualBond, Mar2024).Ok?
    ensures GetBondCashflows(AnnualBond, Mar2024).value
      == [Cashflow(Mar2025, 5.0), Cashflow(Mar2026, 100.0), Cashflow(Mar2026, 5.0)]
    ensures AccruedInterest(AnnualBond, Mar2024) == Ok(0.0)
    ensures Price(AnnualBond, Mar2024, discount, spread).Ok?
    ensures Price(AnnualBond, Mar2024, discount, spread).value.Quote?
    ensures Price(AnnualBond, Mar2024, discount, spread).value.clean
      == Price(AnnualBond, Mar2024, discount, spread).value.dirty
  {
    AnnualSchedule();
    AnnualAccrual();
  }

  /** The two twelve-month steps back from maturity. */
  lemma AnnualWalk()
    ensures StepBack(Mar2026, 12) == Mar2025
    ensures StepBack(Mar2025, 12) == Mar2024
    ensures Walk(Mar2026, Mar2024, 12) == [Mar2026, Mar2025]
    ensures PreviousCoupon(Mar2026, Mar2024, 12) == Mar2024
  {
  }

  lemma AnnualSchedule()
    ensures GetBondCashflows(AnnualBond, Mar2024).Ok?
    ensures GetBondCashflows(AnnualBond, Mar2024).value
      == [Cashflow(Mar2025, 5.0), Cashflow(Mar2026, 100.0), Cashflow(Mar2026, 5.0)]
  {
    AnnualLayout();
    AnnualLiteral();
  }

  lemma AnnualLayout()
    ensures var w := Walk(Mar2026, Mar2024, 12);
      && GetBondCashflows(AnnualBond, Mar2024).Ok?
      && GetBondCashflows(AnnualBond, Mar2024).value
        == Coupons(Reverse(w[1..]), 5.0) + [Cashflow(Mar2026, Principal), Cashflow(Mar2026, 5.0)]
  {
    assert EffectiveMaturity(AnnualBond) == Some(Mar2026);
    assert AnnualBond.coupon == 5.0 && Frequency(AnnualBond) == 1;
    assert StepMonths(Frequency(AnnualBond)) == 12;
    assert CouponAmount(AnnualBond) == 5.0;
    ScheduleLayout(AnnualBond, Mar2024);
  }

  lemma AnnualLiteral()
    ensures var w := Walk(Mar2026, Mar2024, 12);
      Coupons(Reverse(w[1..]), 5.0) + [Cashflow(Mar2026, Principal), Cashflow(Mar2026, 5.0)]
        == [Cashflow(Mar2025, 5.0), Cashflow(Mar2026, 100.0), Cashflow(Mar2026, 5.0)]
  {
    var w := Walk(Mar2026, Mar2024, 12);
    AnnualWalk();
    assert w[1..] == [Mar2025];
    assert Reverse(w[1..]) == [Mar2025];
    assert Coupons([Mar2025], 5.0) == [Cashflow(Mar2025, 5.0)];
  }

  lemma AnnualAccrual()
    ensures AccruedInterest(AnnualBond, Mar2024) == Ok(0.0)
  {
    assert AccrualMaturity(AnnualBond) == Some(Mar2026);
    assert Frequency(AnnualBond) == 1;
    assert StepMonths(Frequency(AnnualBond)) == 12;
    AnnualWalk();
    assert PreviousCouponDate(AnnualBond, Mar2024) == Ok(Mar2024);
    assert YearFraction(Mar2024, Mar2024) == 0.0;
  }

  const Jun2024: Date := CivilDate(2024, 6, 1)
  const Aug31st2025: Date := CivilDate(2025, 8, 31)
  const Feb28th2025: Date := CivilDate(2025, 2, 28)
  const Aug28th2024: Date := CivilDate(2024, 8, 28)
  const Feb28th2024: Date := CivilDate(2024, 2, 28)

  /** 4% semi-annual coupon maturing on the 31st of August. */
  const SemiAnnualBond := Bond(Some(Aug31st2025), None, "N", 4.0, Some(2))

  /** Stepping back six months from the 31st of August reaches the 28th of
      February, and every earlier coupon then falls on the 28th: the
      August 2024 coupon is on the 28th, not the 31st. */
  lemma MonthEndDrift()
    ensures GetBondCashflows(SemiAnnualBond, Jun2024).Ok?
    ensures GetBondCashflows(SemiAnnualBond, Jun2024).value
      == [Cashflow(Aug28th2024, 2.0), Cashflow(Feb28th2025, 2.0), Cashflow(Aug31st2025, 100.0), Cashflow(Aug31st2025, 2.0)]
  {
    SemiAnnualLayout();
    DriftLayout();
  }

  /** The layout of the semi-annual schedule, written out. */
  lemma DriftLayout()
    ensures var w := Walk(Aug31st2025, Jun2024, 6);
      Coupons(Reverse(w[1..]), 2.0) + [Cashflow(Aug31st2025, Principal), Cashflow(Aug31st2025, 2.0)]
        == [Cashflow(Aug28th2024, 2.0), Cashflow(Feb28th2025, 2.0), Cashflow(Aug31st2025, 100.0), Cashflow(Aug31st2025, 2.0)]
  {
    var w := Walk(Aug31st2025, Jun2024, 6);
    DriftingWalk();
    assert w[1..] == [Feb28th2025, Aug28th2024];
    assert Reverse(w[1..]) == [Aug28th2024, Feb28th2025];
    assert Coupons([Aug28th2024, Feb28th2025], 2.0) == [Cashflow(Aug28th2024, 2.0), Cashflow(Feb28th2025, 2.0)];
  }

  /** The three six-month steps back from the 31st of August 2025. */
  lemma DriftingWalk()
    ensures StepBack(Aug31st2025, 6) == Feb28th2025
    ensures StepBack(Feb28th2025, 6) == Aug28th2024
    ensures StepBack(Aug28th2024, 6) == Feb28th2024
    ensures Walk(Aug31st2025, Jun2024, 6) == [Aug31st2025, Feb28th2025, Aug28th2024]
    ensures PreviousCoupon(Aug31st2025, Jun2024, 6) == Feb28th2024
  {
  }

  lemma SemiAnnualLayout()
    ensures var w := Walk(Aug31st2025, Jun2024, 6);
      && GetBondCashflows(SemiAnnualBond, Jun2024).Ok?
      && GetBondCashflows(SemiAnnualBond, Jun2024).value
        == Coupons(Reverse(w[1..]), 2.0) + [Cashflow(Aug31st2025, Principal), Cashflow(Aug31st2025, 2.0)]
  {
    assert EffectiveMaturity(SemiAnnualBond) == Some(Aug31st2025);
    assert SemiAnnualBond.coupon == 4.0 && Frequency(SemiAnnualBond) == 2;
    assert StepMonths(Frequency(SemiAnnualBond)) == 6;
    assert CouponAmount(SemiAnnualBond) == 2.0;
    DriftingWalk();
    ScheduleLayout(SemiAnnualBond, Jun2024);
  }

  /** Accrual for the same bond starts on the drifted 28th of February
      2024, 94 days before the analysis date. */
  lemma MonthEndDriftAccrual()
    ensures PreviousCouponDate(SemiAnnualBond, Jun2024) == Ok(Feb28th2024)
    ensures AccruedInterest(SemiAnnualBond, Jun2024) == Ok(4.0 * 94.0 / 365.0)
  {
    assert AccrualMaturity(SemiAnnualBond) == Some(Aug31st2025);
    assert SemiAnnualBond.coupon == 4.0 && Frequency(SemiAnnualBond) == 2;
    assert StepMonths(Frequency(SemiAnnualBond)) == 6;
    DriftingWalk();
    assert DaysBetween(Feb28th2024, Jun2024) == 94;
    assert YearFraction(Feb28th2024, Jun2024) == 94.0 / 365.0;
  }

  const Aug31st2024: Date := CivilDate(2024, 8, 31)
  const Aug29th2024: Date := CivilDate(2024, 8, 29)
  const Feb29th2024: Date := CivilDate(2024, 2, 29)

  /** A semi-annual bond maturing on the last day of August 2024. */
  const MonthEndBond := Bond(Some(Aug31st2024), None, "N", 4.0, Some(2))

  /** Two days before a month-end maturity the schedule still holds the
      maturity payments, and the previous coupon date is the 29th of
      February; six months on from it is the 29th of August, which is not
      after the analysis date. Stepping forward from the previous coupon
      date does not always land after the analysis date. */
  lemma ForwardStepFallsShort()
    ensures GetBondCashflows(MonthEndBond, Aug29th2024).Ok?
    ensures GetBondCashflows(MonthEndBond, Aug29th2024).value
      == [Cashflow(Aug31st2024, 100.0), Cashflow(Aug31st2024, 2.0)]
    ensures PreviousCouponDate(MonthEndBond, Aug29th2024) == Ok(Feb29th2024)
    ensures ShiftMonths(Feb29th2024, 6) == Aug29th2024
  {
    MonthEndLayout();
    MonthEndPrevious();
  }

  lemma MonthEndWalk()
    ensures StepBack(Aug31st2024, 6) == Feb29th2024
    ensures Walk(Aug31st2024, Aug29th2024, 6) == [Aug31st2024]
    ensures PreviousCoupon(Aug31st2024, Aug29th2024, 6) == Feb29th2024
    ensures ShiftMonths(Feb29th2024, 6) == Aug29th2024
  {
  }

  lemma MonthEndLayout()
    ensures GetBondCashflows(MonthEndBond, Aug29th2024).Ok?
    ensures GetBondCashflows(MonthEndBond, Aug29th2024).value
      == [Cashflow(Aug31st2024, 100.0), Cashflow(Aug31st2024, 2.0)]
  {
    assert EffectiveMaturity(MonthEndBond) == Some(Aug31st2024);
    assert MonthEndBond.coupon == 4.0 && Frequency(MonthEndBond) == 2;
    assert StepMonths(Frequency(MonthEndBond)) == 6;
    assert CouponAmount(MonthEndBond) == 2.0;
    MonthEndWalk();
    ScheduleLayout(MonthEndBond, Aug29th2024);
    assert Reverse(Walk(Aug31st2024, Aug29th2024, 6)[1..]) == [];
  }

  lemma MonthEndPrevious()
    ensures PreviousCouponDate(MonthEndBond, Aug29th2024) == Ok(Feb29th2024)
    ensures ShiftMonths(Feb29th2024, 6) == Aug29th2024
  {
    assert AccrualMaturity(MonthEndBond) == Some(Aug31st2024);
    assert Frequency(MonthEndBond) == 2;
    assert StepMonths(Frequency(MonthEndBond)) == 6;
    MonthEndWalk();
  }
}
