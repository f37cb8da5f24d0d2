# Bond cashflow schedule and accrued interest

This project models the calendar core of a small bond-valuation engine: how a bond's
cashflow schedule is built from its maturity, call date and coupon frequency, and how the
bond price function turns that schedule into a dirty price, accrued interest and clean
price. The model is in Dafny and is proved against its own contracts.

- `get_bond_cashflows(bond, analysis_date)`:
  - It resolves an *effective maturity*: the next call date for a callable bond, and for a
    bond with no maturity, whenever a call date is present.
  - It walks back from that date in steps of `int(12 / freq)` calendar months while the
    date is after the analysis date. It emits a coupon of `100 · coupon / 100 / freq` at
    every visited date.
  - It adds a principal of 100 at the effective maturity.
  - It sorts the list by date (a stable sort) and keeps the entries strictly after the
    analysis date.
- `calculate_bond_price(bond, curve, analysis_date, spread)`:
  - It returns no quote when the schedule is empty. Otherwise it discounts the schedule
    into the dirty price.
  - It resolves the maturity again under slightly different rules. It walks back with the
    same step to the previous coupon date, on or before the analysis date.
  - The accrued interest is the annual coupon times the Actual/365 (Fixed) year fraction
    since that date, floored at zero days. This is the day count of section 4.16(d) of the
    2006 ISDA Definitions.
  - The clean price is the dirty price minus the accrued interest.

Modules, one per file:

| file | module | contents |
|---|---|---|
| `wrappers.dfy` | `Wrappers` | `Option`, `Result` |
| `calendar.dfy` | `Calendar` | proleptic Gregorian dates; the day number of a date (Python's `toordinal`); `DateOffset(months=k)` as `ShiftMonths` |
| `bonds.dfy` | `Bonds` | the bond record, the two maturity resolutions, the frequency, the coupon amount, the month step, the failure kinds |
| `coupon_walk.dfy` | `CouponWalk` | the backward loop shared by the schedule and the accrual |
| `cashflows.dfy` | `Cashflows` | the stable sort, the filter, and `GetBondCashflows` with its exact layout |
| `pricing.dfy` | `Pricing` | previous coupon date, accrued interest, dirty/clean price |
| `examples.dfy` | `Scenarios` | three worked bonds, with literal dates and amounts |

Modelling decisions:

- **Dates.** Dates are validated `(year, month, day)` records. `Before` compares them field
  by field. `Calendar.OrdinalOrder` proves that this order is the order of day numbers.
  A pandas `.days` difference is `DaysBetween`, a difference of day numbers.
- **Month arithmetic.** `date - DateOffset(months=m)` moves the month index back by `m`.
  It clamps the day to the length of the target month, leap years included. Repeated
  steps can therefore drift the day downward: a 29th, 30th or 31st becomes the last day of
  February (the 28th, or the 29th in a leap year) when the walk passes through February,
  and the day never rises again (`Calendar.ShiftMonths` never raises the day).
- **Frequency.** The source divides by it and only loops while the date is after the
  analysis date. So a bad frequency is not a precondition; it is an outcome:
  - `Err(DivisionByZero)` for a frequency of 0;
  - `Err(NonTerminating)` when `int(12 / freq)` is 0 or negative, i.e. a frequency above 12
    or below 0. The loop then never ends; `CouponWalk.NoProgressNeverEnds` proves this.
  - In the schedule, either error occurs only when the effective maturity is after the
    analysis date. Otherwise the loop body never runs and the schedule is empty.
  - The accrual computes `int(12 / freq)` before its loop (line 77), so there a frequency
    of 0 gives `Err(DivisionByZero)` whatever the dates (`Pricing.PreviousCouponDate`).
    The endless loop, as in the schedule, needs a future accrual maturity.

  `int(12 / freq)` truncates toward zero. `Bonds.StepMonths` lists its values, and
  `Bonds.StepMonthsIsTruncatedQuotient` ties the list to the quotient.
- **Amounts.** Amounts are exact `real`s.
- **Discounting.** The discount factor is a parameter `(date, spread) -> real`. The curve,
  the interpolation and the exponential stay outside the model.
- **Order at maturity.** The principal and the last coupon share the maturity date. The
  code appends the principal first and sorts stably, so the principal comes *before* the
  maturity coupon, and the two are separate entries. The schedule is the earlier coupons,
  earliest first, then `(maturity, 100)`, then `(maturity, coupon)`
  (`Cashflows.ScheduleLayout`).
- **Accrual with a missing maturity.** The accrual resolves the maturity differently from
  the schedule (lines 72–74 against lines 11–13). For a bond that is not callable, has no
  maturity and has a call date, the schedule exists but the accrual starts from a missing
  date. The source then computes with a missing value. The model returns
  `Err(MissingMaturity)`, and `Pricing.PriceFailures` states exactly when this happens.
- **Stepping forward from the previous coupon date.** One might expect a step forward from
  the previous coupon date to land after the analysis date. That is not always so:
  - Example: a semi-annual bond maturing on 2024-08-31, analysed on 2024-08-29. The
    previous coupon date is 2024-02-29, and six months on is 2024-08-29, not after the
    analysis date (`Scenarios.ForwardStepFallsShort`).
  - What holds in general (`Pricing.StepForwardFromPrevious`): the forward step reaches the
    month of the first payment, on a day no later than its day. It reaches the payment
    itself when that payment is on or before the 28th.

## Model

| member | source | states |
|---|---|---|
| Bonds.EffectiveMaturity | src/auxiliar_functions.py:8-15 | the call date replaces the maturity when the bond is callable or has no maturity and the call date is present; otherwise the maturity; missing exactly when both dates are missing |
| Bonds.AccrualMaturity | src/auxiliar_functions.py:72-74 | the accrual uses the call date only for a callable bond with a call date, otherwise the maturity as given (possibly missing); what this means against the schedule's resolution is stated by `Bonds.MaturityResolutionsAgree` |
| Bonds.MaturityResolutionsAgree | src/auxiliar_functions.py:11-13 | the two resolutions agree, or the accrual one is missing; they differ exactly for a non-callable bond with no maturity and a call date |
| Bonds.Frequency | src/auxiliar_functions.py:18 | coupons per year, 1 when the field is missing |
| Bonds.CouponAmount | src/auxiliar_functions.py:17-18 | the per-period amount times the frequency is the annual coupon; non-negative for a non-negative coupon and positive frequency |
| Bonds.StepMonths | src/auxiliar_functions.py:29 | the month step is at least 1 exactly for frequencies 1 to 12; 0 above 12 or below -12; never positive for a negative frequency |
| Bonds.StepMonthsIsTruncatedQuotient | src/auxiliar_functions.py:29 | the step equals 12 divided by the frequency truncated toward zero, for both signs |
| Bonds.StepMonthsFits | src/auxiliar_functions.py:29 | for frequencies 1 to 12 the step is the largest whole number of months that fits the frequency times into a year |
| Calendar.OrdinalOrder | src/auxiliar_functions.py:26 | comparing dates field by field agrees with comparing their day numbers, and equal day numbers mean equal dates |
| Calendar.FirstDayOrdinal | src/auxiliar_functions.py:82 | the day number of 0001-01-01 is 1 (the origin of the day count) |
| Calendar.EpochOrdinal | src/auxiliar_functions.py:82 | the day number of 1970-01-01 is 719163 |
| Calendar.DaysBetween | src/auxiliar_functions.py:82 | the `.days` difference of two dates, the difference of their day numbers: positive exactly when the first is before the second, zero exactly for the same date |
| Calendar.NextDay | src/auxiliar_functions.py:82 | the next calendar day is after the date and has the next day number |
| Calendar.DaysBetweenCountsDays | src/auxiliar_functions.py:82 | the day difference counts calendar days: n days after a date is n days away from it |
| Calendar.ShiftMonths | src/auxiliar_functions.py:30 | moving by k months changes the month index by exactly k, keeps the day or clamps it to the last day of the target month, never raises it, and moves strictly back for k < 0 and strictly forward for k > 0 |
| Calendar.ShiftMonthsRoundTrip | src/auxiliar_functions.py:30 | for a day of at most 28, moving k months and back again returns the original date |
| Calendar.ShiftMonthsDrift | src/auxiliar_functions.py:30 | past the 28th the round trip loses days: 2024-03-31 goes back to 2024-02-29 and forward to 2024-03-29 |
| CouponWalk.StepBack | src/auxiliar_functions.py:30 | a step back moves the month index back by the step; strictly earlier for a positive step, never earlier for a step of zero or less |
| CouponWalk.Walk | src/auxiliar_functions.py:25-30 | the visited dates: empty exactly when the start is not after the analysis date, start first, each the previous stepped back, all after the analysis date, and the next step lands on or before it |
| CouponWalk.WalkIterates | src/auxiliar_functions.py:25-30 | the i-th visited date is the start stepped back i times; all those iterates are after the analysis date and the next one is not |
| CouponWalk.WalkStrictlyDecreasing | src/auxiliar_functions.py:26-30 | each visited date is strictly before every earlier visited date |
| CouponWalk.WalkCount | src/auxiliar_functions.py:25-30 | the number of visited dates is the number of leading iterates strictly after the analysis date |
| CouponWalk.WholePeriods | src/auxiliar_functions.py:25-30 | a start exactly n whole steps after the analysis date visits n dates |
| CouponWalk.NoProgressNeverEnds | src/auxiliar_functions.py:26-30 | with a step of zero months or fewer, every iterate of a start after the analysis date stays after it: the loop never ends |
| CouponWalk.PreviousCoupon | src/auxiliar_functions.py:76-80 | the date the accrual loop stops at is on or before the analysis date, and is the start itself when the start already is |
| CouponWalk.PreviousCouponEndsWalk | src/auxiliar_functions.py:76-80 | the accrual loop stops one step past the last visited date of the schedule loop |
| CouponWalk.StepForwardAfterBack | src/auxiliar_functions.py:30 | a step forward after a step back returns to the same month on a day no later, and to the same date when the day is at most 28 |
| Cashflows.InsertByDate | src/auxiliar_functions.py:32 | inserting into a sorted list keeps it sorted and adds exactly the one entry |
| Cashflows.SortByDate | src/auxiliar_functions.py:32 | the result is sorted by date and is a permutation of the input |
| Cashflows.KeepAfter | src/auxiliar_functions.py:34 | every kept entry is after the analysis date; an entry is kept exactly when it is in the input and after the analysis date; nothing is kept exactly when every input date is on or before it |
| Cashflows.KeepAfterSorted | src/auxiliar_functions.py:32-34 | filtering a sorted list leaves it sorted |
| Cashflows.SortReversesDecreasing | src/auxiliar_functions.py:32 | sorting a list with strictly decreasing dates reverses it |
| Cashflows.InsertBeforeSameDate | src/auxiliar_functions.py:22-32 | the stable sort places an entry ahead of a later-sorted entry with the same date: the principal lands before the maturity coupon |
| Cashflows.GetBondCashflows | src/auxiliar_functions.py:6-35 | empty without an effective maturity or with one on or before the analysis date; a frequency of 0 fails with a division by zero and one outside 1 to 12 never terminates, exactly when the maturity is in the future; otherwise a schedule sorted by date with every date after the analysis date |
| Cashflows.ScheduleLayout | src/auxiliar_functions.py:22-34 | for a future maturity and a frequency from 1 to 12 the schedule is the earlier coupons earliest first, then the principal at maturity, then the maturity coupon |
| Cashflows.ScheduleContents | src/auxiliar_functions.py:22-34 | the schedule has one entry per visited date plus the principal; every entry but the principal is a coupon of the per-period amount; the maturity date appears exactly twice, principal first |
| Cashflows.ScheduleEmptyIff | src/auxiliar_functions.py:15-34 | a successful schedule is empty exactly when there is no effective maturity or it is on or before the analysis date |
| Cashflows.WholePeriodSchedule | src/auxiliar_functions.py:25-34 | a maturity n whole steps after the analysis date gives n coupons plus the principal, and nothing when n is 0 |
| Pricing.YearFraction | src/auxiliar_functions.py:82-85 | the year fraction is never negative, is the day difference over 365 when the start is on or before the end, and 0 otherwise |
| Pricing.PreviousCouponDate | src/auxiliar_functions.py:68-80 | a frequency of 0 fails with a division by zero; a missing accrual maturity fails; a future maturity with a frequency outside 1 to 12 never terminates; otherwise a date on or before the analysis date, the maturity itself when it is not in the future |
| Pricing.AccruedInterest | src/auxiliar_functions.py:82-85 | fails exactly when the previous coupon date fails, with the same fault; otherwise the annual coupon prorated by the year fraction since the previous coupon date, non-negative for a non-negative coupon |
| Pricing.Accrual | src/auxiliar_functions.py:85 | `100 · (coupon / 100) · fraction` is the coupon prorated by the fraction, non-negative for a non-negative coupon |
| Pricing.Price | src/auxiliar_functions.py:56-88 | no quote exactly when the schedule is empty; schedule failures propagate; a quote's dirty price is the discounted schedule, its accrued interest is the accrued interest, and dirty = accrued + clean |
| Pricing.DirtyPrice | src/auxiliar_functions.py:62-65 | the sum of amount times discount factor over the list, in list order; 0 for an empty list (its additivity is `Pricing.DirtyPriceAppend`) |
| Pricing.DirtyPriceAppend | src/auxiliar_functions.py:62-65 | the present value of a concatenation is the sum of the present values |
| Pricing.UndiscountedDirtyPrice | src/auxiliar_functions.py:62-65 | with every discount factor 1, the dirty price is the principal plus one coupon per visited coupon date |
| Pricing.NonEmptySchedule | src/auxiliar_functions.py:15-30 | a non-empty schedule means a future effective maturity and a frequency from 1 to 12 |
| Pricing.PriceFailures | src/auxiliar_functions.py:58-82 | pricing fails exactly when the schedule fails, or when the schedule is non-empty and the bond is not callable, has no maturity and has a call date |
| Pricing.AccrualPeriod | src/auxiliar_functions.py:76-80 | the previous coupon date is on or before the analysis date, the first payment is after it, and the first is one step back from the first payment |
| Pricing.StepForwardFromPrevious | src/auxiliar_functions.py:76-80 | a step forward from the previous coupon date reaches the first payment's month on a day no later, and the payment itself (after the analysis date) when its day is at most 28 |
| Pricing.SpreadOnlyMovesDiscounting | src/auxiliar_functions.py:62-86 | changing the spread leaves the accrued interest unchanged and moves clean and dirty price by the same amount |
| Scenarios.TwoYearAnnualBond | src/auxiliar_functions.py:6-88 | a 5% annual bond two years from maturity: coupons on both anniversaries, principal between them on maturity, nothing accrued, clean = dirty |
| Scenarios.MonthEndDrift | src/auxiliar_functions.py:25-34 | a 4% semi-annual bond maturing 2025-08-31: the coupons before maturity fall on 2024-08-28 and 2025-02-28 after the day drifts through February |
| Scenarios.MonthEndDriftAccrual | src/auxiliar_functions.py:76-85 | for the same bond on 2024-06-01 the previous coupon date is 2024-02-28 and the accrued interest is 4 · 94 / 365 |
| Scenarios.ForwardStepFallsShort | src/auxiliar_functions.py:76-80 | a month-end maturity two days ahead has previous coupon date 2024-02-29, whose step forward 2024-08-29 is not after the analysis date |

## Left out

- `get_discount_factor` (lines 37–54): curve interpolation with linear extrapolation and
  exponential discounting are floating-point numerics over a foreign library. The model
  takes the discount factor as an uninterpreted function of date and spread.
- `calculate_spread` and `calculate_yield` (lines 90–123): Newton–Raphson root finding
  over floats that falls back to NaN on failure. They are not part of this model.
- `calculate_duration_convexity` (lines 125–142): floating-point moments of the discounted
  schedule. Not part of this model.
- Parsing: date strings in `%d/%m/%Y`, missing-value tests on table cells, and the curve
  table. The bond fields arrive already parsed. Only the maturity, the call date and the
  frequency are `Option`s; the frequency is an integer, so the integer cast of a
  fractional frequency cell is not modelled. The callable flag is a string, and a missing
  flag behaves like any string other than `"Y"`, as in the source.
- Missing coupon: the source never tests the coupon cell for a missing value (lines 17
  and 69). A missing coupon makes every coupon amount (line 27), the dirty price (line 65)
  and the accrued interest (line 85) NaN. The model's coupon is a `real` and cannot be
  missing, so this input and its NaN results are not represented.
- Floating point: amounts, fractions and prices are exact reals, so rounding in
  `coupon / 100 / freq` and in the accumulated sums is not modelled.
- Date range: pandas timestamps cover roughly the years 1677 to 2262. The model's dates are
  unbounded. A negative frequency therefore walks forward forever in the model
  (`Err(NonTerminating)`), where pandas would eventually raise an out-of-bounds error.
- Accrual with a missing maturity: the source produces a missing (NaN) accrued interest
  and clean price rather than failing. The model reports `Err(MissingMaturity)` instead of
  a quote with undefined numbers.
- Cashflows.SortByDate: stability is not stated for arbitrary input. The contract gives
  sortedness and permutation. Its consequence for the schedule, principal before the
  maturity coupon, is proved by `Cashflows.InsertBeforeSameDate` and
  `Cashflows.ScheduleLayout`.
- Cashflows.KeepAfter: its contract states membership, not order or multiplicity. On the
  schedule it returns the sorted list whole (`Cashflows.KeepAfterAllAfter`), and it
  preserves sortedness (`Cashflows.KeepAfterSorted`).
- Pricing.Price: the dirty price is stated as the discounted sum over the schedule, in
  schedule order. The floating-point accumulation order of the source's loop is not
  modelled.
