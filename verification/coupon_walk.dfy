/** The backward walk over coupon dates shared by the schedule and the
    accrual computation: starting from the effective maturity, step back a
    fixed number of calendar months while the date is after the analysis
    date. */
module CouponWalk {
  import opened Calendar

  /** `date - DateOffset(months=step)`. */
  function StepBack(d: Date, step: int): (r: Date)
    ensures MonthIndex(r) == MonthIndex(d) - step
    ensures step >= 1 ==> Before(r, d)
    ensures step <= 0 ==> OnOrBefore(d, r)
  {
    ShiftMonths(d, -step)
  }

  /** Stepping forward again after a step back returns to the same month,
      on a day no later than the original one, and to the original date
      itself when its day is at most 28. */
  lemma StepForwardAfterBack(d: Date, step: int)
    ensures MonthIndex(ShiftMonths(StepBack(d, step), step)) == MonthIndex(d)
    ensures ShiftMonths(StepBack(d, step), step).day <= d.day
    ensures d.day <= 28 ==> ShiftMonths(StepBack(d, step), step) == d
  {
    if d.day <= 28 {
      ShiftMonthsRoundTrip(d, -step);
    }
  }

  /** The date reached from `d` after `n` steps back. */
  function Iterate(d: Date, step: int, n: nat): Date
    decreases n
  {
    if n == 0 then d else Iterate(StepBack(d, step), step, n - 1)
  }

  /** The dates the loop visits, in visiting order: every date after
      `analysis`, starting at `start` and each one step before the last. */
  function Walk(start: Date, analysis: Date, step: int): (w: seq<Date>)
    requires step >= 1
    ensures |w| == 0 <==> OnOrBefore(start, analysis)
    ensures |w| > 0 ==> w[0] == start
    ensures forall i :: 0 <= i < |w| ==> After(w[i], analysis)
    ensures forall i :: 0 < i < |w| ==> w[i] == StepBack(w[i - 1], step)
    ensures |w| > 0 ==> OnOrBefore(StepBack(w[|w| - 1], step), analysis)
    decreases Ordinal(start) - Ordinal(analysis)
  {
    if After(start, analysis) then
      var next := StepBack(start, step);
      OrdinalOrder(analysis, start);
      OrdinalOrder(next, start);
      [start] + Walk(next, analysis, step)
    else
      []
  }

  /** The date the loop stops at: the first one on or before `analysis`. */
  function PreviousCoupon(start: Date, analysis: Date, step: int): (p: Date)
    requires step >= 1
    ensures OnOrBefore(p, analysis)
    ensures OnOrBefore(start, analysis) ==> p == start
    decreases Ordinal(start) - Ordinal(analysis)
  {
    if After(start, analysis) then
      var next := StepBack(start, step);
      OrdinalOrder(analysis, start);
      OrdinalOrder(next, start);
      PreviousCoupon(next, analysis, step)
    else
      start
  }

  /** The visited dates strictly decrease. */
  lemma {:induction false} WalkStrictlyDecreasing(start: Date, analysis: Date, step: int)
    requires step >= 1
    ensures forall i, j :: 0 <= i < j < |Walk(start, analysis, step)| ==>
      Before(Walk(start, analysis, step)[j], Walk(start, analysis, step)[i])
    decreases Ordinal(start) - Ordinal(analysis)
  {
    var w := Walk(start, analysis, step);
    if |w| > 0 {
      var next := StepBack(start, step);
      OrdinalOrder(analysis, start);
      OrdinalOrder(next, start);
      WalkStrictlyDecreasing(next, analysis, step);
      assert w[1..] == Walk(next, analysis, step);
      forall i, j | 0 <= i < j < |w|
        ensures Before(w[j], w[i])
      {
        if i == 0 && j > 1 {
          assert Before(w[j], w[1]);
        }
      }
    }
  }

  /** The `i`-th visited date is `start` stepped back `i` times, and the
      date after the last visited one is on or before `analysis`. */
  lemma {:induction false} WalkIterates(start: Date, analysis: Date, step: int)
    requires step >= 1
    ensures forall i :: 0 <= i < |Walk(start, analysis, step)| ==>
      Walk(start, analysis, step)[i] == Iterate(start, step, i)
    ensures forall i :: 0 <= i < |Walk(start, analysis, step)| ==> After(Iterate(start, step, i), analysis)
    ensures OnOrBefore(Iterate(start, step, |Walk(start, analysis, step)|), analysis)
    decreases Ordinal(start) - Ordinal(analysis)
  {
    var w := Walk(start, analysis, step);
    if |w| > 0 {
      var next := StepBack(start, step);
      OrdinalOrder(analysis, start);
      OrdinalOrder(next, start);
      WalkIterates(next, analysis, step);
      assert w[1..] == Walk(next, analysis, step);
      forall i | 0 <= i < |w|
        ensures w[i] == Iterate(start, step, i)
      {
        if i > 0 {
          assert w[i] == Walk(next, analysis, step)[i - 1];
        }
      }
    }
  }

  /** The accrual loop stops exactly where the schedule loop stops: one step
      before the earliest visited date, or at `start` when nothing is
      visited. */
  lemma {:induction false} PreviousCouponEndsWalk(start: Date, analysis: Date, step: int)
    requires step >= 1
    ensures PreviousCoupon(start, analysis, step) == Iterate(start, step, |Walk(start, analysis, step)|)
    ensures var w := Walk(start, analysis, step);
      |w| > 0 ==> After(w[|w| - 1], analysis) && PreviousCoupon(start, analysis, step) == StepBack(w[|w| - 1], step)
    decreases Ordinal(start) - Ordinal(analysis)
  {
    var w := Walk(start, analysis, step);
    if |w| > 0 {
      var next := StepBack(start, step);
      OrdinalOrder(analysis, start);
      OrdinalOrder(next, start);
      PreviousCouponEndsWalk(next, analysis, step);
      assert w[1..] == Walk(next, analysis, step);
      if |w| > 1 {
        assert w[|w| - 1] == Walk(next, analysis, step)[|w| - 2];
      }
    }
  }

  /** Stepping back always moves strictly earlier when the step is positive. */
  lemma {:induction false} IterateDecreasing(d: Date, step: int, k: nat, n: nat)
    requires step >= 1 && k < n
    ensures Before(Iterate(d, step, n), Iterate(d, step, k))
    decreases k
  {
    if k == 0 {
      IterateBefore(d, step, n);
    } else {
      IterateDecreasing(StepBack(d, step), step, k - 1, n - 1);
    }
  }

  lemma {:induction false} IterateBefore(d: Date, step: int, n: nat)
    requires step >= 1 && n >= 1
    ensures Before(Iterate(d, step, n), d)
    decreases n
  {
    var next := StepBack(d, step);
    if n > 1 {
      IterateBefore(next, step, n - 1);
      OrdinalOrder(Iterate(next, step, n - 1), next);
      OrdinalOrder(next, d);
      OrdinalOrder(Iterate(d, step, n), d);
    }
  }

  /** The number of visited dates is the number of stepped-back dates
      strictly after `analysis`: if the first `n` iterates are after it and
      the `n`-th is not, exactly `n` dates are visited. */
  lemma WalkCount(start: Date, analysis: Date, step: int, n: nat)
    requires step >= 1
    requires forall k :: 0 <= k < n ==> After(Iterate(start, step, k), analysis)
    requires OnOrBefore(Iterate(start, step, n), analysis)
    ensures |Walk(start, analysis, step)| == n
  {
    var w := Walk(start, analysis, step);
    WalkIterates(start, analysis, step);
    assert OnOrBefore(Iterate(start, step, |w|), analysis);
  }

  /** A maturity exactly `n` whole steps after the analysis date visits
      `n` coupon dates. */
  lemma WholePeriods(start: Date, analysis: Date, step: int, n: nat)
    requires step >= 1
    requires Iterate(start, step, n) == analysis
    ensures |Walk(start, analysis, step)| == n
  {
    forall k | 0 <= k < n
      ensures After(Iterate(start, step, k), analysis)
    {
      IterateDecreasing(start, step, k, n);
    }
    WalkCount(start, analysis, step, n);
  }

  /** With a step of zero months or fewer the loop never moves a date that
      is after `analysis` to one that is not: it runs forever. */
  lemma {:induction false} NoProgressNeverEnds(start: Date, analysis: Date, step: int, n: nat)
    requires step <= 0
    requires After(start, analysis)
    ensures After(Iterate(start, step, n), analysis)
    decreases n
  {
    if n > 0 {
      var next := StepBack(start, step);
      OrdinalOrder(analysis, start);
      OrdinalOrder(start, next);
      OrdinalOrder(analysis, next);
      NoProgressNeverEnds(next, analysis, step, n - 1);
    }
  }
}
