/** The cashflow schedule of a bond as seen from an analysis date: a
    principal of 100 at the effective maturity and one coupon at every date
    of the backward walk, sorted by date, keeping only the future ones. */
module Cashflows {
  import opened Wrappers
  import opened Calendar
  import opened Bonds
  import opened CouponWalk

  /** A payment of `amount` per 100 of face value on `date`. */
  datatype Cashflow = Cashflow(date: Date, amount: real)

  const Principal: real := 100.0

  predicate SortedByDate(s: seq<Cashflow>) {
    forall i, j :: 0 <= i < j < |s| ==> OnOrBefore(s[i].date, s[j].date)
  }

  /** Inserts `c` into a sorted list ahead of every entry with the same or a
      later date, so that `c` keeps its place before them. */
  function InsertByDate(c: Cashflow, s: seq<Cashflow>): (r: seq<Cashflow>)
    requires SortedByDate(s)
    ensures SortedByDate(r)
    ensures multiset(r) == multiset(s) + multiset{c}
    ensures |r| == |s| + 1
  {
    if |s| == 0 || OnOrBefore(c.date, s[0].date) then
      [c] + s
    else
      var rest := InsertByDate(c, s[1..]);
      assert forall i :: 0 <= i < |rest| ==> OnOrBefore(s[0].date, rest[i].date) by {
        forall i | 0 <= i < |rest|
          ensures OnOrBefore(s[0].date, rest[i].date)
        {
          assert rest[i] in multiset(s[1..]) + multiset{c};
          if rest[i] != c {
            var k :| 0 <= k < |s[1..]| && s[1..][k] == rest[i];
            assert s[k + 1] == rest[i];
          }
        }
      }
      assert s == [s[0]] + s[1..];
      [s[0]] + rest
  }

  /** `list.sort(key=date)`: a stable sort by date, so entries on the same
      date keep their original relative order. */
  function SortByDate(s: seq<Cashflow>): (r: seq<Cashflow>)
    ensures SortedByDate(r)
    ensures multiset(r) == multiset(s)
    ensures |r| == |s|
  {
    if |s| == 0 then []
    else
      assert s == [s[0]] + s[1..];
      InsertByDate(s[0], SortByDate(s[1..]))
  }

  /** The entries dated strictly after `analysis`, in their original order. */
  function KeepAfter(s: seq<Cashflow>, analysis: Date): (r: seq<Cashflow>)
    ensures forall i :: 0 <= i < |r| ==> After(r[i].date, analysis)
    ensures forall c :: c in r <==> c in s && After(c.date, analysis)
    ensures r == [] <==> forall i :: 0 <= i < |s| ==> OnOrBefore(s[i].date, analysis)
  {
    if |s| == 0 then []
    else
      var rest := KeepAfter(s[1..], analysis);
      assert s == [s[0]] + s[1..];
      if After(s[0].date, analysis) then [s[0]] + rest else rest
  }

  /** Filtering keeps a sorted list sorted. */
  lemma {:induction false} KeepAfterSorted(s: seq<Cashflow>, analysis: Date)
    requires SortedByDate(s)
    ensures SortedByDate(KeepAfter(s, analysis))
  {
    if |s| > 0 {
      var rest := KeepAfter(s[1..], analysis);
      KeepAfterSorted(s[1..], analysis);
      if After(s[0].date, analysis) {
        forall i | 0 <= i < |rest|
          ensures OnOrBefore(s[0].date, rest[i].date)
        {
          assert rest[i] in rest;
          var k :| 0 <= k < |s[1..]| && s[1..][k] == rest[i];
          assert s[k + 1] == rest[i];
        }
      }
    }
  }

  /** One coupon of `amount` on each of `dates`, in the same order. */
  function Coupons(dates: seq<Date>, amount: real): (r: seq<Cashflow>)
    ensures |r| == |dates|
    ensures forall i :: 0 <= i < |r| ==> r[i] == Cashflow(dates[i], amount)
  {
    seq(|dates|, i requires 0 <= i < |dates| => Cashflow(dates[i], amount))
  }

  /** `get_bond_cashflows(bond, analysis_date)`. No schedule without an
      effective maturity or with a maturity on or before the analysis date;
      otherwise the frequency must give a positive whole number of months,
      or the source raises (frequency 0) or loops forever. */
  function GetBondCashflows(b: Bond, analysis: Date): (r: Result<seq<Cashflow>, Fault>)
    ensures EffectiveMaturity(b).None? ==> r == Ok([])
    ensures EffectiveMaturity(b).Some? && OnOrBefore(EffectiveMaturity(b).value, analysis) ==> r == Ok([])
    ensures r == Err(DivisionByZero) <==>
      EffectiveMaturity(b).Some? && After(EffectiveMaturity(b).value, analysis) && Frequency(b) == 0
    ensures r == Err(NonTerminating) <==>
      EffectiveMaturity(b).Some? && After(EffectiveMaturity(b).value, analysis)
      && Frequency(b) != 0 && !(1 <= Frequency(b) <= 12)
    ensures r.Err? ==> r.error == DivisionByZero || r.error == NonTerminating
    ensures r.Ok? <==>
      (EffectiveMaturity(b).None? || OnOrBefore(EffectiveMaturity(b).value, analysis) || 1 <= Frequency(b) <= 12)
    ensures r.Ok? ==> SortedByDate(r.value)
    ensures r.Ok? ==> forall i :: 0 <= i < |r.value| ==> After(r.value[i].date, analysis)
  {
    match EffectiveMaturity(b)
    case None => Ok([])
    case Some(maturity) =>
      var principal := Cashflow(maturity, Principal);
      if OnOrBefore(maturity, analysis) then
        // the loop body never runs: only the principal, which is dropped
        var sorted := SortByDate([principal]);
        assert forall c :: c in sorted ==> c == principal by {
          forall c | c in sorted
            ensures c == principal
          {
            assert c in multiset(sorted);
          }
        }
        Ok(KeepAfter(sorted, analysis))
      else if Frequency(b) == 0 then
        Err(DivisionByZero)
      else if StepMonths(Frequency(b)) < 1 then
        Err(NonTerminating)
      else
        var dates := Walk(maturity, analysis, StepMonths(Frequency(b)));
        var sorted := SortByDate([principal] + Coupons(dates, CouponAmount(b)));
        KeepAfterSorted(sorted, analysis);
        Ok(KeepAfter(sorted, analysis))
  }

  /** The entries of `s` in the opposite order. */
  function Reverse<T>(s: seq<T>): (r: seq<T>)
    ensures |r| == |s|
    ensures forall i :: 0 <= i < |s| ==> r[i] == s[|s| - 1 - i]
  {
    if |s| == 0 then [] else Reverse(s[1..]) + [s[0]]
  }

  predicate StrictlyDecreasingDates(s: seq<Cashflow>) {
    forall i, j :: 0 <= i < j < |s| ==> Before(s[j].date, s[i].date)
  }

  /** An entry later than everything in a sorted list goes to its end. */
  lemma {:induction false} InsertLatest(c: Cashflow, s: seq<Cashflow>)
    requires SortedByDate(s)
    requires forall i :: 0 <= i < |s| ==> Before(s[i].date, c.date)
    ensures InsertByDate(c, s) == s + [c]
  {
    if |s| > 0 {
      InsertLatest(c, s[1..]);
      assert s == [s[0]] + s[1..];
    }
  }

  /** An entry dated like the last one of a sorted list, and later than all
      the others, goes just before that last one. */
  lemma {:induction false} InsertBeforeSameDate(c: Cashflow, s: seq<Cashflow>, x: Cashflow)
    requires SortedByDate(s + [x])
    requires forall i :: 0 <= i < |s| ==> Before(s[i].date, c.date)
    requires x.date == c.date
    ensures InsertByDate(c, s + [x]) == s + [c, x]
  {
    if |s| > 0 {
      assert (s + [x])[1..] == s[1..] + [x];
      InsertBeforeSameDate(c, s[1..], x);
      assert s == [s[0]] + s[1..];
    }
  }

  /** Sorting a list whose dates strictly decrease reverses it. */
  lemma {:induction false} SortReversesDecreasing(s: seq<Cashflow>)
    requires StrictlyDecreasingDates(s)
    ensures SortByDate(s) == Reverse(s)
  {
    if |s| > 0 {
      SortReversesDecreasing(s[1..]);
      var r := Reverse(s[1..]);
      assert forall i :: 0 <= i < |r| ==> Before(r[i].date, s[0].date);
      InsertLatest(s[0], r);
    }
  }

  /** Filtering a list whose entries are all after `analysis` keeps it whole. */
  lemma {:induction false} KeepAfterAllAfter(s: seq<Cashflow>, analysis: Date)
    requires forall i :: 0 <= i < |s| ==> After(s[i].date, analysis)
    ensures KeepAfter(s, analysis) == s
  {
    if |s| > 0 {
      KeepAfterAllAfter(s[1..], analysis);
      assert s == [s[0]] + s[1..];
    }
  }

  /** Sorting the principal and the coupons of a backward walk that starts
      at maturity. */
  lemma SortWalk(maturity: Date, w: seq<Date>, c: real)
    requires |w| > 0 && w[0] == maturity
    requires forall i, j :: 0 <= i < j < |w| ==> Before(w[j], w[i])
    ensures SortByDate([Cashflow(maturity, Principal)] + Coupons(w, c))
      == Coupons(Reverse(w[1..]), c) + [Cashflow(maturity, Principal), Cashflow(maturity, c)]
  {
    var principal := Cashflow(maturity, Principal);
    var coupons := Coupons(w, c);
    assert StrictlyDecreasingDates(coupons);
    SortReversesDecreasing(coupons);
    var early := Reverse(coupons[1..]);
    assert Reverse(coupons) == early + [coupons[0]];
    EarlyCoupons(w, c);
    InsertBeforeSameDate(principal, early, coupons[0]);
    assert ([principal] + coupons)[1..] == coupons;
  }

  /** Sorting and filtering the principal and the coupons of a backward
      walk that starts at maturity and stays after `analysis`. */
  lemma SortedWalk(maturity: Date, analysis: Date, w: seq<Date>, c: real)
    requires |w| > 0 && w[0] == maturity
    requires forall i, j :: 0 <= i < j < |w| ==> Before(w[j], w[i])
    requires forall i :: 0 <= i < |w| ==> After(w[i], analysis)
    ensures KeepAfter(SortByDate([Cashflow(maturity, Principal)] + Coupons(w, c)), analysis)
      == Coupons(Reverse(w[1..]), c) + [Cashflow(maturity, Principal), Cashflow(maturity, c)]
  {
    SortWalk(maturity, w, c);
    EarlyCoupons(w, c);
    var early := Coupons(Reverse(w[1..]), c);
    var sorted := early + [Cashflow(maturity, Principal), Cashflow(maturity, c)];
    forall i | 0 <= i < |sorted|
      ensures After(sorted[i].date, analysis)
    {
      if i < |early| {
        assert sorted[i] == early[i];
        assert After(w[|w| - 1 - i], analysis);
      } else {
        assert sorted[i].date == w[0];
      }
    }
    KeepAfterAllAfter(sorted, analysis);
  }

  /** The coupons before maturity, earliest first, and what their dates are. */
  lemma EarlyCoupons(w: seq<Date>, c: real)
    requires |w| > 0
    ensures Reverse(Coupons(w, c)[1..]) == Coupons(Reverse(w[1..]), c)
    ensures forall i :: 0 <= i < |w| - 1 ==> Coupons(Reverse(w[1..]), c)[i].date == w[|w| - 1 - i]
  {
    var early := Reverse(Coupons(w, c)[1..]);
    forall i | 0 <= i < |early|
      ensures early[i] == Coupons(Reverse(w[1..]), c)[i]
    {
      assert early[i] == Coupons(w, c)[|w| - 1 - i];
    }
  }

  /** The exact schedule of a bond with a future maturity and a frequency
      from 1 to 12: the coupons before maturity, earliest first, then the
      principal, then the coupon paid on the maturity date itself. */
  lemma ScheduleLayout(b: Bond, analysis: Date)
    requires EffectiveMaturity(b).Some? && After(EffectiveMaturity(b).value, analysis)
    requires 1 <= Frequency(b) <= 12
    ensures GetBondCashflows(b, analysis).Ok?
    ensures var maturity := EffectiveMaturity(b).value;
      var w := Walk(maturity, analysis, StepMonths(Frequency(b)));
      var c := CouponAmount(b);
      GetBondCashflows(b, analysis).value
        == Coupons(Reverse(w[1..]), c) + [Cashflow(maturity, Principal), Cashflow(maturity, c)]
  {
    var maturity := EffectiveMaturity(b).value;
    var step := StepMonths(Frequency(b));
    WalkStrictlyDecreasing(maturity, analysis, step);
    SortedWalk(maturity, analysis, Walk(maturity, analysis, step), CouponAmount(b));
  }

  /** What the schedule of a bond with a future maturity holds: one coupon
      per visited date, each of the per-period amount, and the principal;
      the maturity date appears exactly twice, principal first. */
  lemma ScheduleContents(b: Bond, analysis: Date)
    requires EffectiveMaturity(b).Some? && After(EffectiveMaturity(b).value, analysis)
    requires 1 <= Frequency(b) <= 12
    ensures GetBondCashflows(b, analysis).Ok?
    ensures var r := GetBondCashflows(b, analysis).value;
      var maturity := EffectiveMaturity(b).value;
      && |r| == |Walk(maturity, analysis, StepMonths(Frequency(b)))| + 1
      && r[|r| - 2] == Cashflow(maturity, Principal)
      && r[|r| - 1] == Cashflow(maturity, CouponAmount(b))
      && (forall i :: 0 <= i < |r| - 2 ==> r[i].amount == CouponAmount(b))
      && (forall i :: 0 <= i < |r| ==> (r[i].date == maturity <==> i >= |r| - 2))
  {
    var maturity := EffectiveMaturity(b).value;
    var step := StepMonths(Frequency(b));
    var w := Walk(maturity, analysis, step);
    ScheduleLayout(b, analysis);
    EarlyCoupons(w, CouponAmount(b));
    WalkStrictlyDecreasing(maturity, analysis, step);
    var r := GetBondCashflows(b, analysis).value;
    forall i | 0 <= i < |r| - 2
      ensures r[i].date != maturity
    {
      assert r[i].date == w[|w| - 1 - i];
    }
  }

  /** The schedule is empty exactly when there is no effective maturity or
      it is not after the analysis date (for a frequency the source
      accepts). */
  lemma ScheduleEmptyIff(b: Bond, analysis: Date)
    requires GetBondCashflows(b, analysis).Ok?
    ensures GetBondCashflows(b, analysis).value == []
      <==> EffectiveMaturity(b).None? || OnOrBefore(EffectiveMaturity(b).value, analysis)
  {
    if EffectiveMaturity(b).Some? && After(EffectiveMaturity(b).value, analysis) {
      ScheduleContents(b, analysis);
    }
  }

  /** A maturity exactly `n` whole coupon periods after the analysis date
      gives `n` coupons plus the principal. */
  lemma WholePeriodSchedule(b: Bond, analysis: Date, n: nat)
    requires EffectiveMaturity(b).Some? && 1 <= Frequency(b) <= 12
    requires Iterate(EffectiveMaturity(b).value, StepMonths(Frequency(b)), n) == analysis
    ensures n == 0 ==> GetBondCashflows(b, analysis) == Ok([])
    ensures n > 0 ==> |GetBondCashflows(b, analysis).value| == n + 1
  {
    var maturity := EffectiveMaturity(b).value;
    WholePeriods(maturity, analysis, StepMonths(Frequency(b)), n);
    if n > 0 {
      assert After(maturity, analysis);
      ScheduleContents(b, analysis);
    }
  }
}
