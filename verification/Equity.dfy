/** Return and drawdown arithmetic of the backtest report. */
module Equity {

  /** The relative change from one value to another, as both drawdowns and returns use it. */
  function Change(from: real, to: real): real
    requires from != 0.0
  {
    (to - from) / from
  }

  ghost predicate Positive(values: seq<real>) {
    forall i :: 0 <= i < |values| ==> values[i] > 0.0
  }

  ghost predicate NonNegative(values: seq<real>) {
    forall i :: 0 <= i < |values| ==> values[i] >= 0.0
  }

  // ----- facts about relative change -----

  function Times(x: real, y: real): real {
    x * y
  }

  function Over(x: real, y: real): real
    requires y != 0.0
  {
    x / y
  }

  lemma TimesOrder(x: real, y: real, w: real)
    requires w > 0.0
    ensures x < y <==> Times(x, w) < Times(y, w)
    ensures x == y <==> Times(x, w) == Times(y, w)
  {
    var d := y - x;
    assert d * w == y * w - x * w;
    assert d > 0.0 ==> d * w > 0.0;
    assert d < 0.0 ==> d * w < 0.0;
  }

  lemma QuotientTimes(x: real, w: real)
    requires w > 0.0
    ensures Times(Over(x, w), w) == x
  {
  }

  lemma TimesMinusOne(r: real, w: real)
    ensures Times(r - 1.0, w) == Times(r, w) - w
  {
  }

  lemma TimesCommutes(x: real, y: real)
    ensures Times(x, y) == Times(y, x)
  {
  }

  /** A relative change is the ratio less one. */
  lemma Ratio(from: real, to: real)
    requires from > 0.0
    ensures Change(from, to) == Over(to, from) - 1.0
    ensures to > 0.0 <==> Over(to, from) > 0.0
    ensures to == 0.0 <==> Over(to, from) == 0.0
  {
    hide Times;
    QuotientTimes(to, from);
    QuotientTimes(to - from, from);
    TimesMinusOne(Over(to, from), from);
    TimesOrder(Change(from, to), Over(to, from) - 1.0, from);
    TimesOrder(0.0, Over(to, from), from);
    TimesZero(from);
  }

  lemma TimesZero(w: real)
    ensures Times(0.0, w) == 0.0 && Times(1.0, w) == w
  {
  }

  lemma ChangeFacts(from: real, to: real)
    requires from > 0.0
    ensures to > 0.0 <==> Change(from, to) > -1.0
    ensures to == 0.0 <==> Change(from, to) == -1.0
    ensures Change(from, from) == 0.0
    ensures Change(from, to) >= 0.0 <==> from <= to
  {
    hide Times;
    Ratio(from, to);
    Ratio(from, from);
    QuotientTimes(from, from);
    QuotientTimes(to, from);
    TimesZero(from);
    TimesOrder(1.0, Over(from, from), from);
    TimesOrder(1.0, Over(to, from), from);
  }

  /** From a higher start the same end is a deeper fall. */
  lemma ChangeFromHigher(low: real, high: real, to: real)
    requires 0.0 < low <= high && to >= 0.0
    ensures Change(high, to) <= Change(low, to)
  {
    hide Times;
    hide Change;
    if to == 0.0 {
      ChangeFacts(low, to);
      ChangeFacts(high, to);
    } else {
      Ratio(low, to);
      Ratio(high, to);
      var x, y := Over(to, high), Over(to, low);
      QuotientTimes(to, high);
      QuotientTimes(to, low);
      TimesCommutes(y, low);
      TimesCommutes(y, high);
      TimesOrder(low, high, y);
      TimesOrder(y, x, high);
    }
  }

  // ----- the one-pass drawdown -----

  /** The pair counts: it starts, no later than it ends, at a positive value, so that a relative change exists. */
  predicate IsPair(values: seq<real>, i: int, j: int) {
    0 <= i <= j < |values| && values[i] > 0.0
  }

  /** d is the least change from any positive value to a later one (or itself), and zero when there is none. */
  ghost predicate IsDeepestFall(values: seq<real>, d: real) {
    && (forall i, j :: IsPair(values, i, j) ==> d <= Change(values[i], values[j]))
    && (d == 0.0 || exists i, j :: IsPair(values, i, j) && d == Change(values[i], values[j]))
  }

  /** One step of the pass, on the peak and the drawdown so far. */
  function Lowered(peak: real, d: real, value: real): real {
    if peak != 0.0 && Change(peak, value) < d then Change(peak, value) else d
  }

  function Raised(peak: real, value: real): real {
    if peak < value then value else peak
  }

  function Peak(values: seq<real>): real
    requires values != []
  {
    if |values| == 1 then values[0] else Raised(Peak(values[..|values| - 1]), values[|values| - 1])
  }

  /** The result of the single pass, for any curve. */
  function OnePass(values: seq<real>): real {
    if values == [] then 0.0 else Lowered(Peak(values), OnePass(values[..|values| - 1]), values[|values| - 1])
  }

  lemma {:induction false} PeakIsHighest(values: seq<real>)
    requires values != []
    ensures forall i :: 0 <= i < |values| ==> values[i] <= Peak(values)
    ensures exists i :: 0 <= i < |values| && values[i] == Peak(values)
  {
    if |values| == 1 {
      assert values[0] == Peak(values);
    } else {
      var front, last := values[..|values| - 1], values[|values| - 1];
      PeakIsHighest(front);
      var i :| 0 <= i < |front| && front[i] == Peak(front);
      assert values[if Peak(front) < last then |values| - 1 else i] == Peak(values);
    }
  }

  lemma LoweredFacts(peak: real, d: real, value: real)
    ensures Lowered(peak, d, value) <= d
    ensures peak != 0.0 ==> Lowered(peak, d, value) <= Change(peak, value)
    ensures Lowered(peak, d, value) == d || (peak != 0.0 && Lowered(peak, d, value) == Change(peak, value))
  {
  }

  /** Position p holds the peak of the extended curve. */
  lemma FallAppend(values: seq<real>, d: real, all: seq<real>, p: nat)
    requires |all| == |values| + 1 && all[..|values|] == values && NonNegative(all) && IsDeepestFall(values, d)
    requires p < |all| && forall i :: 0 <= i < |all| ==> all[i] <= all[p]
    ensures IsDeepestFall(all, Lowered(all[p], d, all[|values|]))
  {
    var n, peak := |values|, all[p];
    var value := all[n];
    var d' := Lowered(peak, d, value);
    LoweredFacts(peak, d, value);
    hide Change, Lowered;
    forall i, j | IsPair(all, i, j) ensures d' <= Change(all[i], all[j]) {
      if j < n {
        assert IsPair(values, i, j);
      } else {
        ChangeFromHigher(all[i], peak, value);
      }
    }
    if d' != d {
      assert IsPair(all, p, n);
    } else if d != 0.0 {
      var i, j :| IsPair(values, i, j) && d == Change(values[i], values[j]);
      assert IsPair(all, i, j);
    }
  }

  /** On a curve that never falls below zero, the single pass finds the minimum over all pairs of the relative change. */
  lemma {:induction false} OnePassIsDeepestFall(values: seq<real>)
    requires NonNegative(values)
    ensures IsDeepestFall(values, OnePass(values))
  {
    hide Lowered;
    if values != [] {
      var front, last := values[..|values| - 1], values[|values| - 1];
      OnePassIsDeepestFall(front);
      PeakIsHighest(values);
      var p :| 0 <= p < |values| && values[p] == Peak(values);
      FallAppend(front, OnePass(front), values, p);
    }
  }

  /** The loop computes the single pass; what that is worth on a curve without negative values. */
  method MaxDrawdown(values: seq<real>) returns (drawdown: real)
    ensures drawdown == OnePass(values) <= 0.0
    ensures NonNegative(values) ==> -1.0 <= drawdown && IsDeepestFall(values, drawdown)
    ensures Positive(values) ==> -1.0 < drawdown
  {
    if values == [] {
      return 0.0;
    }
    hide Change, IsDeepestFall;
    var peak := values[0];
    drawdown := 0.0;
    for k := 0 to |values|
      invariant peak == if k == 0 then values[0] else Peak(values[..k])
      invariant drawdown == OnePass(values[..k]) <= 0.0
    {
      var value := values[k];
      assert values[..k + 1][..k] == values[..k] && values[..k + 1][k] == value;
      if peak < value {
        peak := value;
      }
      if peak != 0.0 {
        var fall := Change(peak, value);
        if fall < drawdown {
          drawdown := fall;
        }
      }
    }
    assert values[..|values|] == values;
    if NonNegative(values) {
      OnePassIsDeepestFall(values);
      DrawdownRange(values, drawdown);
    }
  }

  /** A fall on a curve without negative values loses at most everything, and everything only when the curve reaches zero. */
  lemma DrawdownRange(values: seq<real>, d: real)
    requires NonNegative(values) && IsDeepestFall(values, d)
    ensures -1.0 <= d <= 0.0
    ensures Positive(values) ==> -1.0 < d
    ensures d == -1.0 <==> exists i, j :: IsPair(values, i, j) && values[j] == 0.0
  {
    if d != 0.0 {
      var i, j :| IsPair(values, i, j) && d == Change(values[i], values[j]);
      ChangeFacts(values[i], values[j]);
      ChangeFacts(values[i], values[i]);
      assert IsPair(values, i, i);
    }
    hide Change;
    if i, j :| IsPair(values, i, j) && values[j] == 0.0 {
      ChangeFacts(values[i], values[j]);
    }
  }

  /** Below zero the pass misses pairs that start under the peak: here it reports -1.5 and the deepest fall is -6. */
  lemma BelowZeroThePassMissesPairs()
    ensures OnePass([10.0, 100.0, -50.0]) == -1.5
    ensures IsPair([10.0, 100.0, -50.0], 0, 2) && Change(10.0, -50.0) == -6.0
    ensures !IsDeepestFall([10.0, 100.0, -50.0], OnePass([10.0, 100.0, -50.0]))
  {
    var values := [10.0, 100.0, -50.0];
    assert values[..2] == [10.0, 100.0] && [10.0, 100.0][..1] == [10.0] && [10.0][..0] == [];
    assert Peak([10.0]) == 10.0 && Peak([10.0, 100.0]) == 100.0 && Peak(values) == 100.0;
    assert OnePass([]) == 0.0 && OnePass([10.0]) == 0.0 && OnePass([10.0, 100.0]) == 0.0;
    assert IsPair(values, 0, 2);
  }

  /** The reported total return, as the code computes it from the ends of the curve. */
  function TotalReturn(values: seq<real>): real
    requires values != [] && values[0] != 0.0
  {
    Change(values[0], values[|values| - 1])
  }

  /** The total return of a curve without negative values is never below its maximum drawdown; a drawdown of zero means
      that the curve never fell. */
  lemma DrawdownBoundsReturn(values: seq<real>, d: real)
    requires NonNegative(values) && values != [] && IsDeepestFall(values, d)
    ensures values[0] > 0.0 ==> d <= TotalReturn(values)
    ensures d == 0.0 <==> forall i, j :: 0 <= i <= j < |values| ==> values[i] <= values[j]
  {
    if values[0] > 0.0 {
      assert IsPair(values, 0, |values| - 1);
    }
    DrawdownRange(values, d);
    hide Change;
    if d == 0.0 {
      forall i, j | 0 <= i <= j < |values| ensures values[i] <= values[j] {
        if values[i] > 0.0 {
          assert IsPair(values, i, j);
          ChangeFacts(values[i], values[j]);
        }
      }
    } else {
      var i, j :| IsPair(values, i, j) && d == Change(values[i], values[j]);
      ChangeFacts(values[i], values[j]);
    }
  }

  // ----- returns -----

  /** The step-to-step returns the code collects; steps from zero are skipped. */
  function StepReturns(values: seq<real>): seq<real> {
    if |values| < 2 then []
    else
      var n := |values| - 1;
      StepReturns(values[..n]) + if values[n - 1] != 0.0 then [Change(values[n - 1], values[n])] else []
  }

  method Returns(values: seq<real>) returns (returns_: seq<real>)
    ensures returns_ == StepReturns(values)
  {
    returns_ := [];
    if |values| < 2 {
      return;
    }
    for k := 1 to |values|
      invariant returns_ == StepReturns(values[..k])
    {
      assert values[..k + 1][..k] == values[..k];
      if values[k - 1] != 0.0 {
        returns_ := returns_ + [Change(values[k - 1], values[k])];
      }
    }
    assert values[..|values|] == values;
  }

  /** A step from zero has no return; any other step adds its relative change. */
  lemma OneMoreStep(values: seq<real>, x: real)
    requires values != []
    ensures var last := values[|values| - 1];
            StepReturns(values + [x]) == StepReturns(values) + if last == 0.0 then [] else [(x - last) / last]
  {
    assert (values + [x])[..|values|] == values;
  }

  /** The growth that a list of returns compounds to. */
  function Compound(rs: seq<real>): real {
    if rs == [] then 1.0 else Times(Compound(rs[..|rs| - 1]), 1.0 + rs[|rs| - 1])
  }

  lemma CompoundAppend(rs: seq<real>, r: real)
    ensures Compound(rs + [r]) == Times(Compound(rs), 1.0 + r)
  {
    hide Times;
    assert (rs + [r])[..|rs|] == rs;
  }

  /** On a positive curve every step has a return, and the returns compound to last / first. */
  lemma {:induction false} ReturnsTelescope(values: seq<real>)
    requires Positive(values) && values != []
    ensures |StepReturns(values)| == |values| - 1
    ensures Compound(StepReturns(values)) == Over(values[|values| - 1], values[0])
    ensures Compound(StepReturns(values)) == 1.0 + TotalReturn(values)
  {
    hide Change;
    hide Times;
    hide Over;
    var n := |values| - 1;
    Ratio(values[0], values[n]);
    if n == 0 {
      Chain(values[0], values[0], values[0]);
    } else {
      ReturnsTelescope(values[..n]);
      CompoundAppend(StepReturns(values[..n]), Change(values[n - 1], values[n]));
      Ratio(values[n - 1], values[n]);
      Chain(values[0], values[n - 1], values[n]);
      hide Compound;
    }
  }

  lemma Chain(a: real, b: real, c: real)
    requires a > 0.0 && b > 0.0
    ensures Times(Over(b, a), Over(c, b)) == Over(c, a)
    ensures Over(a, a) == 1.0
  {
    var x, y := b / a, c / b;
    assert x * a == b && y * b == c;
    assert (x * y) * a == y * (x * a);
  }
}
