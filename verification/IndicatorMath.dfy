/**
 Batch definitions of the three supported indicators over a whole price history, and the
 algebra that the streaming forms rely on.  Floats are modelled as reals.
 */
module IndicatorMath {

  // ----- sums and windows -----

  function Sum(s: seq<real>): real {
    if s == [] then 0.0 else Sum(s[..|s| - 1]) + s[|s| - 1]
  }

  /** t is s with every element multiplied by a. */
  ghost predicate ScaledBy(s: seq<real>, t: seq<real>, a: real) {
    |s| == |t| && forall i :: 0 <= i < |s| ==> t[i] == a * s[i]
  }

  lemma {:induction false} SumScaled(s: seq<real>, t: seq<real>, a: real)
    requires ScaledBy(s, t, a)
    ensures Sum(t) == a * Sum(s)
  {
    if s != [] {
      var n := |s| - 1;
      SumScaled(s[..n], t[..n], a);
      assert t[n] == a * s[n];
    }
  }

  ghost predicate NonNegative(s: seq<real>) {
    forall i :: 0 <= i < |s| ==> s[i] >= 0.0
  }

  lemma {:induction false} SumNonNegative(s: seq<real>)
    requires NonNegative(s)
    ensures Sum(s) >= 0.0
  {
    if s != [] {
      SumNonNegative(s[..|s| - 1]);
    }
  }

  /** The last k elements, or everything when there are fewer. */
  function Last<T>(s: seq<T>, k: nat): (r: seq<T>)
    ensures |r| == if |s| <= k then |s| else k
  {
    if |s| <= k then s else s[|s| - k..]
  }

  lemma LastAppend<T>(s: seq<T>, x: T, k: nat)
    ensures Last(Last(s, k) + [x], k) == Last(s + [x], k)
  {
  }

  function Max(x: real, y: real): real { if x < y then y else x }

  // ----- simple moving average -----

  function Mean(s: seq<real>): real
    requires s != []
  {
    Sum(s) / |s| as real
  }

  /** The mean of the last min(n, period) prices. */
  function Sma(period: nat, h: seq<real>): real
    requires period > 0 && h != []
  {
    Mean(Last(h, period))
  }

  lemma {:induction false} SumFromFront(s: seq<real>)
    requires s != []
    ensures Sum(s) == s[0] + Sum(s[1..])
  {
    if |s| > 1 {
      var n := |s| - 1;
      SumFromFront(s[..n]);
      assert s[..n][1..] == s[1..][..n - 1];
    } else {
      assert s[..0] == [] && s[1..] == [];
    }
  }

  /** A full window trades its oldest price for the new one; until then the new price joins. */
  lemma SmaSlides(period: nat, h: seq<real>, p: real)
    requires period > 0 && h != []
    ensures var n := |h|;
            if n >= period
            then Sma(period, h + [p]) * period as real == Sma(period, h) * period as real + p - h[n - period]
            else Sma(period, h + [p]) * (n + 1) as real == Sma(period, h) * n as real + p
  {
    var e, n := h + [p], |h|;
    var window, next := Last(h, period), Last(e, period);
    MeanTimesCount(window);
    MeanTimesCount(next);
    assert next[..|next| - 1] == if n >= period then window[1..] else window;
    assert next[|next| - 1] == p;
    if n >= period {
      SumFromFront(window);
    }
  }

  lemma MeanTimesCount(s: seq<real>)
    requires s != []
    ensures Mean(s) * |s| as real == Sum(s)
  {
  }

  // ----- exponential moving average, in closed form -----

  function Alpha(period: nat): (a: real)
    requires period > 0
    ensures 0.0 < a <= 1.0
  {
    2.0 / (period as real + 1.0)
  }

  function Power(b: real, n: nat): real {
    if n == 0 then 1.0 else b * Power(b, n - 1)
  }

  /** The weight that the i-th of n prices has in their exponential moving average. */
  function EmaWeight(alpha: real, n: nat, i: nat): real
    requires i < n
  {
    if i == 0 then Power(1.0 - alpha, n - 1) else alpha * Power(1.0 - alpha, n - 1 - i)
  }

  /** The first k weights of n, added up. */
  function WeightSum(alpha: real, n: nat, k: nat): real
    requires k <= n
  {
    if k == 0 then 0.0 else WeightSum(alpha, n, k - 1) + EmaWeight(alpha, n, k - 1)
  }

  /** The first k prices of h, weighted as members of a history of n prices. */
  function WeightedSum(alpha: real, n: nat, h: seq<real>, k: nat): real
    requires k <= n && k <= |h|
  {
    if k == 0 then 0.0 else WeightedSum(alpha, n, h, k - 1) + EmaWeight(alpha, n, k - 1) * h[k - 1]
  }

  function Ema(period: nat, h: seq<real>): real
    requires period > 0
  {
    WeightedSum(Alpha(period), |h|, h, |h|)
  }

  /** One more price scales every earlier weight by 1 - alpha. */
  lemma EmaWeightStep(alpha: real, n: nat, i: nat)
    requires i < n
    ensures EmaWeight(alpha, n + 1, i) == (1.0 - alpha) * EmaWeight(alpha, n, i)
  {
    if i != 0 {
      var b := Power(1.0 - alpha, n - 1 - i);
      assert Power(1.0 - alpha, n - i) == (1.0 - alpha) * b;
      assert alpha * ((1.0 - alpha) * b) == (1.0 - alpha) * (alpha * b);
    }
  }

  lemma Factor(c: real, x: real, w: real, y: real)
    ensures c * x + (c * w) * y == c * (x + w * y)
  {
  }

  lemma {:induction false} WeightedSumStep(alpha: real, n: nat, h: seq<real>, p: real, k: nat)
    requires k <= n && k <= |h|
    ensures WeightedSum(alpha, n + 1, h + [p], k) == (1.0 - alpha) * WeightedSum(alpha, n, h, k)
  {
    hide EmaWeight, Power;
    if k != 0 {
      WeightedSumStep(alpha, n, h, p, k - 1);
      EmaWeightStep(alpha, n, k - 1);
      Factor(1.0 - alpha, WeightedSum(alpha, n, h, k - 1), EmaWeight(alpha, n, k - 1), h[k - 1]);
    }
  }

  lemma {:induction false} WeightSumStep(alpha: real, n: nat, k: nat)
    requires k <= n
    ensures WeightSum(alpha, n + 1, k) == (1.0 - alpha) * WeightSum(alpha, n, k)
  {
    if k != 0 {
      WeightSumStep(alpha, n, k - 1);
      EmaWeightStep(alpha, n, k - 1);
    }
  }

  /** The incremental form: move from the previous average towards the price. */
  function EmaNext(previous: real, alpha: real, price: real): real {
    previous + alpha * (price - previous)
  }

  /** The incremental recurrence computes the closed form. */
  lemma EmaStep(period: nat, h: seq<real>, p: real)
    requires period > 0 && h != []
    ensures Ema(period, h + [p]) == EmaNext(Ema(period, h), Alpha(period), p)
  {
    var alpha, n := Alpha(period), |h|;
    hide Alpha, EmaWeight;
    WeightedSumStep(alpha, n, h, p, n);
    LastEmaWeight(alpha, n);
    var e := h + [p];
    assert WeightedSum(alpha, n + 1, e, n + 1) == WeightedSum(alpha, n + 1, e, n) + EmaWeight(alpha, n + 1, n) * e[n];
    Towards(WeightedSum(alpha, n, h, n), alpha, p);
  }

  lemma LastEmaWeight(alpha: real, n: nat)
    requires n > 0
    ensures EmaWeight(alpha, n + 1, n) == alpha
  {
    assert EmaWeight(alpha, n + 1, n) == alpha * Power(1.0 - alpha, 0);
  }

  lemma Towards(x: real, alpha: real, p: real)
    ensures (1.0 - alpha) * x + alpha * p == EmaNext(x, alpha, p)
  {
  }

  lemma EmaSingle(period: nat, p: real)
    requires period > 0
    ensures Ema(period, [p]) == p
  {
    assert EmaWeight(Alpha(period), 1, 0) == 1.0;
    assert WeightedSum(Alpha(period), 1, [p], 0) == 0.0;
  }

  /** The weights of the closed form add up to 1. */
  lemma {:induction false} EmaWeightsSumToOne(alpha: real, n: nat)
    requires n > 0
    ensures WeightSum(alpha, n, n) == 1.0
  {
    if n == 1 {
      assert WeightSum(alpha, 1, 0) == 0.0;
    } else {
      EmaWeightsSumToOne(alpha, n - 1);
      WeightSumStep(alpha, n - 1, n - 1);
      assert EmaWeight(alpha, n, n - 1) == alpha * Power(1.0 - alpha, 0) == alpha;
    }
  }

  // ----- what the smoothing factor means -----

  /** The ages of the first k of n prices, the last one having age 0, weighted. */
  function AgeSum(alpha: real, n: nat, k: nat): real
    requires k <= n
  {
    if k == 0 then 0.0 else AgeSum(alpha, n, k - 1) + EmaWeight(alpha, n, k - 1) * (n - k) as real
  }

  /** One more price makes every earlier one older by 1 and scales its weight. */
  lemma {:induction false} AgeStep(alpha: real, n: nat, k: nat)
    requires k <= n
    ensures AgeSum(alpha, n + 1, k) == (1.0 - alpha) * (AgeSum(alpha, n, k) + WeightSum(alpha, n, k))
  {
    hide EmaWeight, Power;
    if k != 0 {
      AgeStep(alpha, n, k - 1);
      EmaWeightStep(alpha, n, k - 1);
      OlderTerm(1.0 - alpha, AgeSum(alpha, n, k - 1), WeightSum(alpha, n, k - 1), EmaWeight(alpha, n, k - 1), n - k,
                AgeSum(alpha, n + 1, k - 1), EmaWeight(alpha, n + 1, k - 1));
    }
  }

  lemma OlderTerm(c: real, x: real, y: real, w: real, age: nat, x': real, w': real)
    requires x' == c * (x + y) && w' == c * w
    ensures x' + w' * (age + 1) as real == c * ((x + w * age as real) + (y + w))
  {
    var a := age as real;
    assert (age + 1) as real == a + 1.0;
    assert (c * w) * (a + 1.0) == c * (w * a) + c * w;
  }

  lemma AgeRecurrence(alpha: real, n: nat)
    requires n > 0
    ensures AgeSum(alpha, n + 1, n + 1) == (1.0 - alpha) * (AgeSum(alpha, n, n) + 1.0)
  {
    hide EmaWeight, Power;
    AgeStep(alpha, n, n);
    EmaWeightsSumToOne(alpha, n);
    assert AgeSum(alpha, n + 1, n + 1) == AgeSum(alpha, n + 1, n) + EmaWeight(alpha, n + 1, n) * 0.0;
  }

  /** The mean age of n prices, twice, is (period - 1) (1 - (1 - alpha)^(n - 1)).  This fixes the factor 2 / (period + 1). */
  lemma {:induction false} MeanAge(period: nat, n: nat)
    requires period > 0 && n > 0
    ensures 2.0 * AgeSum(Alpha(period), n, n) == (period as real - 1.0) * (1.0 - Power(1.0 - Alpha(period), n - 1))
  {
    hide Alpha, EmaWeight;
    var alpha := Alpha(period);
    if n == 1 {
      assert AgeSum(alpha, 1, 0) == 0.0;
    } else {
      MeanAge(period, n - 1);
      hide AgeSum;
      AgeRecurrence(alpha, n - 1);
      FactorOfPeriod(period);
      AgeAlgebra(1.0 - alpha, period as real, AgeSum(alpha, n - 1, n - 1), Power(1.0 - alpha, n - 2));
    }
  }

  lemma FactorOfPeriod(period: nat)
    requires period > 0
    ensures (1.0 - Alpha(period)) * (period as real + 1.0) == period as real - 1.0
  {
    var d := period as real + 1.0;
    assert (2.0 / d) * d == 2.0;
  }

  lemma AgeAlgebra(q: real, p: real, m: real, b: real)
    requires q * (p + 1.0) == p - 1.0 && 2.0 * m == (p - 1.0) * (1.0 - b)
    ensures 2.0 * (q * (m + 1.0)) == (p - 1.0) * (1.0 - q * b)
  {
    assert 2.0 * (q * (m + 1.0)) == q * (2.0 * m) + q * 2.0;
    assert q * ((p - 1.0) * (1.0 - b)) == q * (p - 1.0) - (p - 1.0) * (q * b);
    assert q * (p - 1.0) + q * 2.0 == q * (p + 1.0);
  }

  /** The average of period 1 is the last price. */
  lemma EmaOfPeriodOne(h: seq<real>)
    requires h != []
    ensures Ema(1, h) == h[|h| - 1]
  {
    if |h| == 1 {
      assert h == [h[0]];
      EmaSingle(1, h[0]);
    } else {
      var front, last := h[..|h| - 1], h[|h| - 1];
      assert h == front + [last];
      EmaStep(1, front, last);
      assert Alpha(1) == 1.0;
    }
  }

  // ----- relative strength index -----

  /** Upward moves between neighbouring prices, zero where the price did not rise. */
  function Gains(h: seq<real>): seq<real> {
    if |h| < 2 then [] else
      var n := |h| - 1;
      Gains(h[..n]) + [Max(h[n] - h[n - 1], 0.0)]
  }

  /** Downward moves between neighbouring prices, zero where the price did not fall. */
  function Losses(h: seq<real>): seq<real> {
    if |h| < 2 then [] else
      var n := |h| - 1;
      Losses(h[..n]) + [Max(h[n - 1] - h[n], 0.0)]
  }

  lemma {:induction false} MovesAt(h: seq<real>)
    ensures |Gains(h)| == |Losses(h)| == if |h| < 2 then 0 else |h| - 1
    ensures forall i :: 0 <= i < |Gains(h)| ==> Gains(h)[i] == Max(h[i + 1] - h[i], 0.0)
    ensures forall i :: 0 <= i < |Losses(h)| ==> Losses(h)[i] == Max(h[i] - h[i + 1], 0.0)
  {
    if |h| >= 2 {
      MovesAt(h[..|h| - 1]);
    }
  }

  lemma {:induction false} MovesAppend(h: seq<real>, p: real)
    requires h != []
    ensures Gains(h + [p]) == Gains(h) + [Max(p - h[|h| - 1], 0.0)]
    ensures Losses(h + [p]) == Losses(h) + [Max(h[|h| - 1] - p, 0.0)]
  {
    var e := h + [p];
    assert e[..|h|] == h && e[|h|] == p && e[|h| - 1] == h[|h| - 1];
  }

  lemma {:induction false} MovesNonNegative(h: seq<real>)
    ensures NonNegative(Gains(h)) && NonNegative(Losses(h))
  {
    if |h| >= 2 {
      MovesNonNegative(h[..|h| - 1]);
    }
  }

  /** The sum of the last min(n - 1, period) upward moves. */
  function GainSum(period: nat, h: seq<real>): (g: real)
    ensures g >= 0.0
  {
    MovesNonNegative(h);
    SumNonNegative(Last(Gains(h), period));
    Sum(Last(Gains(h), period))
  }

  /** The sum of the last min(n - 1, period) downward moves. */
  function LossSum(period: nat, h: seq<real>): (l: real)
    ensures l >= 0.0
  {
    MovesNonNegative(h);
    SumNonNegative(Last(Losses(h), period));
    Sum(Last(Losses(h), period))
  }

  /** 100 G / (G + L), and 50 when nothing moved. */
  function Share(g: real, l: real): (r: real)
    requires g >= 0.0 && l >= 0.0
    ensures 0.0 <= r <= 100.0
  {
    if g + l == 0.0 then 50.0 else
      assert 100.0 * g <= 100.0 * (g + l);
      100.0 * g / (g + l)
  }

  /** The gains' share of all moves in the window, as a percentage. */
  function Rsi(period: nat, h: seq<real>): (r: real)
    ensures 0.0 <= r <= 100.0
  {
    Share(GainSum(period, h), LossSum(period, h))
  }

  lemma {:induction false} SumIsZero(s: seq<real>)
    requires NonNegative(s)
    ensures Sum(s) == 0.0 <==> forall i :: 0 <= i < |s| ==> s[i] == 0.0
  {
    if s != [] {
      SumNonNegative(s[..|s| - 1]);
      SumIsZero(s[..|s| - 1]);
    }
  }

  /** No move between neighbouring prices of the window goes down. */
  ghost predicate NeverFalls(period: nat, h: seq<real>) {
    forall i :: 0 <= i < |h| - 1 && i >= |h| - 1 - period ==> h[i] <= h[i + 1]
  }

  ghost predicate NeverRises(period: nat, h: seq<real>) {
    forall i :: 0 <= i < |h| - 1 && i >= |h| - 1 - period ==> h[i] >= h[i + 1]
  }

  /** The moves of the window, one for each pair of neighbours from position `start` on. */
  lemma WindowMoves(period: nat, h: seq<real>) returns (start: nat)
    requires |h| >= 2
    ensures start == if |h| - 1 > period then |h| - 1 - period else 0
    ensures |Last(Gains(h), period)| == |Last(Losses(h), period)| == |h| - 1 - start
    ensures forall i :: start <= i < |h| - 1 ==>
              && Last(Gains(h), period)[i - start] == Max(h[i + 1] - h[i], 0.0)
              && Last(Losses(h), period)[i - start] == Max(h[i] - h[i + 1], 0.0)
  {
    hide Gains, Losses, Max;
    MovesAt(h);
    start := if |h| - 1 > period then |h| - 1 - period else 0;
  }

  lemma GainsVanish(period: nat, h: seq<real>)
    requires |h| >= 2
    ensures GainSum(period, h) == 0.0 <==> NeverRises(period, h)
  {
    hide Sum, Gains, Losses, Last;
    var start := WindowMoves(period, h);
    var g := Last(Gains(h), period);
    WindowNonNegative(period, h);
    SumIsZero(g);
    if forall i :: 0 <= i < |g| ==> g[i] == 0.0 {
      forall i | start <= i < |h| - 1 ensures h[i] >= h[i + 1] {
        assert g[i - start] == 0.0;
      }
    }
    if NeverRises(period, h) {
      forall j | 0 <= j < |g| ensures g[j] == 0.0 {
        var i := j + start;
        assert h[i] >= h[i + 1] && g[i - start] == Max(h[i + 1] - h[i], 0.0);
      }
    }
  }

  lemma LossesVanish(period: nat, h: seq<real>)
    requires |h| >= 2
    ensures LossSum(period, h) == 0.0 <==> NeverFalls(period, h)
  {
    hide Sum, Gains, Losses, Last;
    var start := WindowMoves(period, h);
    var l := Last(Losses(h), period);
    WindowNonNegative(period, h);
    SumIsZero(l);
    if forall i :: 0 <= i < |l| ==> l[i] == 0.0 {
      forall i | start <= i < |h| - 1 ensures h[i] <= h[i + 1] {
        assert l[i - start] == 0.0;
      }
    }
    if NeverFalls(period, h) {
      forall j | 0 <= j < |l| ensures l[j] == 0.0 {
        var i := j + start;
        assert h[i] <= h[i + 1] && l[i - start] == Max(h[i] - h[i + 1], 0.0);
      }
    }
  }

  lemma WindowNonNegative(period: nat, h: seq<real>)
    ensures NonNegative(Last(Gains(h), period)) && NonNegative(Last(Losses(h), period))
  {
    hide Gains, Losses;
    MovesNonNegative(h);
  }

  /** The index is 100 exactly when the window rises and never falls, 0 exactly when it falls and never rises, and 50 when it
      does neither. */
  lemma RsiExtremes(period: nat, h: seq<real>)
    ensures Rsi(period, h) == 100.0 <==> NeverFalls(period, h) && !NeverRises(period, h)
    ensures Rsi(period, h) == 0.0 <==> NeverRises(period, h) && !NeverFalls(period, h)
    ensures NeverFalls(period, h) && NeverRises(period, h) ==> Rsi(period, h) == 50.0
  {
    hide GainSum, LossSum, NeverFalls, NeverRises;
    if |h| >= 2 {
      GainsVanish(period, h);
      LossesVanish(period, h);
    } else {
      ShortHistory(period, h);
    }
    ShareExtremes(GainSum(period, h), LossSum(period, h));
  }

  lemma ShortHistory(period: nat, h: seq<real>)
    requires |h| < 2
    ensures GainSum(period, h) == 0.0 && LossSum(period, h) == 0.0 && NeverFalls(period, h) && NeverRises(period, h)
  {
  }

  lemma ShareExtremes(g: real, l: real)
    requires g >= 0.0 && l >= 0.0
    ensures Share(g, l) == 100.0 <==> l == 0.0 && g > 0.0
    ensures Share(g, l) == 0.0 <==> g == 0.0 && l > 0.0
    ensures g == 0.0 && l == 0.0 ==> Share(g, l) == 50.0
  {
    if g + l != 0.0 {
      var q, d := 100.0 * g / (g + l), g + l;
      assert q * d == 100.0 * g;
      assert q == 100.0 ==> 100.0 * g + 100.0 * l == 100.0 * g;
    }
  }

  /** The code's arithmetic on the average gain and the average loss. */
  function RsiFromAverages(averageGain: real, averageLoss: real): real
    requires averageGain >= 0.0 && averageLoss >= 0.0
  {
    if averageLoss == 0.0 then if averageGain > 0.0 then 100.0 else 50.0
    else
      var rs := averageGain / averageLoss;
      100.0 - 100.0 / (1.0 + rs)
  }

  /** The code's formula, from averages over k moves, is the plain share of the gains. */
  lemma RsiFormula(g: real, l: real, k: real)
    requires g >= 0.0 && l >= 0.0 && k > 0.0
    ensures g / k >= 0.0 && l / k >= 0.0
    ensures RsiFromAverages(g / k, l / k) == Share(g, l)
  {
    var x, y := g / k, l / k;
    if l == 0.0 {
      if g > 0.0 {
        Quotient(100.0 * g, g, 100.0);
      }
    } else {
      var q, s := g / l, g + l;
      var u := l / s;
      assert x / y == q by {
        assert x * k == g && y * k == l && q * l == g;
        assert (q * y) * k == q * (y * k);
        Quotient(x, y, q);
      }
      assert 100.0 / (1.0 + q) == 100.0 * u by {
        assert (1.0 + q) * l == s && u * s == l;
        assert ((1.0 + q) * u) * s == (1.0 + q) * (u * s);
        Quotient(100.0, 1.0 + q, 100.0 * u);
      }
      assert 100.0 * g / s == 100.0 - 100.0 * u by {
        assert u * s == l;
        Quotient(100.0 * g, s, 100.0 - 100.0 * u);
      }
    }
  }

  lemma Quotient(a: real, b: real, q: real)
    requires b != 0.0 && q * b == a
    ensures a / b == q
  {
  }

  /** The code's value of a window of moves. */
  function WindowRsi(gains: seq<real>, losses: seq<real>): real
    requires gains != [] && Sum(gains) >= 0.0 && Sum(losses) >= 0.0
  {
    var count := |gains| as real;
    RsiFormula(Sum(gains), Sum(losses), count);
    RsiFromAverages(Sum(gains) / count, Sum(losses) / count)
  }

  lemma WindowRsiIsShare(gains: seq<real>, losses: seq<real>)
    requires gains != [] && Sum(gains) >= 0.0 && Sum(losses) >= 0.0
    ensures WindowRsi(gains, losses) == Share(Sum(gains), Sum(losses))
  {
    hide RsiFromAverages, Share, Sum;
    RsiFormula(Sum(gains), Sum(losses), |gains| as real);
  }
}
