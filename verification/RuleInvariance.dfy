/**
 Laws of whole evaluations: the evidence depends on prices only through clause outcomes, so it is
 unchanged under a rescaling of the price axis; RSI mirrors when prices mirror; crossings alternate.
 */
module RuleInvariance {
  import opened Options
  import opened RuleSyntax
  import opened IndicatorMath
  import opened RuleSemantics

  // ----- evidence is a function of clause outcomes -----

  ghost predicate SameClause(spec: StrategySpec, h: seq<real>, g: seq<real>, clause: RuleClause)
    requires WellFormed(spec)
  {
    ClauseOutcome(spec, h, clause) == ClauseOutcome(spec, g, clause)
  }

  ghost predicate SameClauses(spec: StrategySpec, h: seq<real>, g: seq<real>)
    requires WellFormed(spec)
  {
    forall n, i :: n in spec.rules.entries && 0 <= i < |Clauses(spec.rules.entries[n])| ==>
      SameClause(spec, h, g, Clauses(spec.rules.entries[n])[i])
  }

  ghost predicate SameOutcomes(spec: StrategySpec, h: seq<real>, g: seq<real>)
    requires WellFormed(spec)
  {
    |h| == |g| && forall k :: 0 <= k <= |h| ==> SameClauses(spec, h[..k], g[..k])
  }

  lemma {:induction false} SameBlockFrom(spec: StrategySpec, h: seq<real>, g: seq<real>, block: RuleBlock, i: nat)
    requires WellFormed(spec) && i <= |Clauses(block)|
    requires forall j :: 0 <= j < |Clauses(block)| ==> SameClause(spec, h, g, Clauses(block)[j])
    ensures OutcomeFrom(spec, h, block, i) == OutcomeFrom(spec, g, block, i)
    ensures LookedAt(spec, h, block, i) == LookedAt(spec, g, block, i)
    decreases |Clauses(block)| - i
  {
    hide ClauseOutcome;
    if i < |Clauses(block)| {
      assert SameClause(spec, h, g, Clauses(block)[i]);
      SameBlockFrom(spec, h, g, block, i + 1);
    }
  }

  lemma SameRule(spec: StrategySpec, h: seq<real>, g: seq<real>, n: string)
    requires WellFormed(spec) && SameClauses(spec, h, g) && n in spec.rules.entries
    ensures RuleOutcome(spec, h, n) == RuleOutcome(spec, g, n)
    ensures BlockCost(spec, h, spec.rules.entries[n]) == BlockCost(spec, g, spec.rules.entries[n])
  {
    hide SameClause;
    SameBlockFrom(spec, h, g, spec.rules.entries[n], 0);
  }

  lemma {:induction false} SameStepCost(spec: StrategySpec, h: seq<real>, g: seq<real>, i: nat)
    requires WellFormed(spec) && SameClauses(spec, h, g) && i <= |spec.rules.keys|
    ensures StepCost(spec, h, i) == StepCost(spec, g, i)
  {
    hide SameClauses;
    hide BlockCost;
    if i > 0 {
      SameStepCost(spec, h, g, i - 1);
      SameRule(spec, h, g, spec.rules.keys[i - 1]);
    }
  }

  lemma SamePrefix(spec: StrategySpec, h: seq<real>, g: seq<real>)
    requires WellFormed(spec) && SameOutcomes(spec, h, g) && h != []
    ensures SameClauses(spec, h, g)
    ensures SameOutcomes(spec, Before(h), Before(g))
  {
    hide SameClauses;
    assert h[..|h|] == h && g[..|g|] == g;
    forall k | 0 <= k <= |h| - 1 ensures SameClauses(spec, Before(h)[..k], Before(g)[..k]) {
      assert Before(h)[..k] == h[..k] && Before(g)[..k] == g[..k];
    }
  }

  lemma SameRaises(spec: StrategySpec, h: seq<real>, g: seq<real>)
    requires WellFormed(spec) && SameClauses(spec, h, g)
    ensures RaisesAt(spec, h) <==> RaisesAt(spec, g)
  {
    hide SameClauses;
    hide RuleOutcome;
    forall n | n in spec.rules.entries ensures RuleOutcome(spec, h, n) == RuleOutcome(spec, g, n) {
      SameRule(spec, h, g, n);
    }
  }

  lemma {:induction false} SameTotals(spec: StrategySpec, h: seq<real>, g: seq<real>)
    requires WellFormed(spec) && SameOutcomes(spec, h, g)
    ensures TotalCost(spec, h) == TotalCost(spec, g)
    ensures RaisesWithin(spec, h) <==> RaisesWithin(spec, g)
    decreases |h|
  {
    hide SameClauses;
    hide SameOutcomes;
    hide StepCost;
    hide RaisesAt;
    assert |h| == |g| by { SameLength(spec, h, g); }
    if h != [] {
      SamePrefix(spec, h, g);
      SameTotals(spec, Before(h), Before(g));
      SameStepCost(spec, h, g, |spec.rules.keys|);
      SameRaises(spec, h, g);
    }
  }

  lemma SameLength(spec: StrategySpec, h: seq<real>, g: seq<real>)
    requires WellFormed(spec) && SameOutcomes(spec, h, g)
    ensures |h| == |g|
  {
    hide SameClauses;
  }

  lemma SameRuleEvidence(spec: StrategySpec, h: seq<real>, g: seq<real>, n: string)
    requires WellFormed(spec) && SameOutcomes(spec, h, g) && n in spec.rules.entries
    ensures RuleEvidenceOf(spec, h, n) == RuleEvidenceOf(spec, g, n)
  {
    hide SameClauses;
    hide RuleOutcome;
    forall k: nat | k <= |h| ensures RuleOutcome(spec, h[..k], n) == RuleOutcome(spec, g[..k], n) {
      SameRule(spec, h[..k], g[..k], n);
    }
    assert h[..|h|] == h && g[..|g|] == g;
    assert TrueSteps(spec, h, n) == TrueSteps(spec, g, n);
  }

  /** Two histories on which every clause has the same outcome at every step yield the same evidence. */
  lemma EvidenceDependsOnOutcomes(spec: StrategySpec, h: seq<real>, g: seq<real>)
    requires WellFormed(spec) && SameOutcomes(spec, h, g)
    ensures BatchResult(spec, h) == BatchResult(spec, g)
  {
    hide SameOutcomes;
    hide RaisesWithin;
    hide TotalCost;
    hide RuleEvidenceOf;
    SameLength(spec, h, g);
    SameTotals(spec, h, g);
    forall n | n in spec.rules.entries ensures RuleEvidenceOf(spec, h, n) == RuleEvidenceOf(spec, g, n) {
      SameRuleEvidence(spec, h, g, n);
    }
  }

  // ----- rescaling the price axis -----

  ghost function Rescale(a: real, b: real, p: real): real {
    a * p + b
  }

  /** g is h with every price p replaced by a * p + b. */
  ghost predicate Rescaled(h: seq<real>, g: seq<real>, a: real, b: real) {
    |h| == |g| && forall i :: 0 <= i < |h| ==> g[i] == Rescale(a, b, h[i])
  }

  lemma {:induction false} SumRescaled(s: seq<real>, t: seq<real>, a: real, b: real)
    requires Rescaled(s, t, a, b)
    ensures Sum(t) == a * Sum(s) + b * |s| as real
  {
    if s != [] {
      var n := |s| - 1;
      SumRescaled(s[..n], t[..n], a, b);
      assert t[n] == a * s[n] + b;
      assert b * (n as real + 1.0) == b * n as real + b;
    }
  }

  lemma MeanRescaled(s: seq<real>, t: seq<real>, a: real, b: real)
    requires Rescaled(s, t, a, b) && s != []
    ensures Mean(t) == Rescale(a, b, Mean(s))
  {
    SumRescaled(s, t, a, b);
    var n := |s| as real;
    assert Mean(s) * n == Sum(s);
    assert (a * Mean(s) + b) * n == a * Sum(s) + b * n;
  }

  lemma SmaRescaled(period: nat, h: seq<real>, g: seq<real>, a: real, b: real)
    requires Rescaled(h, g, a, b) && period > 0 && h != []
    ensures Sma(period, g) == Rescale(a, b, Sma(period, h))
  {
    hide Mean;
    hide Rescale;
    MeanRescaled(Last(h, period), Last(g, period), a, b);
  }

  lemma {:induction false} EmaRescaled(period: nat, h: seq<real>, g: seq<real>, a: real, b: real)
    requires Rescaled(h, g, a, b) && period > 0 && h != []
    ensures Ema(period, g) == Rescale(a, b, Ema(period, h))
  {
    hide Rescale;
    hide EmaNext;
    hide Ema;
    hide Alpha;
    var n := |h| - 1;
    var h', g' := h[..n], g[..n];
    assert h == h' + [h[n]] && g == g' + [g[n]];
    if n == 0 {
      EmaSingle(period, h[0]);
      EmaSingle(period, g[0]);
    } else {
      EmaRescaled(period, h', g', a, b);
      EmaStep(period, h', h[n]);
      EmaStep(period, g', g[n]);
      EmaNextRescaled(Ema(period, h'), Alpha(period), h[n], a, b);
    }
  }

  lemma EmaNextRescaled(e: real, alpha: real, p: real, a: real, b: real)
    ensures EmaNext(Rescale(a, b, e), alpha, Rescale(a, b, p)) == Rescale(a, b, EmaNext(e, alpha, p))
  {
    var d := p - e;
    assert (a * p + b) - (a * e + b) == a * d;
    assert alpha * (a * d) == a * (alpha * d);
  }

  lemma MovesRescaled(h: seq<real>, g: seq<real>, a: real, b: real)
    requires Rescaled(h, g, a, b) && a > 0.0
    ensures ScaledBy(Gains(h), Gains(g), a) && ScaledBy(Losses(h), Losses(g), a)
  {
    MovesAt(h);
    MovesAt(g);
    hide Gains;
    hide Losses;
    hide Max;
    hide Rescale;
    forall i | 0 <= i < |Gains(h)| ensures Gains(g)[i] == a * Gains(h)[i] && Losses(g)[i] == a * Losses(h)[i] {
      MaxRescaled(h[i + 1], h[i], a, b);
      MaxRescaled(h[i], h[i + 1], a, b);
    }
  }

  lemma MaxRescaled(x: real, y: real, a: real, b: real)
    requires a > 0.0
    ensures Max(Rescale(a, b, x) - Rescale(a, b, y), 0.0) == a * Max(x - y, 0.0)
  {
    assert (a * x + b) - (a * y + b) == a * (x - y);
    assert a * (x - y) > 0.0 <==> x - y > 0.0;
  }

  lemma WindowScaled(s: seq<real>, t: seq<real>, a: real, k: nat)
    requires ScaledBy(s, t, a)
    ensures Sum(Last(t, k)) == a * Sum(Last(s, k))
  {
    hide Sum, ScaledBy, Last;
    LastScaled(s, t, a, k);
    SumScaled(Last(s, k), Last(t, k), a);
  }

  lemma LastScaled(s: seq<real>, t: seq<real>, a: real, k: nat)
    requires ScaledBy(s, t, a)
    ensures ScaledBy(Last(s, k), Last(t, k), a)
  {
  }

  lemma ShareScaled(g: real, l: real, g': real, l': real, a: real)
    requires g >= 0.0 && l >= 0.0 && a > 0.0
    requires g' == a * g && l' == a * l
    ensures g' >= 0.0 && l' >= 0.0 && Share(g', l') == Share(g, l)
  {
    assert g' + l' == a * (g + l);
    if g + l != 0.0 {
      var s := g + l;
      assert a * s > 0.0;
      var q := 100.0 * g / s;
      assert q * s == 100.0 * g;
      assert q * (a * s) == a * (q * s);
      assert a * (100.0 * g) == 100.0 * g';
    }
  }

  lemma MoveSumsRescaled(period: nat, h: seq<real>, g: seq<real>, a: real, b: real)
    requires Rescaled(h, g, a, b) && a > 0.0
    ensures GainSum(period, g) == a * GainSum(period, h)
    ensures LossSum(period, g) == a * LossSum(period, h)
  {
    hide Sum;
    MovesRescaled(h, g, a, b);
    WindowScaled(Gains(h), Gains(g), a, period);
    WindowScaled(Losses(h), Losses(g), a, period);
  }

  lemma RsiRescaled(period: nat, h: seq<real>, g: seq<real>, a: real, b: real)
    requires Rescaled(h, g, a, b) && a > 0.0
    ensures Rsi(period, g) == Rsi(period, h)
  {
    hide GainSum;
    hide LossSum;
    MoveSumsRescaled(period, h, g, a, b);
    ShareScaled(GainSum(period, h), LossSum(period, h), GainSum(period, g), LossSum(period, g), a);
  }

  /** Operands that move with the price axis: unshadowed price fields, EMA and SMA. */
  ghost predicate PriceLike(spec: StrategySpec, operand: Operand) {
    operand.Name? &&
    if operand.name in spec.indicators.entries
    then spec.indicators.entries[operand.name].kind.EMA? || spec.indicators.entries[operand.name].kind.SMA?
    else operand.name in PriceFields()
  }

  /** Operands that ignore the price axis: numbers and RSI. */
  ghost predicate ScaleFree(spec: StrategySpec, operand: Operand) {
    operand.Number? ||
    (operand.name in spec.indicators.entries && spec.indicators.entries[operand.name].kind.RSI?)
  }

  /** Each clause compares two price-like operands or two scale-free ones. */
  ghost predicate ComparesLikeWithLike(spec: StrategySpec, clause: RuleClause) {
    var op := FirstOperator(clause, 0);
    op.Some? && |clause.operands[op.value]| >= 2 ==>
      var l, r := clause.operands[op.value][0], clause.operands[op.value][1];
      (PriceLike(spec, l) && PriceLike(spec, r)) || (ScaleFree(spec, l) && ScaleFree(spec, r))
  }

  lemma ResolvePriceLike(spec: StrategySpec, h: seq<real>, g: seq<real>, a: real, b: real, operand: Operand)
    requires WellFormed(spec) && Rescaled(h, g, a, b) && PriceLike(spec, operand)
    ensures h == [] ==> Resolve(spec, h, operand) == Resolve(spec, g, operand) == None
    ensures h != [] ==> Resolve(spec, h, operand).Some?
                        && Resolve(spec, g, operand) == Some(Rescale(a, b, Resolve(spec, h, operand).value))
  {
    hide PriceFields;
    hide Ema;
    hide Sma;
    hide Rescale;
    if h != [] && operand.name in spec.indicators.entries {
      var period := spec.indicators.entries[operand.name].period;
      EmaRescaled(period, h, g, a, b);
      SmaRescaled(period, h, g, a, b);
    }
  }

  lemma ResolveScaleFree(spec: StrategySpec, h: seq<real>, g: seq<real>, a: real, b: real, operand: Operand)
    requires WellFormed(spec) && Rescaled(h, g, a, b) && a > 0.0 && ScaleFree(spec, operand)
    ensures Resolve(spec, h, operand) == Resolve(spec, g, operand)
  {
    hide PriceFields;
    hide Rsi;
    if h != [] && operand.Name? {
      RsiRescaled(spec.indicators.entries[operand.name].period, h, g, a, b);
    }
  }

  lemma CompareRescaled(x: real, y: real, a: real, b: real)
    requires a > 0.0
    ensures Rescale(a, b, x) < Rescale(a, b, y) <==> x < y
    ensures Rescale(a, b, x) == Rescale(a, b, y) <==> x == y
  {
    assert (a * y + b) - (a * x + b) == a * (y - x);
    assert a * (y - x) > 0.0 <==> y - x > 0.0;
    assert a * (y - x) == 0.0 <==> y - x == 0.0;
  }

  lemma HoldsRescaled(spec: StrategySpec, h: seq<real>, g: seq<real>, a: real, b: real, op: Operator, l: Operand, r: Operand)
    requires WellFormed(spec) && Rescaled(h, g, a, b) && a > 0.0
    requires (PriceLike(spec, l) && PriceLike(spec, r)) || (ScaleFree(spec, l) && ScaleFree(spec, r))
    ensures Holds(spec, h, op, l, r) <==> Holds(spec, g, op, l, r)
  {
    hide Resolve;
    hide WellFormed;
    hide Rescale;
    assert Rescaled(Before(h), Before(g), a, b);
    if PriceLike(spec, l) && PriceLike(spec, r) {
      hide PriceLike;
      ResolvePriceLike(spec, h, g, a, b, l);
      ResolvePriceLike(spec, h, g, a, b, r);
      ResolvePriceLike(spec, Before(h), Before(g), a, b, l);
      ResolvePriceLike(spec, Before(h), Before(g), a, b, r);
      if h != [] {
        CompareBoth(Resolve(spec, h, l).value, Resolve(spec, h, r).value, a, b);
      }
      if Before(h) != [] {
        CompareBoth(Resolve(spec, Before(h), l).value, Resolve(spec, Before(h), r).value, a, b);
      }
    } else {
      ResolveScaleFree(spec, h, g, a, b, l);
      ResolveScaleFree(spec, h, g, a, b, r);
      ResolveScaleFree(spec, Before(h), Before(g), a, b, l);
      ResolveScaleFree(spec, Before(h), Before(g), a, b, r);
    }
  }

  lemma CompareBoth(x: real, y: real, a: real, b: real)
    requires a > 0.0
    ensures Rescale(a, b, x) < Rescale(a, b, y) <==> x < y
    ensures Rescale(a, b, y) < Rescale(a, b, x) <==> y < x
    ensures Rescale(a, b, x) == Rescale(a, b, y) <==> x == y
  {
    CompareRescaled(x, y, a, b);
    CompareRescaled(y, x, a, b);
  }

  lemma ClauseRescaled(spec: StrategySpec, h: seq<real>, g: seq<real>, a: real, b: real, clause: RuleClause)
    requires WellFormed(spec) && Rescaled(h, g, a, b) && a > 0.0 && ComparesLikeWithLike(spec, clause)
    ensures SameClause(spec, h, g, clause)
  {
    hide Holds;
    hide PriceLike;
    hide ScaleFree;
    var op := FirstOperator(clause, 0);
    if op.Some? && |clause.operands[op.value]| >= 2 {
      HoldsRescaled(spec, h, g, a, b, op.value, clause.operands[op.value][0], clause.operands[op.value][1]);
    }
  }

  /** Replacing every price p by a * p + b, with a > 0, changes nothing in the evidence. */
  lemma EvidenceRescaled(spec: StrategySpec, h: seq<real>, g: seq<real>, a: real, b: real)
    requires WellFormed(spec) && Rescaled(h, g, a, b) && a > 0.0
    requires forall n, i :: n in spec.rules.entries && 0 <= i < |Clauses(spec.rules.entries[n])| ==>
               ComparesLikeWithLike(spec, Clauses(spec.rules.entries[n])[i])
    ensures BatchResult(spec, h) == BatchResult(spec, g)
  {
    hide SameClause;
    hide ComparesLikeWithLike;
    hide WellFormed;
    forall k | 0 <= k <= |h| ensures SameClauses(spec, h[..k], g[..k]) {
      forall n, i | n in spec.rules.entries && 0 <= i < |Clauses(spec.rules.entries[n])|
        ensures SameClause(spec, h[..k], g[..k], Clauses(spec.rules.entries[n])[i])
      {
        ClauseRescaled(spec, h[..k], g[..k], a, b, Clauses(spec.rules.entries[n])[i]);
      }
    }
    EvidenceDependsOnOutcomes(spec, h, g);
  }

  // ----- mirroring -----

  lemma MovesMirrored(h: seq<real>, g: seq<real>, c: real)
    requires |h| == |g| && forall i :: 0 <= i < |h| ==> g[i] == c - h[i]
    ensures Gains(g) == Losses(h) && Losses(g) == Gains(h)
  {
    MovesAt(h);
    MovesAt(g);
  }

  lemma ShareMirrored(g: real, l: real)
    requires g >= 0.0 && l >= 0.0
    ensures Share(l, g) == 100.0 - Share(g, l)
  {
    if g + l != 0.0 {
      var s := g + l;
      assert 100.0 * g / s + 100.0 * l / s == 100.0;
    }
  }

  /** Mirroring the prices, p to c - p, turns RSI into 100 - RSI. */
  lemma RsiMirrored(period: nat, h: seq<real>, g: seq<real>, c: real)
    requires |h| == |g| && forall i :: 0 <= i < |h| ==> g[i] == c - h[i]
    ensures Rsi(period, g) == 100.0 - Rsi(period, h)
  {
    hide Share;
    MovesMirrored(h, g, c);
    ShareMirrored(GainSum(period, h), LossSum(period, h));
  }

  // ----- crossings -----

  /** crossed_above is crossed_below with the operands swapped. */
  lemma CrossingsSwap(spec: StrategySpec, h: seq<real>, l: Operand, r: Operand)
    requires WellFormed(spec)
    ensures Holds(spec, h, CrossedAbove, l, r) <==> Holds(spec, h, CrossedBelow, r, l)
  {
  }

  lemma NothingBeforeTheFirstPrice(spec: StrategySpec, operand: Operand)
    requires WellFormed(spec) && operand.Name?
    ensures Resolve(spec, [], operand) == None
  {
    hide PriceFields;
  }

  /** crossed_above fires neither on the first observation nor on two in a row. */
  lemma CrossedAboveNeedsAChange(spec: StrategySpec, h: seq<real>, l: Operand, r: Operand)
    requires WellFormed(spec)
    ensures |h| <= 1 ==> !Holds(spec, h, CrossedAbove, l, r)
    ensures Holds(spec, h, CrossedAbove, l, r) ==> !Holds(spec, Before(h), CrossedAbove, l, r)
  {
    hide Resolve;
    if |h| <= 1 {
      assert Before(h) == [];
      if l.Name? {
        NothingBeforeTheFirstPrice(spec, l);
      } else if r.Name? {
        NothingBeforeTheFirstPrice(spec, r);
      } else {
        NumbersDoNotMove(spec, h, l);
        NumbersDoNotMove(spec, h, r);
      }
    }
  }

  lemma NumbersDoNotMove(spec: StrategySpec, h: seq<real>, operand: Operand)
    requires WellFormed(spec) && operand.Number?
    ensures Resolve(spec, h, operand) == Resolve(spec, Before(h), operand)
  {
  }

  ghost function CrossCount(spec: StrategySpec, h: seq<real>, op: Operator, l: Operand, r: Operand): nat
    requires WellFormed(spec)
  {
    if h == [] then 0
    else CrossCount(spec, Before(h), op, l, r) + if Holds(spec, h, op, l, r) then 1 else 0
  }

  ghost predicate Tie(spec: StrategySpec, h: seq<real>, l: Operand, r: Operand)
    requires WellFormed(spec)
  {
    Resolve(spec, h, l).Some? && Resolve(spec, h, r).Some? && Resolve(spec, h, l) == Resolve(spec, h, r)
  }

  /** No observation of the history leaves the two operands equal. */
  ghost predicate NeverTies(spec: StrategySpec, h: seq<real>, l: Operand, r: Operand)
    requires WellFormed(spec)
  {
    h == [] || (!Tie(spec, h, l, r) && NeverTies(spec, Before(h), l, r))
  }

  /** 1 while the left operand is above the right one, 0 otherwise. */
  ghost function Side(spec: StrategySpec, h: seq<real>, l: Operand, r: Operand): int
    requires WellFormed(spec)
  {
    if Resolve(spec, h, l).Some? && Resolve(spec, h, r).Some?
       && Resolve(spec, h, l).value > Resolve(spec, h, r).value then 1 else 0
  }

  lemma DefinedOnceDefinedAlways(spec: StrategySpec, h: seq<real>, g: seq<real>, operand: Operand)
    requires WellFormed(spec) && h != [] && g != []
    ensures Resolve(spec, h, operand).Some? <==> Resolve(spec, g, operand).Some?
  {
    hide PriceFields;
    hide Ema;
    hide Sma;
    hide Rsi;
  }

  /** Without ties, a crossing above raises the side from 0 to 1 and a crossing below lowers it. */
  lemma CrossingMovesSide(spec: StrategySpec, h: seq<real>, l: Operand, r: Operand)
    requires WellFormed(spec) && |h| >= 2 && !Tie(spec, h, l, r) && !Tie(spec, Before(h), l, r)
    ensures Side(spec, h, l, r) - Side(spec, Before(h), l, r) ==
            (if Holds(spec, h, CrossedAbove, l, r) then 1 else 0) - (if Holds(spec, h, CrossedBelow, l, r) then 1 else 0)
  {
    hide Resolve;
    DefinedOnceDefinedAlways(spec, h, Before(h), l);
    DefinedOnceDefinedAlways(spec, h, Before(h), r);
  }

  lemma {:induction false} CrossingsTelescope(spec: StrategySpec, h: seq<real>, l: Operand, r: Operand)
    requires WellFormed(spec) && NeverTies(spec, h, l, r) && h != []
    ensures CrossCount(spec, h, CrossedAbove, l, r) - CrossCount(spec, h, CrossedBelow, l, r) ==
            Side(spec, h, l, r) - Side(spec, h[..1], l, r)
  {
    hide Holds;
    hide Side;
    hide Tie;
    if |h| == 1 {
      assert h[..1] == h && Before(h) == [];
      CrossedAboveNeedsAChange(spec, h, l, r);
      CrossedAboveNeedsAChange(spec, h, r, l);
      CrossingsSwap(spec, h, r, l);
    } else {
      assert Before(h)[..1] == h[..1];
      CrossingsTelescope(spec, Before(h), l, r);
      CrossingMovesSide(spec, h, l, r);
    }
  }

  /** If the two operands never tie, crossings above and below alternate, so their counts differ by at most 1. */
  lemma CrossingsBalance(spec: StrategySpec, h: seq<real>, l: Operand, r: Operand)
    requires WellFormed(spec) && NeverTies(spec, h, l, r)
    ensures -1 <= CrossCount(spec, h, CrossedAbove, l, r) - CrossCount(spec, h, CrossedBelow, l, r) <= 1
  {
    hide Resolve;
    if h != [] {
      CrossingsTelescope(spec, h, l, r);
    }
  }
}
