/**
 What a strategy spec means on a price history, defined on the whole history at once: the value of
 every name, the outcome of every clause and block, and the evidence after n observations.
 */
module RuleSemantics {
  import opened Options
  import opened RuleSyntax
  import opened IndicatorMath

  /** A clause yields a truth value, or raises when its operand list has fewer than two elements. */
  datatype Outcome = Value(holds: bool) | IndexError

  datatype RuleEvidence = RuleEvidence(lastValue: bool, trueCount: nat)

  datatype Evidence = Evidence(evaluated: bool, observations: nat, evaluations: nat, rules: map<string, RuleEvidence>)

  datatype EvaluationResult = Completed(evidence: Evidence) | Raised

  // ----- values -----

  function IndicatorValue(ind: IndicatorSpec, h: seq<real>): Option<real>
    requires ind.period > 0
  {
    if h == [] then None else
      match ind.kind
      case EMA => Some(Ema(ind.period, h))
      case SMA => Some(Sma(ind.period, h))
      case RSI => Some(Rsi(ind.period, h))
      case _ => None
  }

  /** The value of a name after history h: an indicator hides a price field of the same name. */
  ghost function ValueOf(spec: StrategySpec, h: seq<real>, name: string): Option<real>
    requires WellFormed(spec)
  {
    if name in spec.indicators.entries then IndicatorValue(spec.indicators.entries[name], h)
    else if name in PriceFields() && h != [] then Some(h[|h| - 1])
    else None
  }

  ghost function Resolve(spec: StrategySpec, h: seq<real>, operand: Operand): Option<real>
    requires WellFormed(spec)
  {
    match operand
    case Number(x) => Some(x)
    case Name(n) => ValueOf(spec, h, n)
  }

  /** The history one observation earlier. */
  function Before(h: seq<real>): seq<real> {
    if h == [] then [] else h[..|h| - 1]
  }

  // ----- clauses -----

  function Compare(op: Operator, left: Option<real>, right: Option<real>,
                   previousLeft: Option<real>, previousRight: Option<real>): bool
  {
    if left.None? || right.None? then false else
      match op
      case CrossedAbove => previousLeft.Some? && previousRight.Some?
                           && previousLeft.value <= previousRight.value && left.value > right.value
      case CrossedBelow => previousLeft.Some? && previousRight.Some?
                           && previousLeft.value >= previousRight.value && left.value < right.value
      case Gt => left.value > right.value
      case Lt => left.value < right.value
      case Gte => left.value >= right.value
      case Lte => left.value <= right.value
      case Eq => left.value == right.value
  }

  ghost predicate Holds(spec: StrategySpec, h: seq<real>, op: Operator, left: Operand, right: Operand)
    requires WellFormed(spec)
  {
    Compare(op, Resolve(spec, h, left), Resolve(spec, h, right),
            Resolve(spec, Before(h), left), Resolve(spec, Before(h), right))
  }

  // ----- what the indicators mean -----

  /** The first price is its own average, the index starts in the middle, and nothing has a value before it. */
  lemma IndicatorsStart(ind: IndicatorSpec, p: real)
    requires ind.period > 0
    ensures IndicatorValue(ind, []) == None
    ensures ind.kind.EMA? || ind.kind.SMA? ==> IndicatorValue(ind, [p]) == Some(p)
    ensures ind.kind.RSI? ==> IndicatorValue(ind, [p]) == Some(50.0)
  {
    hide Ema, Power, Alpha;
    EmaSingle(ind.period, p);
    assert Last([p], ind.period) == [p];
    assert Sum([p]) == Sum([]) + p by {
      assert [p][..0] == [];
    }
  }

  /** The moving averages follow each new price: the exponential one by 2 / (period + 1) of the distance, the simple one by trading the price
      that leaves its window for the new one.  The index shows only rises as 100 and only falls as 0.  No other type has a value. */
  lemma IndicatorsMove(ind: IndicatorSpec, h: seq<real>, p: real)
    requires ind.period > 0 && h != []
    ensures IndicatorValue(ind, h).Some? <==> ind.kind.EMA? || ind.kind.SMA? || ind.kind.RSI?
    ensures IndicatorValue(ind, h + [p]).Some? <==> IndicatorValue(ind, h).Some?
    ensures ind.kind.EMA? ==>
              var before := IndicatorValue(ind, h).value;
              IndicatorValue(ind, h + [p]).value == before + (2.0 / (ind.period as real + 1.0)) * (p - before)
    ensures ind.kind.SMA? && |h| >= ind.period ==>
              IndicatorValue(ind, h + [p]).value * ind.period as real ==
              IndicatorValue(ind, h).value * ind.period as real + p - h[|h| - ind.period]
    ensures ind.kind.SMA? && |h| < ind.period ==>
              IndicatorValue(ind, h + [p]).value * (|h| + 1) as real == IndicatorValue(ind, h).value * |h| as real + p
    ensures ind.kind.RSI? ==>
              && (IndicatorValue(ind, h) == Some(100.0) <==> NeverFalls(ind.period, h) && !NeverRises(ind.period, h))
              && (IndicatorValue(ind, h) == Some(0.0) <==> NeverRises(ind.period, h) && !NeverFalls(ind.period, h))
              && (NeverFalls(ind.period, h) && NeverRises(ind.period, h) ==> IndicatorValue(ind, h) == Some(50.0))
  {
    hide Ema, Sma, Rsi, NeverFalls, NeverRises;
    EmaStep(ind.period, h, p);
    SmaSlides(ind.period, h, p);
    RsiExtremes(ind.period, h);
  }

  // ----- what the operators mean -----

  /** On resolved operands: gt compares the values, and every other comparison is defined by it. */
  lemma OperatorLaws(spec: StrategySpec, h: seq<real>, l: Operand, r: Operand)
    requires WellFormed(spec) && Resolve(spec, h, l).Some? && Resolve(spec, h, r).Some?
    ensures Holds(spec, h, Gt, l, r) <==> Resolve(spec, h, l).value > Resolve(spec, h, r).value
    ensures Holds(spec, h, Lt, l, r) <==> Holds(spec, h, Gt, r, l)
    ensures Holds(spec, h, Gte, l, r) <==> !Holds(spec, h, Lt, l, r)
    ensures Holds(spec, h, Lte, l, r) <==> !Holds(spec, h, Gt, l, r)
    ensures Holds(spec, h, Eq, l, r) <==> Holds(spec, h, Gte, l, r) && Holds(spec, h, Lte, l, r)
  {
    hide Resolve, WellFormed;
  }

  /** A crossing is a comparison that holds now and whose opposite held one observation earlier. */
  lemma CrossingLaws(spec: StrategySpec, h: seq<real>, l: Operand, r: Operand)
    requires WellFormed(spec)
    requires Resolve(spec, h, l).Some? && Resolve(spec, h, r).Some?
    requires Resolve(spec, Before(h), l).Some? && Resolve(spec, Before(h), r).Some?
    ensures Holds(spec, h, CrossedAbove, l, r) <==> Holds(spec, h, Gt, l, r) && Holds(spec, Before(h), Lte, l, r)
    ensures Holds(spec, h, CrossedBelow, l, r) <==> Holds(spec, h, Lt, l, r) && Holds(spec, Before(h), Gte, l, r)
  {
    hide Resolve, WellFormed;
  }

  /** Nothing holds of an operand that does not resolve, and no crossing of one that did not resolve before. */
  lemma UnresolvedNeverHolds(spec: StrategySpec, h: seq<real>, op: Operator, l: Operand, r: Operand)
    requires WellFormed(spec)
    ensures Resolve(spec, h, l).None? || Resolve(spec, h, r).None? ==> !Holds(spec, h, op, l, r)
    ensures (Resolve(spec, Before(h), l).None? || Resolve(spec, Before(h), r).None?) && (op.CrossedAbove? || op.CrossedBelow?) ==>
              !Holds(spec, h, op, l, r)
  {
    hide Resolve, WellFormed;
  }

  /** Each of the seven price names that no indicator hides stands for the last price, and for nothing before the first. */
  lemma PriceNamesResolve(spec: StrategySpec, h: seq<real>, name: string)
    requires WellFormed(spec) && name !in spec.indicators.entries
    requires name == "open" || name == "high" || name == "low" || name == "close" || name == "bid" || name == "ask" || name == "mid"
    ensures Resolve(spec, h, Name(name)) == if h == [] then None else Some(h[|h| - 1])
    ensures forall p :: Before(h + [p]) == h && Resolve(spec, h + [p], Name(name)) == Some(p)
  {
    hide WellFormed;
    var f := PriceFields();
    assert f[0] == "open" && f[1] == "high" && f[2] == "low" && f[3] == "close" && f[4] == "bid" && f[5] == "ask" && f[6] == "mid";
    assert name in f;
    hide PriceFields;
    assert forall p :: (h + [p])[..|h|] == h;
  }

  /** A number stands for itself, and a name that is neither a price name nor an indicator for nothing. */
  lemma OtherOperandsResolve(spec: StrategySpec, h: seq<real>, x: real, name: string)
    requires WellFormed(spec)
    ensures Resolve(spec, h, Number(x)) == Some(x)
    ensures name !in spec.indicators.entries && name !in PriceFields() ==> Resolve(spec, h, Name(name)) == None
    ensures name in spec.indicators.entries ==> Resolve(spec, h, Name(name)) == IndicatorValue(spec.indicators.entries[name], h)
    ensures |PriceFields()| == 7
  {
    hide WellFormed;
  }

  // ----- clauses -----

  ghost function ClauseOutcome(spec: StrategySpec, h: seq<real>, clause: RuleClause): Outcome
    requires WellFormed(spec)
  {
    match FirstOperator(clause, 0)
    case None => Value(false)
    case Some(op) =>
      if |clause.operands[op]| < 2 then IndexError
      else Value(Holds(spec, h, op, clause.operands[op][0], clause.operands[op][1]))
  }

  // ----- blocks -----

  /** `all` goes on while clauses are true, `any` while they are false; a block with neither is false. */
  function GoesOnWhile(block: RuleBlock): bool {
    block.allOf.Some?
  }

  /** Clause i does not settle the block. */
  ghost predicate Undecided(spec: StrategySpec, h: seq<real>, block: RuleBlock, i: nat)
    requires WellFormed(spec) && i < |Clauses(block)|
  {
    ClauseOutcome(spec, h, Clauses(block)[i]) == Value(GoesOnWhile(block))
  }

  /** Some clause among the first k settles the block, or there is no further one. */
  ghost predicate Decisive(spec: StrategySpec, h: seq<real>, block: RuleBlock, k: nat)
    requires WellFormed(spec) && k <= |Clauses(block)|
  {
    k == |Clauses(block)| || exists i :: 0 <= i < k && !Undecided(spec, h, block, i)
  }

  /** The number of clauses a short-circuiting evaluation looks at from clause i on. */
  ghost function LookedAt(spec: StrategySpec, h: seq<real>, block: RuleBlock, i: nat): (n: nat)
    requires WellFormed(spec) && i <= |Clauses(block)|
    ensures i + n <= |Clauses(block)|
    decreases |Clauses(block)| - i
  {
    if i == |Clauses(block)| then 0
    else if Undecided(spec, h, block, i) then 1 + LookedAt(spec, h, block, i + 1)
    else 1
  }

  /** The outcome of a short-circuiting evaluation from clause i on. */
  ghost function OutcomeFrom(spec: StrategySpec, h: seq<real>, block: RuleBlock, i: nat): Outcome
    requires WellFormed(spec) && i <= |Clauses(block)|
    decreases |Clauses(block)| - i
  {
    if i == |Clauses(block)| then Value(GoesOnWhile(block))
    else if Undecided(spec, h, block, i) then OutcomeFrom(spec, h, block, i + 1)
    else ClauseOutcome(spec, h, Clauses(block)[i])
  }

  ghost function BlockOutcome(spec: StrategySpec, h: seq<real>, block: RuleBlock): Outcome
    requires WellFormed(spec)
  {
    OutcomeFrom(spec, h, block, 0)
  }

  ghost function BlockCost(spec: StrategySpec, h: seq<real>, block: RuleBlock): nat
    requires WellFormed(spec)
  {
    LookedAt(spec, h, block, 0)
  }

  lemma {:induction false} LookedAtIsLeast(spec: StrategySpec, h: seq<real>, block: RuleBlock, i: nat)
    requires WellFormed(spec) && i <= |Clauses(block)|
    requires forall j :: 0 <= j < i ==> Undecided(spec, h, block, j)
    ensures Decisive(spec, h, block, i + LookedAt(spec, h, block, i))
    ensures forall k :: 0 <= k < i + LookedAt(spec, h, block, i) ==> !Decisive(spec, h, block, k)
    decreases |Clauses(block)| - i
  {
    if i < |Clauses(block)| && Undecided(spec, h, block, i) {
      LookedAtIsLeast(spec, h, block, i + 1);
    }
  }

  /** Evaluating a block costs the length of its shortest decisive clause prefix. */
  lemma BlockCostIsShortestDecisivePrefix(spec: StrategySpec, h: seq<real>, block: RuleBlock)
    requires WellFormed(spec)
    ensures BlockCost(spec, h, block) <= |Clauses(block)|
    ensures Decisive(spec, h, block, BlockCost(spec, h, block))
    ensures forall k :: 0 <= k < BlockCost(spec, h, block) ==> !Decisive(spec, h, block, k)
  {
    LookedAtIsLeast(spec, h, block, 0);
  }

  ghost predicate NoShortClause(block: RuleBlock) {
    forall i :: 0 <= i < |Clauses(block)| ==>
      var op := FirstOperator(Clauses(block)[i], 0);
      op.Some? ==> |Clauses(block)[i].operands[op.value]| >= 2
  }

  lemma {:induction false} OutcomeFromMeaning(spec: StrategySpec, h: seq<real>, block: RuleBlock, i: nat)
    requires WellFormed(spec) && i <= |Clauses(block)| && NoShortClause(block)
    ensures OutcomeFrom(spec, h, block, i).Value?
    ensures OutcomeFrom(spec, h, block, i).holds == GoesOnWhile(block)
            <==> forall j :: i <= j < |Clauses(block)| ==> Undecided(spec, h, block, j)
    decreases |Clauses(block)| - i
  {
    if i < |Clauses(block)| {
      OutcomeFromMeaning(spec, h, block, i + 1);
    }
  }

  /** Without short operand lists, `all` is the conjunction and `any` the disjunction of the clauses. */
  lemma BlockMeaning(spec: StrategySpec, h: seq<real>, block: RuleBlock)
    requires WellFormed(spec) && NoShortClause(block)
    ensures BlockOutcome(spec, h, block).Value?
    ensures block.allOf.Some? ==>
              (BlockOutcome(spec, h, block).holds <==>
               forall i :: 0 <= i < |Clauses(block)| ==> ClauseOutcome(spec, h, Clauses(block)[i]) == Value(true))
    ensures block.allOf.None? ==>
              (BlockOutcome(spec, h, block).holds <==>
               exists i :: 0 <= i < |Clauses(block)| && ClauseOutcome(spec, h, Clauses(block)[i]) == Value(true))
  {
    OutcomeFromMeaning(spec, h, block, 0);
    assert forall i :: 0 <= i < |Clauses(block)| ==>
        (Undecided(spec, h, block, i) <==> ClauseOutcome(spec, h, Clauses(block)[i]) == Value(GoesOnWhile(block)));
    forall i | 0 <= i < |Clauses(block)| ensures ClauseOutcome(spec, h, Clauses(block)[i]).Value? {
    }
    if block.allOf.None? && BlockOutcome(spec, h, block).holds {
      var i :| 0 <= i < |Clauses(block)| && !Undecided(spec, h, block, i);
      assert ClauseOutcome(spec, h, Clauses(block)[i]) == Value(true);
    }
  }

  // ----- evidence -----

  ghost function RuleOutcome(spec: StrategySpec, h: seq<real>, name: string): Outcome
    requires WellFormed(spec) && name in spec.rules.entries
  {
    BlockOutcome(spec, h, spec.rules.entries[name])
  }

  /** Evaluating the rules after history h runs into a clause with a short operand list. */
  ghost predicate RaisesAt(spec: StrategySpec, h: seq<real>)
    requires WellFormed(spec)
  {
    exists n :: n in spec.rules.entries && RuleOutcome(spec, h, n) == IndexError
  }

  /** Some observation of the history raised. */
  ghost predicate RaisesWithin(spec: StrategySpec, h: seq<real>)
    requires WellFormed(spec)
  {
    h != [] && (RaisesWithin(spec, Before(h)) || RaisesAt(spec, h))
  }

  /** The observations after which the rule was true. */
  ghost function TrueSteps(spec: StrategySpec, h: seq<real>, name: string): set<nat>
    requires WellFormed(spec) && name in spec.rules.entries
  {
    set k: nat | 1 <= k <= |h| && RuleOutcome(spec, h[..k], name) == Value(true)
  }

  /** The clauses looked at after history h in the first i rules. */
  ghost function StepCost(spec: StrategySpec, h: seq<real>, i: nat): nat
    requires WellFormed(spec) && i <= |spec.rules.keys|
  {
    if i == 0 then 0
    else StepCost(spec, h, i - 1) + BlockCost(spec, h, spec.rules.entries[spec.rules.keys[i - 1]])
  }

  ghost function TotalCost(spec: StrategySpec, h: seq<real>): nat
    requires WellFormed(spec)
  {
    if h == [] then 0 else TotalCost(spec, Before(h)) + StepCost(spec, h, |spec.rules.keys|)
  }

  lemma NothingCountedYet(spec: StrategySpec)
    requires WellFormed(spec)
    ensures TotalCost(spec, []) == 0
    ensures forall n :: n in spec.rules.entries ==> RuleEvidenceOf(spec, [], n) == RuleEvidence(false, 0)
  {
    hide RuleOutcome;
    forall n | n in spec.rules.entries ensures TrueSteps(spec, [], n) == {} {
    }
  }

  lemma TotalCostAppend(spec: StrategySpec, h: seq<real>, p: real)
    requires WellFormed(spec)
    ensures TotalCost(spec, h + [p]) == TotalCost(spec, h) + StepCost(spec, h + [p], |spec.rules.keys|)
  {
    hide StepCost;
    assert Before(h + [p]) == h;
  }

  ghost function RuleEvidenceOf(spec: StrategySpec, h: seq<real>, name: string): RuleEvidence
    requires WellFormed(spec) && name in spec.rules.entries
  {
    RuleEvidence(h != [] && RuleOutcome(spec, h, name) == Value(true), |TrueSteps(spec, h, name)|)
  }

  ghost function EvidenceOf(spec: StrategySpec, h: seq<real>): Evidence
    requires WellFormed(spec)
  {
    Evidence(|h| > 0, |h|, TotalCost(spec, h),
             map n | n in spec.rules.entries :: RuleEvidenceOf(spec, h, n))
  }

  /** The whole evaluation of a price list, in batch form. */
  ghost function BatchResult(spec: StrategySpec, prices: seq<real>): EvaluationResult
    requires WellFormed(spec)
  {
    if RaisesWithin(spec, prices) then Raised else Completed(EvidenceOf(spec, prices))
  }

  /** One more observation adds itself to the true steps exactly when the rule is true after it. */
  lemma TrueStepsAppend(spec: StrategySpec, h: seq<real>, p: real, name: string)
    requires WellFormed(spec) && name in spec.rules.entries
    ensures TrueSteps(spec, h + [p], name) ==
            TrueSteps(spec, h, name) + if RuleOutcome(spec, h + [p], name) == Value(true) then {|h| + 1} else {}
    ensures |TrueSteps(spec, h + [p], name)| ==
            |TrueSteps(spec, h, name)| + if RuleOutcome(spec, h + [p], name) == Value(true) then 1 else 0
  {
    var e := h + [p];
    assert e[..|e|] == e;
    forall k: nat | 1 <= k <= |h| ensures e[..k] == h[..k] {
    }
    assert |h| + 1 !in TrueSteps(spec, h, name);
  }

  // ----- what clauses and evidence say -----

  /** A clause of one operator compares its first operand with its second, and raises when it has fewer than two. */
  lemma ClauseMeaning(spec: StrategySpec, h: seq<real>, op: Operator, operands: seq<Operand>)
    requires WellFormed(spec)
    ensures var outcome := ClauseOutcome(spec, h, RuleClause(map[op := operands]));
            if |operands| < 2 then outcome == IndexError else outcome == Value(Holds(spec, h, op, operands[0], operands[1]))
  {
    hide Holds, WellFormed;
    var clause := RuleClause(map[op := operands]);
    OperatorFound(clause, Rank(op), 0);
    assert clause.operands.Keys == {op};
  }

  /** The evidence counts the observations; of each rule it says whether it is true now, and after how many observations it was. */
  lemma EvidenceMeaning(spec: StrategySpec, h: seq<real>)
    requires WellFormed(spec)
    ensures var e := EvidenceOf(spec, h);
            && e.observations == |h| && (e.evaluated <==> h != []) && e.rules.Keys == spec.rules.entries.Keys
            && forall n :: n in spec.rules.entries ==>
                 && (e.rules[n].lastValue <==> h != [] && BlockOutcome(spec, h, spec.rules.entries[n]) == Value(true))
                 && e.rules[n].trueCount == |set k: nat | 1 <= k <= |h| && BlockOutcome(spec, h[..k], spec.rules.entries[n]) == Value(true)|
  {
    hide BlockOutcome, WellFormed, TotalCost;
    forall n | n in spec.rules.entries
      ensures TrueSteps(spec, h, n) == set k: nat | 1 <= k <= |h| && BlockOutcome(spec, h[..k], spec.rules.entries[n]) == Value(true)
    {
    }
  }

  /** When every rule has one clause, each observation evaluates each of them once. */
  lemma SingleClauseCost(spec: StrategySpec, h: seq<real>)
    requires WellFormed(spec) && forall n :: n in spec.rules.entries ==> |Clauses(spec.rules.entries[n])| == 1
    ensures EvidenceOf(spec, h).evaluations == |h| * |spec.rules.keys|
  {
    hide WellFormed, TotalCost, Clauses;
    SingleClauseTotal(spec, h);
  }

  lemma {:induction false} SingleClauseTotal(spec: StrategySpec, h: seq<real>)
    requires WellFormed(spec) && forall n :: n in spec.rules.entries ==> |Clauses(spec.rules.entries[n])| == 1
    ensures TotalCost(spec, h) == |h| * |spec.rules.keys|
  {
    hide StepCost, WellFormed, Clauses;
    if h != [] {
      SingleClauseTotal(spec, Before(h));
      SingleClauseStep(spec, h, |spec.rules.keys|);
      assert |h| * |spec.rules.keys| == |Before(h)| * |spec.rules.keys| + |spec.rules.keys|;
    }
  }

  lemma {:induction false} SingleClauseStep(spec: StrategySpec, h: seq<real>, i: nat)
    requires WellFormed(spec) && i <= |spec.rules.keys|
    requires forall n :: n in spec.rules.entries ==> |Clauses(spec.rules.entries[n])| == 1
    ensures StepCost(spec, h, i) == i
  {
    if i > 0 {
      SingleClauseStep(spec, h, i - 1);
      RuleKeys(spec);
      assert spec.rules.keys[i - 1] in spec.rules.keys;
      OneClause(spec, h, spec.rules.entries[spec.rules.keys[i - 1]]);
    }
  }

  lemma OneClause(spec: StrategySpec, h: seq<real>, block: RuleBlock)
    requires WellFormed(spec) && |Clauses(block)| == 1
    ensures BlockCost(spec, h, block) == 1
  {
    hide ClauseOutcome, WellFormed;
  }
}
