/** The streaming evaluator: bounded windows and counters updated in place, one price at a time. */
module RuleEvaluator {
  import opened Options
  import opened Dicts
  import opened RuleSyntax
  import opened IndicatorMath
  import opened RuleSemantics

  /** `while len(window) > period: window.popleft()` */
  method Trim(window: seq<real>, period: nat) returns (kept: seq<real>)
    ensures kept == Last(window, period)
  {
    kept := window;
    while |kept| > period
      invariant |window| <= period ==> kept == window
      invariant |window| > period ==> period <= |kept| <= |window| && kept == window[|window| - |kept|..]
    {
      kept := kept[1..];
    }
  }

  class IndicatorState {
    const spec: IndicatorSpec
    var values: seq<real>
    var ema: Option<real>
    var previousPrice: Option<real>
    var gains: seq<real>
    var losses: seq<real>
    ghost var history: seq<real>

    ghost predicate Valid()
      reads this
    {
      && spec.period > 0
      && values == Last(history, spec.period)
      && previousPrice == (if history == [] then None else Some(history[|history| - 1]))
      && (spec.kind.EMA? ==> ema == if history == [] then None else Some(Ema(spec.period, history)))
      && (spec.kind.RSI? ==> gains == Last(Gains(history), spec.period) && losses == Last(Losses(history), spec.period))
    }

    constructor (indicator: IndicatorSpec)
      requires indicator.period > 0
      ensures Valid() && spec == indicator && history == []
    {
      spec := indicator;
      values, ema, previousPrice, gains, losses, history := [], None, None, [], [], [];
    }

    /** One incremental step returns the batch value of the extended history. */
    method Update(price: real) returns (value: Option<real>)
      requires Valid()
      modifies this
      ensures Valid() && history == old(history) + [price]
      ensures value == IndicatorValue(spec, history)
    {
      hide Ema, Rsi, Mean, Last, Gains, Losses;
      LastAppend(history, price, spec.period);
      values := Trim(values + [price], spec.period);
      ghost var before := history;
      history := history + [price];
      match spec.kind {
        case EMA =>
          value := UpdateEma(price, before);
        case SMA =>
          previousPrice := Some(price);
          value := Some(Mean(values));
        case RSI =>
          value := UpdateRsi(price, before);
        case _ =>
          previousPrice := Some(price);
          value := None;
      }
    }

    method UpdateEma(price: real, ghost before: seq<real>) returns (value: Option<real>)
      requires spec.period > 0
      requires ema == if before == [] then None else Some(Ema(spec.period, before))
      modifies this`ema, this`previousPrice
      ensures previousPrice == Some(price)
      ensures value == ema == Some(Ema(spec.period, before + [price]))
    {
      hide Ema;
      hide EmaNext;
      var alpha := Alpha(spec.period);
      if ema.None? {
        assert before + [price] == [price];
        EmaSingle(spec.period, price);
        ema := Some(price);
      } else {
        EmaStep(spec.period, before, price);
        ema := Some(EmaNext(ema.value, alpha, price));
      }
      previousPrice := Some(price);
      value := ema;
    }

    method UpdateRsi(price: real, ghost before: seq<real>) returns (value: Option<real>)
      requires spec.period > 0 && spec.kind.RSI?
      requires history == before + [price]
      requires previousPrice == if before == [] then None else Some(before[|before| - 1])
      requires gains == Last(Gains(before), spec.period) && losses == Last(Losses(before), spec.period)
      modifies this`previousPrice, this`gains, this`losses
      ensures previousPrice == Some(price)
      ensures gains == Last(Gains(history), spec.period) && losses == Last(Losses(history), spec.period)
      ensures value == Some(Rsi(spec.period, history))
    {
      hide Sum, Last, Gains, Losses, Max, Share, WindowRsi;
      if previousPrice.None? {
        previousPrice := Some(price);
        FirstPriceHasNoMoves(spec.period, price);
        assert history == [price];
        return Some(50.0);
      }
      var delta := price - previousPrice.value;
      previousPrice := Some(price);
      MovesAppend(before, price);
      LastAppend(Gains(before), Max(delta, 0.0), spec.period);
      LastAppend(Losses(before), Max(-delta, 0.0), spec.period);
      gains := Trim(gains + [Max(delta, 0.0)], spec.period);
      losses := Trim(losses + [Max(-delta, 0.0)], spec.period);
      WindowOfMoves(spec.period, history);
      value := Some(WindowRsi(gains, losses));
    }
  }

  lemma FirstPriceHasNoMoves(period: nat, price: real)
    ensures Last(Gains([price]), period) == Last(Gains([]), period) == []
    ensures Last(Losses([price]), period) == Last(Losses([]), period) == []
    ensures Rsi(period, [price]) == 50.0
  {
  }

  lemma WindowOfMoves(period: nat, h: seq<real>)
    requires period > 0 && |h| >= 2
    ensures var gains, losses := Last(Gains(h), period), Last(Losses(h), period);
            && gains != [] && Sum(gains) >= 0.0 && Sum(losses) >= 0.0
            && WindowRsi(gains, losses) == Rsi(period, h)
  {
    hide Sum, Gains, Losses, Share, WindowRsi;
    MovesAt(h);
    assert GainSum(period, h) >= 0.0 && LossSum(period, h) >= 0.0;
    WindowRsiIsShare(Last(Gains(h), period), Last(Losses(h), period));
  }

  /** The names bound after history h: price fields from the start, indicators from the first price on. */
  ghost function Bindings(spec: StrategySpec, h: seq<real>): map<string, Option<real>>
    requires WellFormed(spec)
  {
    map n | n in (set f | f in PriceFields()) + (if h == [] then {} else spec.indicators.entries.Keys)
      :: ValueOf(spec, h, n)
  }

  function Lookup(values: map<string, Option<real>>, operand: Operand): Option<real> {
    match operand
    case Number(x) => Some(x)
    case Name(n) => if n in values then values[n] else None
  }

  lemma LookupResolves(spec: StrategySpec, h: seq<real>, operand: Operand)
    requires WellFormed(spec)
    ensures Lookup(Bindings(spec, h), operand) == Resolve(spec, h, operand)
  {
  }

  lemma EmptyBindings(spec: StrategySpec)
    requires WellFormed(spec)
    ensures Bindings(spec, []) == map f | f in PriceFields() :: None
  {
    forall f | f in PriceFields() ensures ValueOf(spec, [], f) == None {
    }
  }

  lemma BoundNames(spec: StrategySpec, h: seq<real>)
    requires WellFormed(spec)
    ensures forall f :: f in PriceFields() ==> f in Bindings(spec, h)
  {
    hide PriceFields;
  }

  /** What the assignments of one observation do to the value map. */
  lemma BindingsAdvance(spec: StrategySpec, h: seq<real>, price: real,
                        before: map<string, Option<real>>, after: map<string, Option<real>>)
    requires WellFormed(spec) && before == Bindings(spec, h)
    requires after.Keys == before.Keys + spec.indicators.entries.Keys
    requires forall n :: n in spec.indicators.entries ==>
               after[n] == IndicatorValue(spec.indicators.entries[n], h + [price])
    requires forall n :: n in PriceFields() && n !in spec.indicators.entries ==> after[n] == Some(price)
    ensures after == Bindings(spec, h + [price])
  {
    hide IndicatorValue;
    hide PriceFields;
  }

  method CreateStates(strategy: StrategySpec) returns (created: seq<IndicatorState>)
    requires WellFormed(strategy)
    ensures |created| == |strategy.indicators.keys| && fresh(created)
    ensures forall j :: 0 <= j < |created| ==>
              strategy.indicators.keys[j] in strategy.indicators.entries && created[j].Valid() && created[j].history == []
              && created[j].spec == strategy.indicators.entries[strategy.indicators.keys[j]]
    ensures forall j, k :: 0 <= j < k < |created| ==> created[j] != created[k]
  {
    hide Ema, Last, Gains, Losses, WellFormedBlock;
    created := [];
    for i := 0 to |strategy.indicators.keys|
      invariant |created| == i && fresh(created)
      invariant forall j :: 0 <= j < i ==>
                  created[j].Valid() && created[j].history == []
                  && created[j].spec == strategy.indicators.entries[strategy.indicators.keys[j]]
      invariant forall j, k :: 0 <= j < k < i ==> created[j] != created[k]
    {
      var state := new IndicatorState(strategy.indicators.entries[strategy.indicators.keys[i]]);
      created := created + [state];
    }
  }

  /** Adds one to the counter of every rule that is true. */
  method CountTrue(keys: seq<string>, values: map<string, bool>, before: map<string, nat>) returns (counts: map<string, nat>)
    requires Distinct(keys) && values.Keys == before.Keys
    requires forall n :: n in keys <==> n in before
    ensures counts.Keys == before.Keys
    ensures forall n :: n in before ==> counts[n] == before[n] + if values[n] then 1 else 0
  {
    counts := before;
    for i := 0 to |keys|
      invariant counts.Keys == before.Keys
      invariant forall j :: 0 <= j < i ==> counts[keys[j]] == before[keys[j]] + if values[keys[j]] then 1 else 0
      invariant forall j :: i <= j < |keys| ==> counts[keys[j]] == before[keys[j]]
    {
      if values[keys[i]] {
        counts := counts[keys[i] := counts[keys[i]] + 1];
      }
    }
  }

  class RuleGraphEvaluator {
    const spec: StrategySpec
    const states: seq<IndicatorState>
    var currentValues: map<string, Option<real>>
    var previousValues: map<string, Option<real>>
    var observations: nat
    var ruleEvaluations: nat
    var ruleTrueCounts: map<string, nat>
    var lastRuleValues: map<string, bool>
    ghost var history: seq<real>

    ghost predicate StateAt(i: nat, h: seq<real>)
      requires i < |states|
      reads states[i]
    {
      && i < |spec.indicators.keys|
      && spec.indicators.keys[i] in spec.indicators.entries
      && states[i].spec == spec.indicators.entries[spec.indicators.keys[i]]
      && states[i].Valid() && states[i].history == h
    }

    /** Every indicator state has seen exactly the prices h. */
    ghost predicate StatesAt(h: seq<real>)
      reads states
    {
      && |states| == |spec.indicators.keys|
      && (forall i, j :: 0 <= i < j < |states| ==> states[i] != states[j])
      && (forall i :: 0 <= i < |states| ==> StateAt(i, h))
    }

    /** The value maps hold what is bound after h and one observation earlier. */
    ghost predicate ValuesAt(h: seq<real>)
      requires WellFormed(spec)
      reads this`currentValues, this`previousValues
    {
      currentValues == Bindings(spec, h) && previousValues == Bindings(spec, Before(h))
    }

    ghost predicate Valid()
      reads this, states
    {
      && WellFormed(spec)
      && StatesAt(history)
      && ValuesAt(history)
      && observations == |history|
      && ruleEvaluations == TotalCost(spec, history)
      && CountersAt(history)
    }

    /** The per-rule counters and last values are those of history h. */
    ghost predicate CountersAt(h: seq<real>)
      requires WellFormed(spec)
      reads this`ruleTrueCounts, this`lastRuleValues
    {
      && ruleTrueCounts.Keys == lastRuleValues.Keys == spec.rules.entries.Keys
      && (forall n :: n in spec.rules.entries ==>
            RuleEvidence(lastRuleValues[n], ruleTrueCounts[n]) == RuleEvidenceOf(spec, h, n))
    }

    constructor (strategy: StrategySpec)
      requires WellFormed(strategy)
      ensures Valid() && fresh(states) && spec == strategy && history == []
    {
      hide WellFormed;
      hide IndicatorState.Valid;
      hide PriceFields;
      hide TotalCost;
      hide RuleEvidenceOf;
      hide Bindings;
      EmptyBindings(strategy);
      NothingCountedYet(strategy);
      var created := CreateStates(strategy);
      spec := strategy;
      states := created;
      currentValues := map f | f in PriceFields() :: None;
      previousValues := map f | f in PriceFields() :: None;
      observations, ruleEvaluations := 0, 0;
      ruleTrueCounts := map n | n in strategy.rules.entries :: 0;
      lastRuleValues := map n | n in strategy.rules.entries :: false;
      history := [];
    }

    method Evidence() returns (evidence: Evidence)
      requires Valid()
      ensures evidence == EvidenceOf(spec, history)
    {
      hide StatesAt;
      hide WellFormed;
      hide ValuesAt;
      hide RuleEvidenceOf;
      hide TotalCost;
      evidence := RuleSemantics.Evidence(
        observations > 0, observations, ruleEvaluations,
        map n | n in spec.rules.entries :: RuleEvidence(lastRuleValues[n], ruleTrueCounts[n]));
    }

    /** Shifts the value maps and feeds the price to every indicator. */
    method AdvanceValues(price: real)
      requires WellFormed(spec) && StatesAt(history) && ValuesAt(history)
      modifies this`currentValues, this`previousValues, this`history, states
      ensures history == old(history) + [price] && StatesAt(history) && ValuesAt(history)
    {
      hide WellFormed;
      hide StatesAt;
      hide Bindings;
      hide IndicatorValue;
      hide PriceFields;
      BoundNames(spec, history);
      previousValues := currentValues;
      SetPriceFields(price);
      FeedIndicators(price);
      BindingsAdvance(spec, history, price, old(currentValues), currentValues);
      history := history + [price];
      assert Before(history) == old(history);
    }

    method SetPriceFields(price: real)
      requires forall f :: f in PriceFields() ==> f in currentValues
      modifies this`currentValues
      ensures currentValues.Keys == old(currentValues).Keys
      ensures forall n :: n in currentValues ==>
                currentValues[n] == if n in PriceFields() then Some(price) else old(currentValues)[n]
    {
      hide PriceFields;
      var fields := PriceFields();
      for i := 0 to |fields|
        invariant currentValues.Keys == old(currentValues).Keys
        invariant forall j :: 0 <= j < i ==> currentValues[fields[j]] == Some(price)
        invariant forall n :: n in currentValues && n !in fields ==> currentValues[n] == old(currentValues)[n]
      {
        currentValues := currentValues[fields[i] := Some(price)];
      }
    }

    method FeedIndicators(price: real)
      requires WellFormed(spec) && StatesAt(history)
      modifies this`currentValues, states
      ensures StatesAt(history + [price])
      ensures currentValues.Keys == old(currentValues).Keys + spec.indicators.entries.Keys
      ensures forall n :: n in currentValues ==>
                currentValues[n] == if n in spec.indicators.entries
                                    then IndicatorValue(spec.indicators.entries[n], history + [price])
                                    else old(currentValues)[n]
    {
      hide IndicatorValue;
      hide IndicatorState.Valid;
      for i := 0 to |states|
        invariant |states| == |spec.indicators.keys| && forall j, k :: 0 <= j < k < |states| ==> states[j] != states[k]
        invariant forall j :: 0 <= j < i ==> StateAt(j, history + [price])
        invariant forall j :: i <= j < |states| ==> StateAt(j, history)
        invariant old(currentValues).Keys <= currentValues.Keys <= old(currentValues).Keys + spec.indicators.entries.Keys
        invariant forall j :: 0 <= j < i ==> FedWith(currentValues, j, history + [price])
        invariant forall n :: n in old(currentValues) && n !in spec.indicators.entries ==>
                    currentValues[n] == old(currentValues)[n]
      {
        assert StateAt(i, history);
        var value := states[i].Update(price);
        ghost var fed := currentValues;
        currentValues := currentValues[spec.indicators.keys[i] := value];
        assert FedWith(currentValues, i, history + [price]);
        forall j | 0 <= j < i ensures FedWith(currentValues, j, history + [price]) {
          assert FedWith(fed, j, history + [price]);
          assert spec.indicators.keys[j] != spec.indicators.keys[i];
        }
      }
      forall n | n in spec.indicators.entries
        ensures n in currentValues && currentValues[n] == IndicatorValue(spec.indicators.entries[n], history + [price])
      {
        var j :| 0 <= j < |spec.indicators.keys| && spec.indicators.keys[j] == n;
        assert FedWith(currentValues, j, history + [price]);
      }
    }

    ghost predicate FedWith(values: map<string, Option<real>>, j: nat, h: seq<real>)
      requires WellFormed(spec) && j < |spec.indicators.keys|
    {
      var n := spec.indicators.keys[j];
      n in values && values[n] == IndicatorValue(spec.indicators.entries[n], h)
    }

    method EvaluateClause(clause: RuleClause, ghost h: seq<real>) returns (outcome: Outcome)
      requires WellFormed(spec) && WellFormedClause(clause)
      requires ValuesAt(h)
      modifies this`ruleEvaluations
      ensures outcome == ClauseOutcome(spec, h, clause)
      ensures ruleEvaluations == old(ruleEvaluations) + 1
    {
      SingleOperator(clause);
      for i := 0 to |RULE_OPERATORS|
        invariant ruleEvaluations == old(ruleEvaluations)
        invariant FirstOperator(clause, 0) == FirstOperator(clause, i)
      {
        var operator := RULE_OPERATORS[i];
        if operator in clause.operands {
          ruleEvaluations := ruleEvaluations + 1;
          var operands := clause.operands[operator];
          if |operands| < 2 {
            return IndexError;
          }
          ghost var l, r := operands[0], operands[1];
          LookupResolves(spec, h, l);
          LookupResolves(spec, h, r);
          LookupResolves(spec, Before(h), l);
          LookupResolves(spec, Before(h), r);
          return Value(Compare(operator, Lookup(currentValues, operands[0]), Lookup(currentValues, operands[1]),
                               Lookup(previousValues, operands[0]), Lookup(previousValues, operands[1])));
        }
      }
      assert false;
    }

    method EvaluateRuleBlock(block: RuleBlock, ghost h: seq<real>) returns (outcome: Outcome)
      requires WellFormed(spec) && WellFormedBlock(block)
      requires ValuesAt(h)
      modifies this`ruleEvaluations
      ensures outcome == BlockOutcome(spec, h, block)
      ensures ruleEvaluations == old(ruleEvaluations) + BlockCost(spec, h, block)
    {
      var clauses := Clauses(block);
      var goesOnWhile := block.allOf.Some?;
      for i := 0 to |clauses|
        invariant BlockOutcome(spec, h, block) == OutcomeFrom(spec, h, block, i)
        invariant BlockCost(spec, h, block) == i + LookedAt(spec, h, block, i)
        invariant ruleEvaluations == old(ruleEvaluations) + i
      {
        assert WellFormedClause(clauses[i]);
        outcome := EvaluateClause(clauses[i], h);
        if outcome != Value(goesOnWhile) {
          return;
        }
      }
      outcome := Value(goesOnWhile);
    }

    /** Evaluates every rule once; stops at the first one that raises. */
    method EvaluateRules(ghost h: seq<real>) returns (values: map<string, bool>, raised: bool)
      requires WellFormed(spec)
      requires ValuesAt(h)
      modifies this`ruleEvaluations
      ensures raised <==> RaisesAt(spec, h)
      ensures !raised ==> values.Keys == spec.rules.entries.Keys
      ensures !raised ==> forall n :: n in spec.rules.entries ==> RuleOutcome(spec, h, n) == Value(values[n])
      ensures !raised ==> ruleEvaluations == old(ruleEvaluations) + StepCost(spec, h, |spec.rules.keys|)
    {
      hide WellFormed;
      hide WellFormedBlock;
      hide ValuesAt;
      hide BlockOutcome;
      hide BlockCost;
      RuleKeys(spec);
      values, raised := map[], false;
      var keys := spec.rules.keys;
      for i := 0 to |keys|
        invariant values.Keys == set n | n in keys[..i]
        invariant forall n :: n in keys[..i] ==> RuleOutcome(spec, h, n) == Value(values[n])
        invariant ruleEvaluations == old(ruleEvaluations) + StepCost(spec, h, i)
      {
        assert keys[i] in spec.rules.entries;
        var outcome := EvaluateRuleBlock(spec.rules.entries[keys[i]], h);
        if outcome.IndexError? {
          assert RuleOutcome(spec, h, keys[i]) == IndexError;
          return values, true;
        }
        assert keys[..i + 1] == keys[..i] + [keys[i]];
        values := values[keys[i] := outcome.holds];
      }
      assert keys[..|keys|] == keys;
    }

    /** Adds one to the count of every rule that was true, and keeps the values as the last ones. */
    method RecordValues(values: map<string, bool>, ghost before: seq<real>, ghost price: real)
      requires WellFormed(spec) && CountersAt(before)
      requires values.Keys == spec.rules.entries.Keys
      requires forall n :: n in spec.rules.entries ==> RuleOutcome(spec, before + [price], n) == Value(values[n])
      modifies this`ruleTrueCounts, this`lastRuleValues
      ensures CountersAt(before + [price])
    {
      hide WellFormed, TrueSteps, RuleOutcome;
      RuleKeys(spec);
      forall n | n in spec.rules.entries
        ensures |TrueSteps(spec, before + [price], n)| == |TrueSteps(spec, before, n)| + if values[n] then 1 else 0
      {
        TrueStepsAppend(spec, before, price, n);
      }
      ruleTrueCounts := CountTrue(spec.rules.keys, values, ruleTrueCounts);
      lastRuleValues := values;
    }

    /** One price: the evidence afterwards is the batch evidence of the extended history. */
    method UpdatePrice(price: real) returns (result: EvaluationResult)
      requires Valid()
      modifies this, states
      ensures result.Raised? <==> RaisesAt(spec, old(history) + [price])
      ensures result.Completed? ==> Valid() && history == old(history) + [price]
      ensures result.Completed? ==> result.evidence == EvidenceOf(spec, history)
    {
      hide WellFormed;
      hide StatesAt;
      hide ValuesAt;
      hide CountersAt;
      hide RaisesAt;
      hide EvidenceOf;
      hide TotalCost;
      hide StepCost;
      ghost var before := history;
      observations := observations + 1;
      AdvanceValues(price);
      TotalCostAppend(spec, before, price);
      var values, raised := EvaluateRules(history);
      if raised {
        return Raised;
      }
      RecordValues(values, before, price);
      var evidence := Evidence();
      result := Completed(evidence);
    }
  }

  /** The streaming evaluation of a price list returns exactly the batch result. */
  method EvaluateStrategySpecPrices(strategy: StrategySpec, prices: seq<real>) returns (result: EvaluationResult)
    requires WellFormed(strategy)
    ensures result == BatchResult(strategy, prices)
  {
    hide RuleGraphEvaluator.Valid, WellFormed, EvidenceOf, RaisesAt;
    var evaluator := new RuleGraphEvaluator(strategy);
    for i := 0 to |prices|
      invariant evaluator.Valid() && evaluator.spec == strategy && fresh(evaluator) && fresh(evaluator.states)
      invariant evaluator.history == prices[..i]
      invariant !RaisesWithin(strategy, prices[..i])
    {
      assert prices[..i] + [prices[i]] == prices[..i + 1] && Before(prices[..i + 1]) == prices[..i];
      var step := evaluator.UpdatePrice(prices[i]);
      if step.Raised? {
        RaisesPersist(strategy, prices, i + 1);
        return Raised;
      }
    }
    assert prices[..|prices|] == prices;
    var evidence := evaluator.Evidence();
    result := Completed(evidence);
  }

  lemma {:induction false} RaisesPersist(spec: StrategySpec, h: seq<real>, k: nat)
    requires WellFormed(spec) && k <= |h| && RaisesWithin(spec, h[..k])
    ensures RaisesWithin(spec, h)
  {
    if k < |h| {
      assert Before(h)[..k] == h[..k];
      RaisesPersist(spec, Before(h), k);
    } else {
      assert h[..k] == h;
    }
  }
}
