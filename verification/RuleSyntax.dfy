/** The part of a strategy spec that the rule-graph evaluator interprets, and its well-formedness. */
module RuleSyntax {
  import opened Options
  import opened Dicts

  datatype IndicatorType = EMA | SMA | RSI | MACD | ATR | BollingerBands | VWAP

  datatype IndicatorSpec = IndicatorSpec(kind: IndicatorType, period: int)

  datatype Operand = Name(name: string) | Number(value: real)

  datatype Operator = CrossedAbove | CrossedBelow | Gt | Lt | Gte | Lte | Eq

  const RULE_OPERATORS: seq<Operator> := [CrossedAbove, CrossedBelow, Gt, Lt, Gte, Lte, Eq]

  function PriceFields(): seq<string> {
    ["open", "high", "low", "close", "bid", "ask", "mid"]
  }

  /** The operand list of each operator that the clause populates. */
  datatype RuleClause = RuleClause(operands: map<Operator, seq<Operand>>)

  datatype RuleBlock = RuleBlock(allOf: Option<seq<RuleClause>>, anyOf: Option<seq<RuleClause>>)

  datatype StrategySpec = StrategySpec(indicators: Dict<string, IndicatorSpec>, rules: Dict<string, RuleBlock>)

  ghost predicate WellFormedClause(clause: RuleClause) {
    && |clause.operands| == 1
    && (forall op :: op in clause.operands && (op.CrossedAbove? || op.CrossedBelow?) ==>
          forall i :: 0 <= i < |clause.operands[op]| ==> clause.operands[op][i].Name?)
  }

  ghost predicate WellFormedClauses(clauses: seq<RuleClause>) {
    forall i :: 0 <= i < |clauses| ==> WellFormedClause(clauses[i])
  }

  ghost predicate WellFormedBlock(block: RuleBlock) {
    && block.allOf.Some? != block.anyOf.Some?
    && WellFormedClauses(Clauses(block))
  }

  ghost predicate WellFormed(spec: StrategySpec) {
    && spec.indicators.Valid()
    && spec.rules.Valid()
    && (forall n :: n in spec.indicators.entries ==> spec.indicators.entries[n].period > 0)
    && (forall n :: n in spec.rules.entries ==> WellFormedBlock(spec.rules.entries[n]))
  }

  lemma RuleKeys(spec: StrategySpec)
    requires WellFormed(spec)
    ensures Distinct(spec.rules.keys)
    ensures forall n :: n in spec.rules.keys <==> n in spec.rules.entries
    ensures forall n :: n in spec.rules.entries ==> WellFormedBlock(spec.rules.entries[n])
  {
  }

  /** The clauses that evaluating the block looks at: `all` before `any`, nothing when both are absent. */
  function Clauses(block: RuleBlock): seq<RuleClause> {
    match block
    case RuleBlock(Some(clauses), _) => clauses
    case RuleBlock(None, Some(clauses)) => clauses
    case RuleBlock(None, None) => []
  }

  /** The first operator, in evaluation order from position i on, that the clause populates. */
  function FirstOperator(clause: RuleClause, i: nat): (op: Option<Operator>)
    requires i <= |RULE_OPERATORS|
    ensures op.Some? ==> op.value in clause.operands
    decreases |RULE_OPERATORS| - i
  {
    if i == |RULE_OPERATORS| then None
    else if RULE_OPERATORS[i] in clause.operands then Some(RULE_OPERATORS[i])
    else FirstOperator(clause, i + 1)
  }

  /** A well-formed clause has exactly one operator, and that is the one evaluation uses. */
  lemma SingleOperator(clause: RuleClause)
    requires WellFormedClause(clause)
    ensures FirstOperator(clause, 0).Some?
    ensures clause.operands.Keys == {FirstOperator(clause, 0).value}
  {
    var op :| op in clause.operands;
    assert clause.operands.Keys - {op} == {} by {
      assert |clause.operands.Keys - {op}| == 0;
    }
    OperatorFound(clause, Rank(op), 0);
  }

  /** The place of an operator in the evaluation order. */
  function Rank(op: Operator): (i: nat)
    ensures i < |RULE_OPERATORS| && RULE_OPERATORS[i] == op
  {
    match op
    case CrossedAbove => 0
    case CrossedBelow => 1
    case Gt => 2
    case Lt => 3
    case Gte => 4
    case Lte => 5
    case Eq => 6
  }

  lemma {:induction false} OperatorFound(clause: RuleClause, j: nat, i: nat)
    requires i <= j < |RULE_OPERATORS| && RULE_OPERATORS[j] in clause.operands
    ensures FirstOperator(clause, i).Some?
    decreases j - i
  {
    if RULE_OPERATORS[i] !in clause.operands {
      OperatorFound(clause, j, i + 1);
    }
  }
}
