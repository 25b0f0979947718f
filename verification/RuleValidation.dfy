/** The rule-reference checks of the strategy validator, and what a clean report guarantees to the evaluator. */
module RuleValidation {
  import opened Options
  import opened RuleSyntax
  import opened RuleSemantics
  import Evaluator = RuleEvaluator

  datatype BlockName = All | Any

  datatype ClauseError =
    | WrongArity(op: Operator)
    | UnknownOperand(op: Operator, operand: string)

  /** Where an error was found: the rule, which of its two lists, and the clause's position in it. */
  datatype ReferenceError = ReferenceError(rule: string, list: BlockName, index: nat, error: ClauseError)

  ghost predicate Known(spec: StrategySpec, n: string) {
    n in spec.indicators.entries || n in PriceFields()
  }

  /** The defect that an error message claims is really there. */
  ghost predicate ClauseDefect(spec: StrategySpec, clause: RuleClause, e: ClauseError) {
    && e.op in clause.operands
    && match e {
         case WrongArity(op) => |clause.operands[op]| != 2
         case UnknownOperand(op, n) => |clause.operands[op]| == 2 && Name(n) in clause.operands[op] && !Known(spec, n)
       }
  }

  function ListOf(block: RuleBlock, list: BlockName): seq<RuleClause> {
    match list
    case All => if block.allOf.Some? then block.allOf.value else []
    case Any => if block.anyOf.Some? then block.anyOf.value else []
  }

  ghost predicate Defect(spec: StrategySpec, e: ReferenceError) {
    && e.rule in spec.rules.entries
    && BlockDefect(spec, spec.rules.entries[e.rule], e)
  }

  ghost predicate BlockDefect(spec: StrategySpec, block: RuleBlock, e: ReferenceError) {
    && e.index < |ListOf(block, e.list)|
    && ClauseDefect(spec, ListOf(block, e.list)[e.index], e.error)
  }

  method ValidateOperands(spec: StrategySpec, op: Operator, operands: seq<Operand>) returns (errors: seq<ClauseError>)
    requires |operands| == 2
    ensures forall e :: e in errors <==>
              e.UnknownOperand? && e.op == op && Name(e.operand) in operands && !Known(spec, e.operand)
  {
    hide PriceFields;
    errors := [];
    for i := 0 to |operands|
      invariant forall e :: e in errors <==>
                  e.UnknownOperand? && e.op == op && Name(e.operand) in operands[..i] && !Known(spec, e.operand)
    {
      assert operands[..i + 1] == operands[..i] + [operands[i]];
      if operands[i].Name? && operands[i].name !in spec.indicators.entries && operands[i].name !in PriceFields() {
        errors := errors + [UnknownOperand(op, operands[i].name)];
      }
    }
    assert operands[..|operands|] == operands;
  }

  method ValidateRuleClause(spec: StrategySpec, clause: RuleClause) returns (errors: seq<ClauseError>)
    ensures forall e :: e in errors <==> ClauseDefect(spec, clause, e)
  {
    hide Known;
    errors := [];
    for i := 0 to |RULE_OPERATORS|
      invariant forall e :: e in errors <==> Rank(e.op) < i && ClauseDefect(spec, clause, e)
    {
      var op := RULE_OPERATORS[i];
      assert Rank(op) == i && forall o :: Rank(o) == i ==> o == op;
      if op in clause.operands {
        var operands := clause.operands[op];
        if |operands| != 2 {
          errors := errors + [WrongArity(op)];
        } else {
          var unknown := ValidateOperands(spec, op, operands);
          errors := errors + unknown;
        }
      }
    }
  }

  method ValidateList(spec: StrategySpec, rule: string, list: BlockName, clauses: seq<RuleClause>)
    returns (errors: seq<ReferenceError>)
    ensures forall e :: e in errors <==>
              e.rule == rule && e.list == list && e.index < |clauses| && ClauseDefect(spec, clauses[e.index], e.error)
  {
    hide ClauseDefect;
    errors := [];
    for i := 0 to |clauses|
      invariant forall e :: e in errors <==>
                  e.rule == rule && e.list == list && e.index < i && ClauseDefect(spec, clauses[e.index], e.error)
    {
      var found := ValidateRuleClause(spec, clauses[i]);
      var located := Locate(rule, list, i, found);
      errors := errors + located;
    }
  }

  method Locate(rule: string, list: BlockName, index: nat, found: seq<ClauseError>) returns (located: seq<ReferenceError>)
    ensures forall e :: e in located <==> e.rule == rule && e.list == list && e.index == index && e.error in found
  {
    located := [];
    for i := 0 to |found|
      invariant forall e :: e in located <==> e.rule == rule && e.list == list && e.index == index && e.error in found[..i]
    {
      assert found[..i + 1] == found[..i] + [found[i]];
      located := located + [ReferenceError(rule, list, index, found[i])];
    }
    assert found[..|found|] == found;
  }

  method ValidateRuleBlock(spec: StrategySpec, rule: string, block: RuleBlock) returns (errors: seq<ReferenceError>)
    ensures forall e :: e in errors <==> e.rule == rule && BlockDefect(spec, block, e)
  {
    hide ClauseDefect;
    var inAll := ValidateList(spec, rule, All, ListOf(block, All));
    var inAny := ValidateList(spec, rule, Any, ListOf(block, Any));
    errors := inAll + inAny;
  }

  /** Reports exactly the defects there are: every error names a real one and none is missed. */
  method ValidateRuleReferences(spec: StrategySpec) returns (errors: seq<ReferenceError>)
    requires WellFormed(spec)
    ensures forall e :: e in errors <==> Defect(spec, e)
  {
    hide BlockDefect;
    errors := [];
    var keys := spec.rules.keys;
    for i := 0 to |keys|
      invariant forall e :: e in errors <==> e.rule in keys[..i] && Defect(spec, e)
    {
      assert keys[..i + 1] == keys[..i] + [keys[i]];
      var found := ValidateRuleBlock(spec, keys[i], spec.rules.entries[keys[i]]);
      errors := errors + found;
    }
    assert keys[..|keys|] == keys;
  }

  // ----- soundness -----

  ghost predicate Clean(spec: StrategySpec) {
    forall e :: !Defect(spec, e)
  }

  ghost predicate ClauseClean(spec: StrategySpec, clause: RuleClause) {
    forall op :: op in clause.operands ==>
      && |clause.operands[op]| == 2
      && forall i :: 0 <= i < 2 ==> clause.operands[op][i].Name? ==> Known(spec, clause.operands[op][i].name)
  }

  lemma ListIsClauses(block: RuleBlock, list: BlockName)
    requires WellFormedBlock(block) && ListOf(block, list) != []
    ensures ListOf(block, list) == Clauses(block)
  {
  }

  /** A clean report is exactly: two operands everywhere, all of them known names or numbers. */
  lemma CleanMeaning(spec: StrategySpec)
    requires WellFormed(spec)
    ensures Clean(spec) <==>
            forall n, i :: n in spec.rules.entries && 0 <= i < |Clauses(spec.rules.entries[n])| ==>
              ClauseClean(spec, Clauses(spec.rules.entries[n])[i])
  {
    hide Known;
    if Clean(spec) {
      forall n, i | n in spec.rules.entries && 0 <= i < |Clauses(spec.rules.entries[n])|
        ensures ClauseClean(spec, Clauses(spec.rules.entries[n])[i])
      {
        CleanClause(spec, n, i);
      }
    } else {
      var e :| Defect(spec, e);
      var block := spec.rules.entries[e.rule];
      ListIsClauses(block, e.list);
      var clause := Clauses(block)[e.index];
      assert ClauseDefect(spec, clause, e.error);
      assert !ClauseClean(spec, clause);
    }
  }

  lemma CleanClause(spec: StrategySpec, n: string, index: nat)
    requires WellFormed(spec) && Clean(spec) && n in spec.rules.entries && index < |Clauses(spec.rules.entries[n])|
    ensures ClauseClean(spec, Clauses(spec.rules.entries[n])[index])
  {
    hide Known;
    var block := spec.rules.entries[n];
    var list := if block.allOf.Some? then All else Any;
    assert ListOf(block, list) == Clauses(block);
    var clause := Clauses(block)[index];
    forall op | op in clause.operands
      ensures |clause.operands[op]| == 2
      ensures forall i :: 0 <= i < |clause.operands[op]| ==>
                clause.operands[op][i].Name? ==> Known(spec, clause.operands[op][i].name)
    {
      assert !Defect(spec, ReferenceError(n, list, index, WrongArity(op)));
      forall i | 0 <= i < |clause.operands[op]| && clause.operands[op][i].Name?
        ensures Known(spec, clause.operands[op][i].name)
      {
        assert !Defect(spec, ReferenceError(n, list, index, UnknownOperand(op, clause.operands[op][i].name)));
      }
    }
  }

  lemma CleanBlock(spec: StrategySpec, n: string)
    requires WellFormed(spec) && Clean(spec) && n in spec.rules.entries
    ensures NoShortClause(spec.rules.entries[n])
  {
    hide Clean;
    var block := spec.rules.entries[n];
    forall i | 0 <= i < |Clauses(block)|
      ensures var op := FirstOperator(Clauses(block)[i], 0);
              op.Some? ==> |Clauses(block)[i].operands[op.value]| >= 2
    {
      CleanClause(spec, n, i);
    }
  }

  lemma CleanNeverRaisesAt(spec: StrategySpec, h: seq<real>)
    requires WellFormed(spec) && Clean(spec)
    ensures !RaisesAt(spec, h)
  {
    hide Clean;
    hide ClauseOutcome;
    forall n | n in spec.rules.entries ensures RuleOutcome(spec, h, n) != IndexError {
      CleanBlock(spec, n);
      BlockMeaning(spec, h, spec.rules.entries[n]);
    }
  }

  /** A validated spec evaluates on every price sequence without indexing past an operand list. */
  lemma {:induction false} ValidatedNeverRaises(spec: StrategySpec, prices: seq<real>)
    requires WellFormed(spec) && Clean(spec)
    ensures !RaisesWithin(spec, prices)
    ensures BatchResult(spec, prices) == Completed(EvidenceOf(spec, prices))
  {
    hide Clean;
    hide RaisesAt;
    hide EvidenceOf;
    if prices != [] {
      ValidatedNeverRaises(spec, Before(prices));
      CleanNeverRaisesAt(spec, prices);
    }
  }

  ghost predicate Unsupported(spec: StrategySpec, n: string) {
    && n in spec.indicators.entries
    && !spec.indicators.entries[n].kind.EMA?
    && !spec.indicators.entries[n].kind.SMA?
    && !spec.indicators.entries[n].kind.RSI?
  }

  /** After the first price every operand name is bound, and unresolved exactly when its indicator is unsupported. */
  lemma ValidatedOperandsAreBound(spec: StrategySpec, h: seq<real>, n: string, index: nat, op: Operator, i: nat)
    requires WellFormed(spec) && Clean(spec) && h != []
    requires n in spec.rules.entries && index < |Clauses(spec.rules.entries[n])|
    requires op in Clauses(spec.rules.entries[n])[index].operands
    requires i < |Clauses(spec.rules.entries[n])[index].operands[op]|
    ensures var operand := Clauses(spec.rules.entries[n])[index].operands[op][i];
            operand.Name? ==>
              && operand.name in Evaluator.Bindings(spec, h)
              && (Resolve(spec, h, operand).None? <==> Unsupported(spec, operand.name))
  {
    hide PriceFields;
    CleanClause(spec, n, index);
  }

  /** An `all` block with a clause on an unsupported indicator is false after every history. */
  lemma UnsupportedSilencesAll(spec: StrategySpec, h: seq<real>, n: string, index: nat, op: Operator, i: nat)
    requires WellFormed(spec) && Clean(spec)
    requires n in spec.rules.entries && spec.rules.entries[n].allOf.Some?
    requires index < |Clauses(spec.rules.entries[n])| && i < 2
    requires op in Clauses(spec.rules.entries[n])[index].operands
    requires i < |Clauses(spec.rules.entries[n])[index].operands[op]|
    requires var operand := Clauses(spec.rules.entries[n])[index].operands[op][i];
             operand.Name? && Unsupported(spec, operand.name)
    ensures RuleOutcome(spec, h, n) == Value(false)
  {
    hide ClauseOutcome;
    hide Clean;
    hide Unsupported;
    var block := spec.rules.entries[n];
    SilentClause(spec, h, Clauses(block)[index], op, i);
    CleanBlock(spec, n);
    BlockMeaning(spec, h, block);
  }

  lemma SilentClause(spec: StrategySpec, h: seq<real>, clause: RuleClause, op: Operator, i: nat)
    requires WellFormed(spec) && WellFormedClause(clause) && op in clause.operands
    requires i < 2 && i < |clause.operands[op]|
    requires clause.operands[op][i].Name? && Unsupported(spec, clause.operands[op][i].name)
    ensures ClauseOutcome(spec, h, clause) != Value(true)
  {
    hide PriceFields;
    SingleOperator(clause);
    assert Resolve(spec, h, clause.operands[op][i]) == None;
    hide Resolve;
    hide FirstOperator;
  }
}
