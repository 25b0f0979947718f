/** The strategy graph editor: the indicators of a spec from the nodes of a graph, and back. */
module GraphSpec {
  import opened Options
  import opened Dicts
  import opened Identifiers
  import opened RuleSyntax

  datatype Block = Indicator(kind: IndicatorType) | Condition(op: Operator)

  /** `period` is the numeric value of the parameter; None when it is missing or not a finite number. */
  datatype Node = Node(id: string, block: Block, period: Option<real>)

  type Indicators = Dict<string, IndicatorSpec>

  // ----- ids -----

  predicate IsWordChar(c: char) {
    'A' <= c <= 'Z' || 'a' <= c <= 'z' || IsDigit(c) || c == '_'
  }

  predicate StartsWith(s: string, prefix: string) {
    |prefix| <= |s| && s[..|prefix|] == prefix
  }

  /** The prefix of the ids that the editor gives to new nodes. */
  function NodePrefix(): string {
    "node_"
  }

  function LowerName(kind: IndicatorType): (s: string)
    ensures s != "" && IsWordChar(s[0]) && !IsDigit(s[0]) && s[0] != 'n'
    ensures forall i :: 0 <= i < |s| ==> IsWordChar(s[i])
  {
    match kind
    case EMA => "ema"
    case SMA => "sma"
    case RSI => "rsi"
    case MACD => "macd"
    case ATR => "atr"
    case BollingerBands => "bollingerbands"
    case VWAP => "vwap"
  }

  /** `replace(/[^A-Za-z0-9_]/g, "_")` */
  function Underscored(s: string): string {
    seq(|s|, i requires 0 <= i < |s| => if IsWordChar(s[i]) then s[i] else '_')
  }

  function IndicatorPrefix(): (s: string)
    ensures s != "" && s[0] == 'i' && forall i :: 0 <= i < |s| ==> IsWordChar(s[i])
  {
    "indicator_"
  }

  /** ... and then `replace(/^([0-9])/, "indicator_$1")` */
  function Normalized(s: string): string {
    var t := Underscored(s);
    if t != "" && IsDigit(t[0]) then IndicatorPrefix() + t else t
  }

  /** Names that every JavaScript object inherits, so that `in` finds them in any record. */
  function Inherited(): set<string> {
    {"constructor", "toString", "toLocaleString", "valueOf", "hasOwnProperty", "isPrototypeOf", "propertyIsEnumerable",
     "__proto__", "__defineGetter__", "__defineSetter__", "__lookupGetter__", "__lookupSetter__"}
  }

  function Taken(d: Indicators): set<string> {
    d.entries.Keys + Inherited()
  }

  /** The k-th candidate of the search: the name itself, then with suffixes from 2. */
  function Candidate(name: string, k: nat): string {
    if k <= 1 then name else Numbered(name, "_", k, 0)
  }

  lemma CandidatesDiffer(name: string, k: nat, k': nat)
    requires 1 <= k < k'
    ensures Candidate(name, k) != Candidate(name, k')
  {
    hide Padded;
    if k > 1 {
      NumberedInjective(name, k, name, k', "_", 0);
    } else {
      assert |Numbered(name, "_", k', 0)| > |name|;
    }
  }

  /** The candidate numbered k is the first that is free, from number `from` on. */
  ghost predicate FirstFreeIs(name: string, from: nat, taken: set<string>, k: nat) {
    && from <= k
    && Candidate(name, k) !in taken
    && (forall i :: from <= i < k ==> Candidate(name, i) in taken)
  }

  /** Candidates are tried in turn.  They differ from each other, so a taken one never comes back and the search ends. */
  function FirstFree(name: string, from: nat, taken: set<string>): (k: nat)
    requires from >= 1
    ensures FirstFreeIs(name, from, taken, k)
    decreases |taken|
  {
    if Candidate(name, from) !in taken then from
    else
      var k := FirstFree(name, from + 1, taken - {Candidate(name, from)});
      CandidatesDiffer(name, from, k);
      k
  }

  /** The generated name of a node without a usable id. */
  function FallbackName(kind: IndicatorType, d: Indicators): string {
    Numbered(LowerName(kind), "_", |d.keys| + 1, 0)
  }

  predicate HasOwnName(id: string) {
    id != "" && !StartsWith(id, NodePrefix())
  }

  /** The first name the search tries. */
  function BaseName(id: string, kind: IndicatorType, d: Indicators): string {
    Normalized(if HasOwnName(id) then id else FallbackName(kind, d))
  }

  function SafeId(id: string, kind: IndicatorType, d: Indicators): (r: string)
    ensures r !in d.entries && r !in Inherited()
  {
    var name := BaseName(id, kind, d);
    Candidate(name, FirstFree(name, 1, Taken(d)))
  }

  method SafeIndicatorId(id: string, kind: IndicatorType, d: Indicators) returns (candidate: string)
    ensures candidate == SafeId(id, kind, d)
    ensures candidate !in d.entries
  {
    hide Normalized, NodePrefix, LowerName, Numbered, Inherited;
    var base := if HasOwnName(id) then id else FallbackName(kind, d);
    var normalized := Normalized(base);
    NormalizedIsNotEmpty(id, kind, d);
    candidate := if normalized != "" then normalized else FallbackName(kind, d);
    ghost var first := FirstFree(normalized, 1, Taken(d));
    var suffix := 2;
    while candidate in Taken(d)
      invariant 2 <= suffix <= first + 1
      invariant candidate == Candidate(normalized, suffix - 1)
      decreases first + 1 - suffix
    {
      candidate := Numbered(normalized, "_", suffix, 0);
      suffix := suffix + 1;
    }
  }

  lemma NormalizedIsNotEmpty(id: string, kind: IndicatorType, d: Indicators)
    ensures BaseName(id, kind, d) != ""
  {
    hide Padded, LowerName;
  }

  // ----- from a graph to indicators -----

  function FastName(): string { "ema_fast" }
  function SlowName(): string { "ema_slow" }
  function RsiName(): string { "rsi" }

  lemma SlotNamesDiffer()
    ensures FastName() != SlowName() && FastName() != RsiName() && SlowName() != RsiName()
  {
    assert FastName()[4] == 'f' && SlowName()[4] == 's' && |RsiName()| == 3;
  }

  /** The record with the three default indicators' names, in order. */
  function Slots(fast: IndicatorSpec, slow: IndicatorSpec, rsi: IndicatorSpec): Indicators {
    Dict([FastName(), SlowName(), RsiName()], map[FastName() := fast, SlowName() := slow, RsiName() := rsi])
  }

  /** Assigning to a slot keeps the order of the record. */
  lemma PutSlot(fast: IndicatorSpec, slow: IndicatorSpec, rsi: IndicatorSpec, s: IndicatorSpec)
    ensures Slots(fast, slow, rsi).Put(FastName(), s) == Slots(s, slow, rsi)
    ensures Slots(fast, slow, rsi).Put(SlowName(), s) == Slots(fast, s, rsi)
    ensures Slots(fast, slow, rsi).Put(RsiName(), s) == Slots(fast, slow, s)
    ensures var d := Slots(fast, slow, rsi).entries;
            FastName() in d && SlowName() in d && RsiName() in d && d[FastName()] == fast && d[SlowName()] == slow && d[RsiName()] == rsi
  {
    hide FastName, SlowName, RsiName;
    SlotNamesDiffer();
    var d := map[FastName() := fast, SlowName() := slow, RsiName() := rsi];
    assert d[FastName() := s] == map[FastName() := s, SlowName() := slow, RsiName() := rsi];
    assert d[SlowName() := s] == map[FastName() := fast, SlowName() := s, RsiName() := rsi];
    assert d[RsiName() := s] == map[FastName() := fast, SlowName() := slow, RsiName() := s];
  }

  /** The positions of the nodes of one indicator type, in order. */
  function NodesOf(nodes: seq<Node>, kind: IndicatorType): seq<nat> {
    if nodes == [] then []
    else
      var earlier := NodesOf(nodes[..|nodes| - 1], kind);
      if nodes[|nodes| - 1].block == Indicator(kind) then earlier + [|nodes| - 1] else earlier
  }

  lemma {:induction false} NodesOfFacts(nodes: seq<Node>, kind: IndicatorType)
    ensures forall j :: 0 <= j < |NodesOf(nodes, kind)| ==>
              NodesOf(nodes, kind)[j] < |nodes| && nodes[NodesOf(nodes, kind)[j]].block == Indicator(kind)
    ensures forall j, k :: 0 <= j < k < |NodesOf(nodes, kind)| ==> NodesOf(nodes, kind)[j] < NodesOf(nodes, kind)[k]
  {
    if nodes != [] {
      NodesOfFacts(nodes[..|nodes| - 1], kind);
    }
  }

  function DefaultPeriod(kind: IndicatorType): (p: int)
    ensures p > 0
  {
    match kind
    case EMA => 20
    case SMA => 20
    case RSI => 14
    case MACD => 12
    case ATR => 14
    case BollingerBands => 20
    case VWAP => 20
  }

  function PositiveInteger(value: Option<real>, fallback: int): (p: int)
    requires fallback > 0
    ensures p > 0
  {
    if value.Some? && value.value.Floor as real == value.value && value.value > 0.0 then value.value.Floor else fallback
  }

  function SpecFromNode(node: Node, fallback: IndicatorSpec): (s: IndicatorSpec)
    requires fallback.period > 0
    ensures s.period > 0
  {
    IndicatorSpec(if node.block.Indicator? then node.block.kind else fallback.kind, PositiveInteger(node.period, fallback.period))
  }

  /** The j-th node of a type fills a slot, or the slot keeps its default. */
  function SlotSpec(nodes: seq<Node>, kind: IndicatorType, j: nat, period: int): (s: IndicatorSpec)
    requires period > 0
    ensures s.period > 0
  {
    NodesOfFacts(nodes, kind);
    if j < |NodesOf(nodes, kind)| then SpecFromNode(nodes[NodesOf(nodes, kind)[j]], IndicatorSpec(kind, period))
    else IndicatorSpec(kind, period)
  }

  function SlotsOf(nodes: seq<Node>): Indicators {
    Slots(SlotSpec(nodes, EMA, 0, 20), SlotSpec(nodes, EMA, 1, 50), SlotSpec(nodes, RSI, 0, 14))
  }

  predicate FillsSlot(nodes: seq<Node>, i: nat) {
    var emas, rsis := NodesOf(nodes, EMA), NodesOf(nodes, RSI);
    (|emas| > 0 && emas[0] == i) || (|emas| > 1 && emas[1] == i) || (|rsis| > 0 && rsis[0] == i)
  }

  /** An indicator node beyond the slots. */
  predicate IsExtra(nodes: seq<Node>, i: nat)
    requires i < |nodes|
  {
    nodes[i].block.Indicator? && !FillsSlot(nodes, i)
  }

  function ExtraSpec(node: Node): (s: IndicatorSpec)
    requires node.block.Indicator?
    ensures s.period > 0
  {
    SpecFromNode(node, IndicatorSpec(node.block.kind, DefaultPeriod(node.block.kind)))
  }

  /** The record after the first n nodes. */
  function Filled(nodes: seq<Node>, n: nat): Indicators
    requires n <= |nodes|
  {
    if n == 0 then SlotsOf(nodes)
    else
      var d := Filled(nodes, n - 1);
      if IsExtra(nodes, n - 1) then d.Put(SafeId(nodes[n - 1].id, nodes[n - 1].block.kind, d), ExtraSpec(nodes[n - 1])) else d
  }

  function FromGraph(nodes: seq<Node>): Indicators {
    Filled(nodes, |nodes|)
  }

  // ----- and back -----

  function ToGraph(d: Indicators): seq<Node>
    requires forall i :: 0 <= i < |d.keys| ==> d.keys[i] in d.entries
  {
    seq(|d.keys|, i requires 0 <= i < |d.keys| =>
      var s := d.entries[d.keys[i]];
      Node(d.keys[i], Indicator(s.kind), Some(PositiveInteger(Some(s.period as real), DefaultPeriod(s.kind)) as real)))
  }

  method FillSlots(nodes: seq<Node>) returns (d: Indicators)
    ensures d == SlotsOf(nodes)
  {
    hide FastName, SlowName, RsiName, NodesOf, Slots, SpecFromNode;
    var fast, slow, rsi := IndicatorSpec(EMA, 20), IndicatorSpec(EMA, 50), IndicatorSpec(RSI, 14);
    d := Slots(fast, slow, rsi);
    var emas, rsis := NodesOf(nodes, EMA), NodesOf(nodes, RSI);
    NodesOfFacts(nodes, EMA);
    NodesOfFacts(nodes, RSI);
    ghost var fast' := SlotSpec(nodes, EMA, 0, 20);
    ghost var slow' := SlotSpec(nodes, EMA, 1, 50);
    PutSlot(fast, slow, rsi, fast');
    if |emas| > 0 {
      d := d.Put(FastName(), SpecFromNode(nodes[emas[0]], d.entries[FastName()]));
    }
    assert d == Slots(fast', slow, rsi);
    PutSlot(fast', slow, rsi, slow');
    if |emas| > 1 {
      d := d.Put(SlowName(), SpecFromNode(nodes[emas[1]], d.entries[SlowName()]));
    }
    assert d == Slots(fast', slow', rsi);
    PutSlot(fast', slow', rsi, SlotSpec(nodes, RSI, 0, 14));
    if |rsis| > 0 {
      d := d.Put(RsiName(), SpecFromNode(nodes[rsis[0]], d.entries[RsiName()]));
    }
  }

  method IndicatorsFromGraph(nodes: seq<Node>) returns (d: Indicators)
    ensures d == FromGraph(nodes)
  {
    hide SafeId, ExtraSpec, SlotsOf, NodesOf;
    var emas, rsis := NodesOf(nodes, EMA), NodesOf(nodes, RSI);
    NodesOfFacts(nodes, EMA);
    NodesOfFacts(nodes, RSI);
    d := FillSlots(nodes);
    for i := 0 to |nodes|
      invariant d == Filled(nodes, i)
    {
      var node := nodes[i];
      if !node.block.Indicator? {
        continue;
      }
      if (node.block.kind == EMA && ((|emas| > 0 && emas[0] == i) || (|emas| > 1 && emas[1] == i)))
         || (node.block.kind == RSI && |rsis| > 0 && rsis[0] == i) {
        continue;
      }
      var id := SafeIndicatorId(node.id, node.block.kind, d);
      d := d.Put(id, ExtraSpec(node));
    }
  }
}
