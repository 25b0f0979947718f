/** Conservation and the round trip of the strategy graph editor. */
module GraphRoundTrip {
  import opened Options
  import opened Identifiers
  import opened RuleSyntax
  import opened GraphSpec

  // ----- names -----

  /** A name that the sanitising step leaves alone. */
  predicate IsClean(s: string) {
    && s != ""
    && !IsDigit(s[0])
    && (forall i :: 0 <= i < |s| ==> IsWordChar(s[i]))
  }

  lemma NodeChars()
    ensures |NodePrefix()| == 5
    ensures NodePrefix()[0] == 'n' && NodePrefix()[1] == 'o' && NodePrefix()[2] == 'd' && NodePrefix()[3] == 'e' && NodePrefix()[4] == '_'
  {
  }

  lemma NormalizedIsClean(s: string)
    requires s != ""
    ensures IsClean(Normalized(s))
    ensures IsClean(s) ==> Normalized(s) == s
  {
  }

  lemma CandidateFacts(name: string, k: nat)
    requires IsClean(name)
    ensures IsClean(Candidate(name, k))
    ensures Candidate(name, k)[0] == name[0]
    ensures k <= 1 ==> Candidate(name, k) == name
    ensures k > 1 ==> |Candidate(name, k)| >= |name| + 2 && Candidate(name, k)[..|name|] == name && Candidate(name, k)[|name|] == '_'
    ensures k > 1 ==> IsDigit(Candidate(name, k)[|Candidate(name, k)| - 1])
  {
    hide Padded;
    var digits := Padded(k, 0);
    if k > 1 {
      var c := Candidate(name, k);
      assert c == name + "_" + digits;
      assert forall i :: 0 <= i < |digits| ==> IsDigit(digits[i]);
      assert forall i :: |name| < i < |c| ==> c[i] == digits[i - |name| - 1];
    }
  }

  lemma FallbackIsClean(kind: IndicatorType, d: Indicators)
    ensures IsClean(FallbackName(kind, d)) && FallbackName(kind, d)[0] != 'n'
  {
    hide LowerName, Padded;
    CandidateFacts(LowerName(kind), |d.keys| + 1);
    var digits := Padded(|d.keys| + 1, 0);
    var c := FallbackName(kind, d);
    assert c == LowerName(kind) + "_" + digits;
    assert forall i :: 0 <= i < |digits| ==> IsDigit(digits[i]);
    assert forall i :: |LowerName(kind)| < i < |c| ==> c[i] == digits[i - |LowerName(kind)| - 1];
  }

  lemma SafeIdFacts(id: string, kind: IndicatorType, d: Indicators)
    ensures IsClean(SafeId(id, kind, d))
    ensures !HasOwnName(id) ==> SafeId(id, kind, d)[0] != 'n'
  {
    hide Normalized, FallbackName, Candidate, Inherited;
    FallbackIsClean(kind, d);
    NormalizedIsClean(FallbackName(kind, d));
    if HasOwnName(id) {
      NormalizedIsClean(id);
    }
    var name := BaseName(id, kind, d);
    CandidateFacts(name, FirstFree(name, 1, Taken(d)));
  }

  // ----- conservation -----

  /** The positions of the first n nodes that are beyond the slots. */
  function Extras(nodes: seq<Node>, n: nat): seq<nat>
    requires n <= |nodes|
  {
    if n == 0 then [] else if IsExtra(nodes, n - 1) then Extras(nodes, n - 1) + [n - 1] else Extras(nodes, n - 1)
  }

  /** They are exactly the extra positions, each once and in order. */
  lemma {:induction false} ExtrasAreExtra(nodes: seq<Node>, n: nat)
    requires n <= |nodes|
    ensures forall j :: 0 <= j < |Extras(nodes, n)| ==> Extras(nodes, n)[j] < n && IsExtra(nodes, Extras(nodes, n)[j])
    ensures forall i :: 0 <= i < n && IsExtra(nodes, i) ==> i in Extras(nodes, n)
    ensures forall j, k :: 0 <= j < k < |Extras(nodes, n)| ==> Extras(nodes, n)[j] < Extras(nodes, n)[k]
  {
    hide IsExtra;
    if n > 0 {
      ExtrasAreExtra(nodes, n - 1);
    }
  }

  /** A well-made record: the three slots, then indicators with clean names of their own. */
  ghost predicate WellMade(d: Indicators) {
    && d.Valid()
    && |d.keys| >= 3
    && SlotsInPlace(d)
    && ExtrasNamed(d)
    && (forall id :: id in d.entries ==> d.entries[id].period > 0)
  }

  ghost predicate SlotsInPlace(d: Indicators)
    requires |d.keys| >= 3
  {
    && d.keys[0] == FastName() && d.keys[1] == SlowName() && d.keys[2] == RsiName()
    && FastName() in d.entries && SlowName() in d.entries && RsiName() in d.entries
    && d.entries[FastName()].kind == EMA && d.entries[SlowName()].kind == EMA && d.entries[RsiName()].kind == RSI
  }

  ghost predicate ExtrasNamed(d: Indicators) {
    forall i :: 3 <= i < |d.keys| ==> IsClean(d.keys[i]) && d.keys[i] !in Inherited()
  }

  lemma WellMadeFacts(d: Indicators)
    requires WellMade(d)
    ensures d.Valid() && |d.keys| >= 3
    ensures FastName() in d.entries && SlowName() in d.entries && RsiName() in d.entries
  {
  }

  lemma SlotsWellMade(nodes: seq<Node>)
    ensures WellMade(SlotsOf(nodes)) && |SlotsOf(nodes).keys| == 3
  {
    hide FastName, SlowName, RsiName, IsClean, Inherited, NodesOf;
    SlotNamesDiffer();
    NodesOfFacts(nodes, EMA);
    NodesOfFacts(nodes, RSI);
    var d := SlotsOf(nodes);
    assert forall i :: 0 <= i < 3 ==> d.keys[i] in d.entries;
    assert forall id :: id in d.entries ==> id == d.keys[0] || id == d.keys[1] || id == d.keys[2];
  }

  /** Adding under a fresh name appends one entry and touches nothing else. */
  lemma AddWellMade(d: Indicators, id: string, s: IndicatorSpec)
    requires WellMade(d) && id !in d.entries && id !in Inherited() && IsClean(id) && s.period > 0
    ensures WellMade(d.Put(id, s)) && d.Put(id, s).keys == d.keys + [id]
  {
    hide FastName, SlowName, RsiName, IsClean, Inherited;
  }

  /** The entries after the slots are the extra nodes' indicators, in order. */
  ghost predicate HoldsExtras(d: Indicators, nodes: seq<Node>, n: nat)
    requires n <= |nodes|
  {
    HoldsSpecs(d, nodes, Extras(nodes, n))
  }

  ghost predicate HoldsSpecs(d: Indicators, nodes: seq<Node>, extras: seq<nat>) {
    && |d.keys| == 3 + |extras|
    && (forall j :: 0 <= j < |extras| ==>
          && extras[j] < |nodes| && nodes[extras[j]].block.Indicator?
          && d.keys[3 + j] in d.entries
          && d.entries[d.keys[3 + j]] == ExtraSpec(nodes[extras[j]]))
  }

  lemma {:induction false} FilledFacts(nodes: seq<Node>, n: nat)
    requires n <= |nodes|
    ensures WellMade(Filled(nodes, n)) && HoldsExtras(Filled(nodes, n), nodes, n)
  {
    hide WellMade, HoldsExtras, SafeId, ExtraSpec, IsClean, Inherited, SlotsOf;
    if n == 0 {
      SlotsWellMade(nodes);
      NoExtras(nodes);
    } else {
      var d, node := Filled(nodes, n - 1), nodes[n - 1];
      FilledFacts(nodes, n - 1);
      if IsExtra(nodes, n - 1) {
        var id := SafeId(node.id, node.block.kind, d);
        SafeIdFacts(node.id, node.block.kind, d);
        AddWellMade(d, id, ExtraSpec(node));
        HoldsOneMore(nodes, n, d, id);
      } else {
        HoldsNoMore(nodes, n, d);
      }
    }
  }

  lemma NoExtras(nodes: seq<Node>)
    ensures HoldsExtras(SlotsOf(nodes), nodes, 0)
  {
  }

  lemma HoldsOneMore(nodes: seq<Node>, n: nat, d: Indicators, id: string)
    requires 0 < n <= |nodes| && HoldsExtras(d, nodes, n - 1) && IsExtra(nodes, n - 1)
    requires id !in d.entries
    ensures HoldsExtras(d.Put(id, ExtraSpec(nodes[n - 1])), nodes, n)
  {
    hide ExtraSpec, FillsSlot;
    assert Extras(nodes, n) == Extras(nodes, n - 1) + [n - 1];
  }

  lemma HoldsNoMore(nodes: seq<Node>, n: nat, d: Indicators)
    requires 0 < n <= |nodes| && HoldsExtras(d, nodes, n - 1) && !IsExtra(nodes, n - 1)
    ensures HoldsExtras(d, nodes, n)
  {
    hide HoldsSpecs, IsExtra;
  }

  function IndicatorCount(nodes: seq<Node>): nat {
    if nodes == [] then 0
    else IndicatorCount(nodes[..|nodes| - 1]) + if nodes[|nodes| - 1].block.Indicator? then 1 else 0
  }

  function Min(a: int, b: int): int {
    if a <= b then a else b
  }

  /** The nodes of a type in a prefix come first among the nodes of that type. */
  lemma {:induction false} NodesOfPrefix(nodes: seq<Node>, n: nat, kind: IndicatorType)
    requires n <= |nodes|
    ensures NodesOf(nodes[..n], kind) <= NodesOf(nodes, kind)
  {
    if n == |nodes| {
      assert nodes[..n] == nodes;
    } else {
      var front := nodes[..|nodes| - 1];
      NodesOfPrefix(front, n, kind);
      assert front[..n] == nodes[..n];
    }
  }

  lemma NextOfKind(nodes: seq<Node>, n: nat, kind: IndicatorType)
    requires n < |nodes|
    ensures nodes[n].block == Indicator(kind) ==>
              var c := |NodesOf(nodes[..n], kind)|;
              c < |NodesOf(nodes, kind)| && NodesOf(nodes, kind)[c] == n && NodesOf(nodes[..n + 1], kind) == NodesOf(nodes[..n], kind) + [n]
    ensures nodes[n].block != Indicator(kind) ==> n !in NodesOf(nodes, kind) && NodesOf(nodes[..n + 1], kind) == NodesOf(nodes[..n], kind)
  {
    var longer := nodes[..n + 1];
    assert longer[..|longer| - 1] == nodes[..n] && longer[|longer| - 1] == nodes[n];
    NodesOfPrefix(nodes, n + 1, kind);
    NodesOfFacts(nodes, kind);
  }

  lemma FillsSlotByCount(nodes: seq<Node>, n: nat)
    requires n < |nodes|
    ensures FillsSlot(nodes, n) <==>
              || (nodes[n].block == Indicator(EMA) && |NodesOf(nodes[..n], EMA)| < 2)
              || (nodes[n].block == Indicator(RSI) && |NodesOf(nodes[..n], RSI)| < 1)
  {
    hide NodesOf;
    NextOfKind(nodes, n, EMA);
    NextOfKind(nodes, n, RSI);
    NodesOfFacts(nodes, EMA);
    NodesOfFacts(nodes, RSI);
  }

  lemma {:induction false} ExtrasCount(nodes: seq<Node>, n: nat)
    requires n <= |nodes|
    ensures |Extras(nodes, n)| ==
            IndicatorCount(nodes[..n]) - Min(2, |NodesOf(nodes[..n], EMA)|) - Min(1, |NodesOf(nodes[..n], RSI)|)
  {
    if n == 0 {
      assert nodes[..0] == [];
    } else {
      hide NodesOf, FillsSlot;
      var shorter, longer := nodes[..n - 1], nodes[..n];
      assert longer[..|longer| - 1] == shorter && longer[|longer| - 1] == nodes[n - 1];
      ExtrasCount(nodes, n - 1);
      FillsSlotByCount(nodes, n - 1);
      NextOfKind(nodes, n - 1, EMA);
      NextOfKind(nodes, n - 1, RSI);
    }
  }

  /** No indicator is overwritten: the record has the three slots and one entry for every indicator node that fills none of them,
      each with that node's indicator, in the order of the nodes. */
  lemma EveryIndicatorIsKept(nodes: seq<Node>)
    ensures var d := FromGraph(nodes);
            && d.Valid()
            && |d.keys| == 3 + IndicatorCount(nodes) - Min(2, |NodesOf(nodes, EMA)|) - Min(1, |NodesOf(nodes, RSI)|)
            && HoldsExtras(d, nodes, |nodes|)
    ensures var extras := Extras(nodes, |nodes|);
            && (forall i :: i in extras <==> 0 <= i < |nodes| && IsExtra(nodes, i))
            && (forall j, k :: 0 <= j < k < |extras| ==> extras[j] < extras[k])
  {
    hide NodesOf, IndicatorCount, Extras, Filled, IsExtra;
    ExtrasAreExtra(nodes, |nodes|);
    FilledFacts(nodes, |nodes|);
    ExtrasCount(nodes, |nodes|);
    assert nodes[..|nodes|] == nodes;
  }

  // ----- the round trip, on records -----

  /** The first m entries of d, in order. */
  ghost predicate IsPrefix(e: Indicators, d: Indicators, m: nat)
    requires m <= |d.keys|
  {
    && e.Valid()
    && e.keys == d.keys[..m]
    && (forall i :: 0 <= i < m ==> SameEntry(e, d, d.keys[i]))
  }

  predicate SameEntry(e: Indicators, d: Indicators, id: string) {
    id in e.entries && id in d.entries && e.entries[id] == d.entries[id]
  }

  lemma WholePrefix(e: Indicators, d: Indicators)
    requires d.Valid() && IsPrefix(e, d, |d.keys|)
    ensures e == d
  {
    assert d.keys[..|d.keys|] == d.keys;
    assert forall id :: id in d.entries ==> id in d.keys;
    assert forall id :: id in e.entries ==> id in e.keys;
    forall id | id in d.entries ensures SameEntry(e, d, id) {
      var i :| 0 <= i < |d.keys| && d.keys[i] == id;
    }
    assert e.entries == d.entries;
  }

  lemma ValidKeys(d: Indicators)
    requires d.Valid()
    ensures forall i :: 0 <= i < |d.keys| ==> d.keys[i] in d.entries
  {
    assert forall i :: 0 <= i < |d.keys| ==> d.keys[i] in d.keys;
  }

  /** The graph of a valid record. */
  ghost function GraphOf(d: Indicators): (nodes: seq<Node>)
    requires d.Valid()
  {
    ValidKeys(d);
    ToGraph(d)
  }

  lemma PeriodSurvives(p: int, fallback: int)
    requires p > 0 && fallback > 0
    ensures PositiveInteger(Some(p as real), fallback) == p
  {
  }

  lemma GraphNode(d: Indicators, i: nat, fallback: int)
    requires WellMade(d) && i < |d.keys| && fallback > 0
    ensures |GraphOf(d)| == |d.keys| && d.keys[i] in d.entries
    ensures GraphOf(d)[i].id == d.keys[i]
    ensures GraphOf(d)[i].block == Indicator(d.entries[d.keys[i]].kind)
    ensures ExtraSpec(GraphOf(d)[i]) == d.entries[d.keys[i]]
    ensures SpecFromNode(GraphOf(d)[i], IndicatorSpec(d.entries[d.keys[i]].kind, fallback)) == d.entries[d.keys[i]]
  {
    hide FastName, SlowName, RsiName, IsClean, Inherited, PositiveInteger;
    ValidKeys(d);
    var s := d.entries[d.keys[i]];
    PeriodSurvives(s.period, DefaultPeriod(s.kind));
    PeriodSurvives(s.period, fallback);
  }

  lemma SlotPositions(nodes: seq<Node>)
    requires |nodes| >= 3
    requires nodes[0].block == Indicator(EMA) && nodes[1].block == Indicator(EMA) && nodes[2].block == Indicator(RSI)
    ensures |NodesOf(nodes, EMA)| >= 2 && NodesOf(nodes, EMA)[0] == 0 && NodesOf(nodes, EMA)[1] == 1
    ensures |NodesOf(nodes, RSI)| >= 1 && NodesOf(nodes, RSI)[0] == 2
  {
    hide NodesOf;
    assert nodes[..0] == [];
    NoNodes(EMA);
    NoNodes(RSI);
    NextOfKind(nodes, 0, EMA);
    NextOfKind(nodes, 1, EMA);
    NextOfKind(nodes, 0, RSI);
    NextOfKind(nodes, 1, RSI);
    NextOfKind(nodes, 2, RSI);
  }

  lemma NoNodes(kind: IndicatorType)
    ensures NodesOf([], kind) == []
  {
  }

  lemma SlotBlocks(d: Indicators)
    requires WellMade(d)
    ensures |GraphOf(d)| == |d.keys| >= 3
    ensures GraphOf(d)[0].block == Indicator(EMA) && GraphOf(d)[1].block == Indicator(EMA) && GraphOf(d)[2].block == Indicator(RSI)
    ensures forall i :: 0 <= i < |GraphOf(d)| ==> GraphOf(d)[i].block.Indicator?
  {
    hide FastName, SlowName, RsiName, IsClean, Inherited, PositiveInteger;
    ValidKeys(d);
  }

  /** In the graph of a record, exactly the nodes after the third are extra. */
  lemma GraphExtras(d: Indicators, i: nat)
    requires WellMade(d) && i < |GraphOf(d)|
    ensures IsExtra(GraphOf(d), i) <==> i >= 3
  {
    hide WellMade, NodesOf, GraphOf;
    WellMadeFacts(d);
    SlotBlocks(d);
    SlotPositions(GraphOf(d));
  }

  lemma GraphSlots(d: Indicators)
    requires WellMade(d)
    ensures SlotsOf(GraphOf(d)) == Slots(d.entries[FastName()], d.entries[SlowName()], d.entries[RsiName()])
  {
    hide NodesOf, GraphOf, Slots, ExtraSpec, SpecFromNode, IsClean, Inherited, FastName, SlowName, RsiName, ExtrasNamed;
    SlotBlocks(d);
    SlotPositions(GraphOf(d));
    GraphNode(d, 0, 20);
    GraphNode(d, 1, 50);
    GraphNode(d, 2, 14);
  }

  lemma SlotsArePrefix(d: Indicators)
    requires WellMade(d)
    ensures IsPrefix(Slots(d.entries[FastName()], d.entries[SlowName()], d.entries[RsiName()]), d, 3)
  {
    hide FastName, SlowName, RsiName, IsClean, Inherited;
    SlotNamesDiffer();
    var e := Slots(d.entries[FastName()], d.entries[SlowName()], d.entries[RsiName()]);
    assert d.keys[..3] == e.keys;
    assert e.keys[0] == FastName() && e.keys[1] == SlowName() && e.keys[2] == RsiName();
    assert forall id :: id in e.entries ==> id in e.keys;
  }

  lemma SlotsFilled(d: Indicators)
    requires WellMade(d)
    ensures |GraphOf(d)| == |d.keys| >= 3 && IsPrefix(Filled(GraphOf(d), 3), d, 3)
  {
    hide WellMade, GraphOf, IsExtra, SlotsOf, IsPrefix, FastName, SlowName, RsiName;
    WellMadeFacts(d);
    SlotBlocks(d);
    GraphExtras(d, 0);
    GraphExtras(d, 1);
    GraphExtras(d, 2);
    GraphSlots(d);
    SlotsArePrefix(d);
    var nodes := GraphOf(d);
    assert Filled(nodes, 1) == Filled(nodes, 0) && Filled(nodes, 2) == Filled(nodes, 1) && Filled(nodes, 3) == Filled(nodes, 2);
  }

  /** A clean name that is free and does not look like a generated node id is kept. */
  lemma SafeIdKeeps(id: string, kind: IndicatorType, e: Indicators)
    requires IsClean(id) && HasOwnName(id) && id !in Taken(e)
    ensures SafeId(id, kind, e) == id
  {
    hide Normalized, Inherited, FallbackName, NodePrefix, IsClean;
    CleanIsNormalized(id);
    CandidateOne(id);
  }

  lemma CleanIsNormalized(s: string)
    requires IsClean(s)
    ensures Normalized(s) == s
  {
    NormalizedIsClean(s);
  }

  lemma CandidateOne(name: string)
    ensures Candidate(name, 1) == name
  {
  }

  lemma PrefixGrows(e: Indicators, d: Indicators, m: nat)
    requires d.Valid() && m < |d.keys| && IsPrefix(e, d, m) && d.keys[m] in d.entries
    ensures d.keys[m] !in e.entries
    ensures IsPrefix(e.Put(d.keys[m], d.entries[d.keys[m]]), d, m + 1)
  {
    var id := d.keys[m];
    assert id !in e.keys;
    var e' := e.Put(id, d.entries[id]);
    assert d.keys[..m + 1] == d.keys[..m] + [id];
    forall i | 0 <= i < m + 1 ensures SameEntry(e', d, d.keys[i]) {
    }
  }

  lemma NotTaken(e: Indicators, d: Indicators, m: nat)
    requires WellMade(d) && 3 <= m < |d.keys| && d.keys[m] !in e.entries
    ensures IsClean(d.keys[m]) && d.keys[m] !in Taken(e)
  {
    hide Inherited, IsClean, FastName, SlowName, RsiName;
  }

  /** Until the first name that looks like a generated node id, the second record repeats the first. */
  lemma {:induction false} RepeatsPrefix(d: Indicators, m: nat)
    requires WellMade(d) && 3 <= m <= |d.keys|
    requires forall i :: 3 <= i < m ==> !StartsWith(d.keys[i], NodePrefix())
    ensures |GraphOf(d)| == |d.keys| && IsPrefix(Filled(GraphOf(d), m), d, m)
    decreases m
  {
    hide WellMade, IsPrefix, GraphOf, IsExtra, SafeId, IsClean, Taken, ExtraSpec, NodePrefix;
    WellMadeFacts(d);
    if m == 3 {
      SlotsFilled(d);
    } else {
      RepeatsPrefix(d, m - 1);
      GraphExtras(d, m - 1);
      GraphNode(d, m - 1, 1);
      var e, node := Filled(GraphOf(d), m - 1), GraphOf(d)[m - 1];
      PrefixGrows(e, d, m - 1);
      NotTaken(e, d, m - 1);
      CleanIsNotEmpty(node.id);
      SafeIdKeeps(node.id, node.block.kind, e);
    }
  }

  lemma CleanIsNotEmpty(s: string)
    requires IsClean(s)
    ensures s != ""
  {
  }

  lemma {:induction false} KeysGrow(nodes: seq<Node>, n: nat, n': nat)
    requires n <= n' <= |nodes|
    ensures Filled(nodes, n).keys <= Filled(nodes, n').keys
    decreases n'
  {
    hide IsExtra, SafeId, ExtraSpec, SlotsOf;
    if n < n' {
      KeysGrow(nodes, n, n' - 1);
    }
  }

  /** The first name that looks like a generated node id is replaced. */
  lemma FirstNodeNameIsLost(d: Indicators, m: nat)
    requires WellMade(d) && 3 <= m < |d.keys|
    requires forall i :: 3 <= i < m ==> !StartsWith(d.keys[i], NodePrefix())
    requires StartsWith(d.keys[m], NodePrefix())
    ensures FromGraph(GraphOf(d)) != d
  {
    hide WellMade, GraphOf, IsExtra, SafeId, IsClean, Taken, ExtraSpec, NodePrefix;
    WellMadeFacts(d);
    RepeatsPrefix(d, m);
    GraphExtras(d, m);
    GraphNode(d, m, 1);
    var nodes := GraphOf(d);
    var e := Filled(nodes, m);
    SafeIdFacts(nodes[m].id, nodes[m].block.kind, e);
    NodeChars();
    KeysGrow(nodes, m + 1, |nodes|);
    assert Filled(nodes, m + 1).keys == e.keys + [SafeId(nodes[m].id, nodes[m].block.kind, e)];
    assert FromGraph(nodes).keys[m] == SafeId(nodes[m].id, nodes[m].block.kind, e);
    assert d.keys[m][0] == NodePrefix()[0];
  }

  ghost predicate NoNodeNames(d: Indicators, n: nat)
    requires n <= |d.keys|
  {
    forall i :: 3 <= i < n ==> !StartsWith(d.keys[i], NodePrefix())
  }

  lemma {:induction false} FirstNodeName(d: Indicators, n: nat) returns (m: nat)
    requires n <= |d.keys| && !NoNodeNames(d, n)
    ensures 3 <= m < n && StartsWith(d.keys[m], NodePrefix())
    ensures NoNodeNames(d, m)
  {
    hide NodePrefix;
    if NoNodeNames(d, n - 1) {
      m := n - 1;
    } else {
      m := FirstNodeName(d, n - 1);
    }
  }

  /** A well-made record survives the round trip iff no name in it looks like a generated node id. */
  lemma RecordRoundTrip(d: Indicators)
    requires WellMade(d)
    ensures FromGraph(GraphOf(d)) == d <==> NoNodeNames(d, |d.keys|)
  {
    hide WellMade, GraphOf, NodePrefix, Filled, IsPrefix;
    WellMadeFacts(d);
    if NoNodeNames(d, |d.keys|) {
      RepeatsPrefix(d, |d.keys|);
      WholePrefix(FromGraph(GraphOf(d)), d);
    } else {
      var m := FirstNodeName(d, |d.keys|);
      FirstNodeNameIsLost(d, m);
    }
  }

  // ----- the round trip, on graphs -----

  function NodeWord(): string {
    "node"
  }

  /** "node" followed by a character that sanitising turns into an underscore. */
  predicate BecomesNodeName(id: string) {
    |id| > 4 && id[..4] == NodeWord() && !IsWordChar(id[4])
  }

  lemma WordChars()
    ensures |NodeWord()| == 4 && NodePrefix()[..4] == NodeWord()
    ensures NodeWord()[0] == 'n' && NodeWord()[1] == 'o' && NodeWord()[2] == 'd' && NodeWord()[3] == 'e'
    ensures NodeWord() !in Inherited()
    ensures IsClean(NodeWord())
  {
    assert NodePrefix()[..4] == NodeWord();
    assert forall s :: s in Inherited() ==> |s| > 4;
  }

  lemma PrefixByChars(s: string)
    ensures StartsWith(s, NodePrefix()) <==> |s| >= 5 && s[0] == 'n' && s[1] == 'o' && s[2] == 'd' && s[3] == 'e' && s[4] == '_'
  {
    hide NodePrefix;
    NodeChars();
    if |s| >= 5 && s[0] == 'n' && s[1] == 'o' && s[2] == 'd' && s[3] == 'e' && s[4] == '_' {
      assert s[..5] == NodePrefix();
    }
    if StartsWith(s, NodePrefix()) {
      assert forall i :: 0 <= i < 5 ==> s[i] == s[..5][i];
    }
  }

  lemma WordByChars(s: string)
    requires |s| >= 4
    ensures s[..4] == NodeWord() <==> s[0] == 'n' && s[1] == 'o' && s[2] == 'd' && s[3] == 'e'
  {
    hide NodeWord, Inherited, NodePrefix;
    WordChars();
    if s[..4] == NodeWord() {
      assert forall i :: 0 <= i < 4 ==> s[i] == s[..4][i];
    }
  }

  lemma NormalizedNode(id: string)
    requires HasOwnName(id)
    ensures StartsWith(Normalized(id), NodePrefix()) <==> BecomesNodeName(id)
    ensures Normalized(id) == NodeWord() <==> id == NodeWord()
  {
    hide NodePrefix, NodeWord, Inherited, IndicatorPrefix;
    WordChars();
    var t := Normalized(id);
    PrefixByChars(t);
    PrefixByChars(id);
    if |id| >= 4 {
      WordByChars(id);
    }
    assert IsDigit(id[0]) ==> t[0] == 'i';
    assert !IsDigit(id[0]) ==> |t| == |id| && forall i :: 0 <= i < |id| ==> t[i] == if IsWordChar(id[i]) then id[i] else '_';
    if t == NodeWord() {
      assert forall i :: 0 <= i < 4 ==> id[i] == t[i];
    }
    if id == NodeWord() {
      assert t == id;
    }
  }

  /** When the name chosen for an extra node looks like a generated node id. */
  lemma ChosenNodeName(id: string, kind: IndicatorType, d: Indicators)
    ensures StartsWith(SafeId(id, kind, d), NodePrefix()) <==> BecomesNodeName(id) || (id == NodeWord() && NodeWord() in d.entries)
    ensures SafeId(id, kind, d) == NodeWord() <==> id == NodeWord() && NodeWord() !in d.entries
  {
    hide NodePrefix, NodeWord, Inherited, Candidate, Normalized, FallbackName;
    WordChars();
    var key := SafeId(id, kind, d);
    PrefixByChars(key);
    if HasOwnName(id) {
      NormalizedNode(id);
      NormalizedIsClean(id);
      var name := Normalized(id);
      PrefixByChars(name);
      var k := FirstFree(name, 1, Taken(d));
      CandidateFacts(name, k);
      CandidateFacts(name, 1);
      assert k > 1 ==> name in Taken(d);
      assert k > 1 ==> forall i :: 0 <= i < |name| ==> key[i] == key[..|name|][i];
      if |name| >= 4 {
        WordByChars(name);
      }
      assert |name| == 4 ==> name[..4] == name;
    } else {
      SafeIdFacts(id, kind, d);
      OwnNames(id);
    }
  }

  lemma OwnNames(id: string)
    ensures !HasOwnName(id) ==> !BecomesNodeName(id) && id != NodeWord()
  {
    hide NodePrefix, NodeWord, Inherited;
    WordChars();
    PrefixByChars(id);
  }

  ghost predicate ExtraIs(nodes: seq<Node>, i: nat, id: string) {
    i < |nodes| && IsExtra(nodes, i) && nodes[i].id == id
  }

  /** What a caller can read off the graph: no extra node has an id that sanitises to a generated node id,
      and at most one extra node is called "node". */
  ghost predicate KeepsNames(nodes: seq<Node>, n: nat)
    requires n <= |nodes|
  {
    && (forall i :: 0 <= i < n && IsExtra(nodes, i) ==> !BecomesNodeName(nodes[i].id))
    && (forall i, j :: 0 <= i < j < n && ExtraIs(nodes, i, NodeWord()) ==> !ExtraIs(nodes, j, NodeWord()))
  }

  ghost predicate SomeNodeWord(nodes: seq<Node>, n: nat) {
    exists i :: 0 <= i < n && ExtraIs(nodes, i, NodeWord())
  }

  lemma {:induction false} NodeNamesFromGraph(nodes: seq<Node>, n: nat)
    requires n <= |nodes|
    ensures NoNodeNames(Filled(nodes, n), |Filled(nodes, n).keys|) <==> KeepsNames(nodes, n)
    ensures NodeWord() in Filled(nodes, n).entries <==> SomeNodeWord(nodes, n)
  {
    hide NodePrefix, NodeWord, Inherited, SafeId, IsExtra, ExtraSpec, BecomesNodeName, StartsWith;
    if n == 0 {
      SlotNames(nodes);
    } else {
      NodeNamesFromGraph(nodes, n - 1);
      var d, node := Filled(nodes, n - 1), nodes[n - 1];
      KeepsNamesStep(nodes, n);
      if IsExtra(nodes, n - 1) {
        ExtraIsIndicator(nodes, n - 1);
        FilledFacts(nodes, n - 1);
        WellMadeFacts(d);
        var id := SafeId(node.id, node.block.kind, d);
        ChosenNodeName(node.id, node.block.kind, d);
        NoNodeNamesStep(d, id, ExtraSpec(node));
      }
    }
  }

  lemma ExtraIsIndicator(nodes: seq<Node>, i: nat)
    requires i < |nodes| && IsExtra(nodes, i)
    ensures nodes[i].block.Indicator?
  {
  }

  lemma SlotNames(nodes: seq<Node>)
    ensures NoNodeNames(Filled(nodes, 0), |Filled(nodes, 0).keys|) && NodeWord() !in Filled(nodes, 0).entries
  {
    hide NodePrefix, NodesOf;
    assert FastName()[0] == 'e' && SlowName()[0] == 'e' && RsiName()[0] == 'r' && NodeWord()[0] == 'n';
  }

  lemma NoNodeNamesStep(d: Indicators, id: string, s: IndicatorSpec)
    requires d.Valid() && |d.keys| >= 3 && id !in d.entries
    ensures NoNodeNames(d.Put(id, s), |d.Put(id, s).keys|) <==> NoNodeNames(d, |d.keys|) && !StartsWith(id, NodePrefix())
  {
    hide NodePrefix, StartsWith;
    var d' := d.Put(id, s);
    assert d'.keys == d.keys + [id];
    assert forall i :: 3 <= i < |d.keys| ==> d'.keys[i] == d.keys[i];
    assert d'.keys[|d.keys|] == id;
  }

  lemma KeepsNamesStep(nodes: seq<Node>, n: nat)
    requires 0 < n <= |nodes|
    ensures KeepsNames(nodes, n) <==>
              && KeepsNames(nodes, n - 1)
              && (IsExtra(nodes, n - 1) ==> !BecomesNodeName(nodes[n - 1].id))
              && !(ExtraIs(nodes, n - 1, NodeWord()) && SomeNodeWord(nodes, n - 1))
    ensures SomeNodeWord(nodes, n) <==> SomeNodeWord(nodes, n - 1) || ExtraIs(nodes, n - 1, NodeWord())
  {
    hide NodeWord, IsExtra, BecomesNodeName;
  }

  /** Converting a graph to a spec, back to a graph and again to a spec gives the same spec, iff the graph keeps its names. */
  lemma RoundTripIff(nodes: seq<Node>)
    ensures FromGraph(nodes).Valid()
    ensures FromGraph(GraphOf(FromGraph(nodes))) == FromGraph(nodes) <==> KeepsNames(nodes, |nodes|)
  {
    hide Filled, WellMade, GraphOf, KeepsNames, NoNodeNames, HoldsExtras;
    FilledFacts(nodes, |nodes|);
    var d := FromGraph(nodes);
    WellMadeFacts(d);
    RecordRoundTrip(d);
    NodeNamesFromGraph(nodes, |nodes|);
  }

  /** The names in a record's graph are clean and distinct, so it keeps them. */
  lemma GraphsOfRecordsKeepNames(d: Indicators)
    requires WellMade(d)
    ensures KeepsNames(GraphOf(d), |GraphOf(d)|)
  {
    hide IsExtra, NodeWord, Inherited, FastName, SlowName, RsiName, PositiveInteger;
    WellMadeFacts(d);
    ValidKeys(d);
    var nodes := GraphOf(d);
    assert forall i :: 0 <= i < |nodes| ==> nodes[i].id == d.keys[i];
    forall i | 0 <= i < |nodes| && IsExtra(nodes, i) ensures !BecomesNodeName(nodes[i].id) {
      GraphExtras(d, i);
      assert IsClean(d.keys[i]);
    }
  }

  /** One round trip settles the names: a second one changes nothing, for any graph. */
  lemma RoundTripSettles(nodes: seq<Node>)
    ensures FromGraph(nodes).Valid() && FromGraph(GraphOf(FromGraph(nodes))).Valid()
    ensures var settled := FromGraph(GraphOf(FromGraph(nodes)));
            FromGraph(GraphOf(settled)) == settled
  {
    hide Filled, WellMade, GraphOf, KeepsNames, HoldsExtras;
    FilledFacts(nodes, |nodes|);
    var d := FromGraph(nodes);
    WellMadeFacts(d);
    GraphsOfRecordsKeepNames(d);
    RoundTripIff(GraphOf(d));
  }

  /** A node called "node-1" comes back under another name. */
  lemma DashedNodeIsRenamed()
    ensures FromGraph([Node("node-1", Indicator(SMA), None)]).Valid()
    ensures var d := FromGraph([Node("node-1", Indicator(SMA), None)]);
            FromGraph(GraphOf(d)) != d
  {
    hide Filled, GraphOf;
    var id := "node-1";
    var nodes := [Node(id, Indicator(SMA), None)];
    assert nodes[..0] == [];
    assert NodesOf(nodes, EMA) == [] && NodesOf(nodes, RSI) == [];
    assert IsExtra(nodes, 0);
    assert id[..4] == NodeWord() && id[4] == '-';
    assert BecomesNodeName(nodes[0].id);
    RoundTripIff(nodes);
  }
}
