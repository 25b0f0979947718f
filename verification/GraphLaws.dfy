/** What the graph editor makes of each node: names, types and periods. */
module GraphLaws {
  import opened Options
  import opened Dicts
  import opened Identifiers
  import opened RuleSyntax
  import opened GraphSpec
  import opened GraphRoundTrip

  // ----- periods -----

  /** A period that is a positive whole number is taken; zero, a negative number and no number are replaced. */
  lemma PeriodTaken(k: int, fallback: int)
    requires fallback > 0
    ensures PositiveInteger(Some(k as real), fallback) == if k > 0 then k else fallback
    ensures PositiveInteger(None, fallback) == fallback
  {
    assert (k as real).Floor == k;
  }

  /** A number that is not whole is replaced. */
  lemma BrokenPeriodReplaced(k: int, x: real, fallback: int)
    requires fallback > 0 && k as real < x < k as real + 1.0
    ensures PositiveInteger(Some(x), fallback) == fallback
  {
    var f := x.Floor;
    assert f as real <= x < f as real + 1.0;
    assert f == k;
  }

  /** The defaults of the seven indicator types, and of the three slots of an empty graph. */
  lemma Defaults()
    ensures DefaultPeriod(EMA) == DefaultPeriod(SMA) == DefaultPeriod(BollingerBands) == DefaultPeriod(VWAP) == 20
    ensures DefaultPeriod(RSI) == DefaultPeriod(ATR) == 14 && DefaultPeriod(MACD) == 12
    ensures FromGraph([]).keys == ["ema_fast", "ema_slow", "rsi"]
    ensures FromGraph([]).entries == map["ema_fast" := IndicatorSpec(EMA, 20), "ema_slow" := IndicatorSpec(EMA, 50), "rsi" := IndicatorSpec(RSI, 14)]
  {
    assert NodesOf([], EMA) == [] && NodesOf([], RSI) == [];
  }

  // ----- slots -----

  /** No extra indicator touches a slot. */
  lemma {:induction false} SlotsAreKept(nodes: seq<Node>, n: nat)
    requires n <= |nodes|
    ensures forall id :: id in SlotsOf(nodes).entries ==>
              id in Filled(nodes, n).entries && Filled(nodes, n).entries[id] == SlotsOf(nodes).entries[id]
  {
    hide SafeId, ExtraSpec, SlotsOf, IsExtra;
    if n > 0 {
      SlotsAreKept(nodes, n - 1);
    }
  }

  /** Node i is the node of its type after exactly j others. */
  ghost predicate IsNth(nodes: seq<Node>, kind: IndicatorType, i: nat, j: nat) {
    && i < |nodes| && nodes[i].block == Indicator(kind)
    && j == |NodesOf(nodes[..i], kind)|
  }

  /** The first and the second EMA node give `ema_fast` and `ema_slow` their periods, and the first RSI node gives `rsi` its. */
  lemma SlotsFollowTheirNodes(nodes: seq<Node>, i: nat)
    ensures var d := FromGraph(nodes).entries;
            && "ema_fast" in d && "ema_slow" in d && "rsi" in d
            && (IsNth(nodes, EMA, i, 0) ==> d["ema_fast"] == IndicatorSpec(EMA, PositiveInteger(nodes[i].period, 20)))
            && (IsNth(nodes, EMA, i, 1) ==> d["ema_slow"] == IndicatorSpec(EMA, PositiveInteger(nodes[i].period, 50)))
            && (IsNth(nodes, RSI, i, 0) ==> d["rsi"] == IndicatorSpec(RSI, PositiveInteger(nodes[i].period, 14)))
  {
    hide Filled, PositiveInteger, NodesOf, Slots;
    SlotsAreKept(nodes, |nodes|);
    SlotEntries(nodes);
    if i < |nodes| {
      NextOfKind(nodes, i, EMA);
      NextOfKind(nodes, i, RSI);
    }
  }

  lemma SlotEntries(nodes: seq<Node>)
    ensures var d := SlotsOf(nodes).entries;
            && "ema_fast" in d && "ema_slow" in d && "rsi" in d
            && d["ema_fast"] == SlotSpec(nodes, EMA, 0, 20) && d["ema_slow"] == SlotSpec(nodes, EMA, 1, 50) && d["rsi"] == SlotSpec(nodes, RSI, 0, 14)
  {
    hide SlotSpec;
    SlotNamesDiffer();
    assert FastName() == "ema_fast" && SlowName() == "ema_slow" && RsiName() == "rsi";
    hide FastName, SlowName, RsiName;
  }

  // ----- names -----

  /** The indicator of an extra node has the node's type, and its period or the default of that type. */
  lemma ExtraFollowsItsNode(node: Node)
    requires node.block.Indicator?
    ensures ExtraSpec(node) == IndicatorSpec(node.block.kind, PositiveInteger(node.period, DefaultPeriod(node.block.kind)))
  {
  }

  /** The types in lower case. */
  lemma LowerNames()
    ensures LowerName(EMA) == "ema" && LowerName(SMA) == "sma" && LowerName(RSI) == "rsi" && LowerName(MACD) == "macd"
    ensures LowerName(ATR) == "atr" && LowerName(BollingerBands) == "bollingerbands" && LowerName(VWAP) == "vwap"
  {
  }

  /** A node with an empty id, or one the editor generated, is named by its type and the number of indicators there will be. */
  lemma GeneratedName(id: string, kind: IndicatorType, d: Indicators)
    requires id == "" || (|id| >= 5 && id[0] == 'n' && id[1] == 'o' && id[2] == 'd' && id[3] == 'e' && id[4] == '_')
    requires LowerName(kind) + "_" + Decimal(|d.keys| + 1) !in Taken(d)
    ensures SafeId(id, kind, d) == LowerName(kind) + "_" + Decimal(|d.keys| + 1)
  {
    hide NodePrefix, LowerName, Inherited, Normalized, Decimal;
    PrefixByChars(id);
    PaddedToNothing(|d.keys| + 1);
    FallbackIsClean(kind, d);
    CleanIsNormalized(FallbackName(kind, d));
    CandidateOne(FallbackName(kind, d));
  }

  lemma PaddedToNothing(n: nat)
    ensures Padded(n, 0) == Decimal(n)
  {
    hide Decimal;
  }

  /** The names that every object has, which no indicator ever gets. */
  lemma InheritedNames(name: string)
    ensures name in Inherited() <==>
              || name == "constructor" || name == "toString" || name == "toLocaleString" || name == "valueOf" || name == "hasOwnProperty"
              || name == "isPrototypeOf" || name == "propertyIsEnumerable" || name == "__proto__" || name == "__defineGetter__"
              || name == "__defineSetter__" || name == "__lookupGetter__" || name == "__lookupSetter__"
  {
  }

  /** A node with an id of its own keeps it when the id is clean, free, and no name that every object has. */
  lemma OwnNameKept(id: string, kind: IndicatorType, d: Indicators)
    requires IsClean(id) && !(|id| >= 5 && id[0] == 'n' && id[1] == 'o' && id[2] == 'd' && id[3] == 'e' && id[4] == '_')
    requires id !in d.entries && id !in Inherited()
    ensures SafeId(id, kind, d) == id
  {
    hide NodePrefix, Inherited, SafeId;
    PrefixByChars(id);
    SafeIdKeeps(id, kind, d);
  }

  /** Sanitising works character by character, and prefixes a leading digit. */
  lemma SanitisingByCharacter(s: string)
    ensures s != "" && !IsDigit(s[0]) ==>
              |Normalized(s)| == |s|
              && forall i :: 0 <= i < |s| ==> Normalized(s)[i] == if IsWordChar(s[i]) then s[i] else '_'
    ensures s != "" && IsDigit(s[0]) ==>
              Normalized(s)[..10] == "indicator_" && |Normalized(s)| == |s| + 10
              && forall i :: 0 <= i < |s| ==> Normalized(s)[10 + i] == if IsWordChar(s[i]) then s[i] else '_'
  {
    assert |IndicatorPrefix()| == 10 && IndicatorPrefix() == "indicator_";
    hide IndicatorPrefix;
  }
}
