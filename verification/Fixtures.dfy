/** The deterministic replay-fixture generator, over any digest and with real arithmetic. */
module Fixtures {

  // ----- rounding -----

  /** Rounds to the nearest integer, halves to the even neighbour. */
  function RoundHalfEven(x: real): (r: int)
    ensures x.Floor <= r <= x.Floor + 1
  {
    var f := x.Floor;
    var rest := x - f as real;
    if rest < 0.5 then f
    else if rest > 0.5 then f + 1
    else if f % 2 == 0 then f else f + 1
  }

  lemma RoundMonotone(x: real, y: real)
    requires x <= y
    ensures RoundHalfEven(x) <= RoundHalfEven(y)
  {
    assert x.Floor <= y.Floor;
  }

  lemma RoundInteger(k: int)
    ensures RoundHalfEven(k as real) == k
  {
    assert (k as real).Floor == k;
  }

  function Hundredths(k: int): real {
    k as real / 100.0
  }

  /** `round(x, 2)` */
  function Round2(x: real): real {
    Hundredths(RoundHalfEven(x * 100.0))
  }

  lemma Round2Monotone(x: real, y: real)
    requires x <= y
    ensures Round2(x) <= Round2(y)
  {
    RoundMonotone(x * 100.0, y * 100.0);
  }

  lemma Round2Idempotent(x: real)
    ensures Round2(Round2(x)) == Round2(x)
  {
    var k := RoundHalfEven(x * 100.0);
    assert Hundredths(k) * 100.0 == k as real;
    RoundInteger(k);
  }

  /** A rounded price that is moved up and rounded again does not come out below itself; nor above, moved down. */
  lemma RoundedStays(x: real, move: real)
    requires Round2(x) == x && move >= 0.0
    ensures Round2(x - move) <= x <= Round2(x + move)
  {
    Round2Monotone(x - move, x);
    Round2Monotone(x, x + move);
  }

  // ----- the generator -----

  type Word = x: int | 0 <= x < 0x1_0000_0000

  /** The first 32 bits of the hash of a seed. */
  type Digest = int -> Word

  datatype FixtureSpec = FixtureSpec(numRows: nat, seed: int, basePrice: real, tickSize: real)

  predicate ValidSpec(s: FixtureSpec) {
    1 <= s.numRows <= 10_000 && s.basePrice > 0.0 && s.tickSize > 0.0
  }

  function Prng(digest: Digest, seed: int): (r: real)
    ensures 0.0 <= r < 1.0
  {
    digest(seed) as real / 0x1_0000_0000 as real
  }

  /** A random part of n ticks. */
  function Ticks(r: real, tick: real, n: real): real {
    r * tick * n
  }

  lemma TicksRange(r: real, tick: real, n: real)
    requires 0.0 <= r < 1.0 && tick > 0.0 && n > 0.0
    ensures 0.0 <= Ticks(r, tick, n) < tick * n
  {
    var u := tick * n;
    assert u > 0.0;
    assert Ticks(r, tick, n) == r * u;
    assert r * u >= 0.0;
    assert (1.0 - r) * u > 0.0;
    assert (1.0 - r) * u == u - r * u;
  }

  function Timestamps(n: nat): seq<int> {
    seq(n, i => 1_000_000_000_000 + (i + 1) * 1_000_000_000)
  }

  ghost predicate StrictlyIncreasing(v: seq<int>) {
    forall i, j :: 0 <= i < j < |v| ==> v[i] < v[j]
  }

  /** The timestamp validator compares neighbours only, and accepts exactly the non-empty lists in which every later
      timestamp is greater. */
  method ValidateTimestamps(v: seq<int>) returns (accepted: bool)
    ensures accepted <==> v != [] && StrictlyIncreasing(v)
  {
    if |v| < 1 {
      return false;
    }
    for i := 1 to |v|
      invariant forall j, k :: 0 <= j < k < i ==> v[j] < v[k]
    {
      if v[i] <= v[i - 1] {
        return false;
      }
      assert forall j :: 0 <= j < i - 1 ==> v[j] < v[i - 1];
    }
    return true;
  }

  /** Generated timestamps strictly increase, and there are some for every positive row count. */
  lemma TimestampsIncrease(n: nat)
    ensures StrictlyIncreasing(Timestamps(n))
    ensures |Timestamps(n)| == n && (n > 0 ==> Timestamps(n)[0] == 1_001_000_000_000)
    ensures forall i :: 0 <= i < n - 1 ==> Timestamps(n)[i + 1] - Timestamps(n)[i] == 1_000_000_000
    ensures Timestamps(n) != [] <==> n > 0
  {
  }

  /** The validator accepts the generated timestamps of every positive row count, and of no other. */
  method ValidateGenerated(n: nat) returns (accepted: bool)
    ensures accepted <==> n > 0
  {
    TimestampsIncrease(n);
    accepted := ValidateTimestamps(Timestamps(n));
  }

  // ----- bars -----

  datatype BarFixture = BarFixture(timestamps: seq<int>, open: seq<real>, high: seq<real>, low: seq<real>, close: seq<real>)

  function Open(digest: Digest, s: FixtureSpec, i: nat): real {
    Round2(s.basePrice + Ticks(Prng(digest, s.seed + i * 5) - 0.5, s.tickSize, 100.0))
  }

  function Close(digest: Digest, s: FixtureSpec, i: nat): real {
    Round2(s.basePrice + Ticks(Prng(digest, s.seed + i * 5 + 1) - 0.5, s.tickSize, 100.0))
  }

  function High(digest: Digest, s: FixtureSpec, i: nat): real {
    var o, c := Open(digest, s, i), Close(digest, s, i);
    Round2((if o < c then c else o) + Ticks(Prng(digest, s.seed + i * 5 + 2), s.tickSize, 50.0))
  }

  function Low(digest: Digest, s: FixtureSpec, i: nat): real {
    var o, c := Open(digest, s, i), Close(digest, s, i);
    Round2((if c < o then c else o) - Ticks(Prng(digest, s.seed + i * 5 + 3), s.tickSize, 50.0))
  }

  function GenerateBars(digest: Digest, s: FixtureSpec): BarFixture
    requires ValidSpec(s)
  {
    BarFixture(Timestamps(s.numRows),
               seq(s.numRows, i requires 0 <= i => Open(digest, s, i)), seq(s.numRows, i requires 0 <= i => High(digest, s, i)),
               seq(s.numRows, i requires 0 <= i => Low(digest, s, i)), seq(s.numRows, i requires 0 <= i => Close(digest, s, i)))
  }

  lemma BarRowOrdered(digest: Digest, s: FixtureSpec, i: nat)
    requires ValidSpec(s)
    ensures Low(digest, s, i) <= Open(digest, s, i) <= High(digest, s, i)
    ensures Low(digest, s, i) <= Close(digest, s, i) <= High(digest, s, i)
  {
    hide Round2;
    hide Ticks;
    hide Prng;
    var o, c := Open(digest, s, i), Close(digest, s, i);
    Round2Idempotent(s.basePrice + Ticks(Prng(digest, s.seed + i * 5) - 0.5, s.tickSize, 100.0));
    Round2Idempotent(s.basePrice + Ticks(Prng(digest, s.seed + i * 5 + 1) - 0.5, s.tickSize, 100.0));
    var up, down := Ticks(Prng(digest, s.seed + i * 5 + 2), s.tickSize, 50.0), Ticks(Prng(digest, s.seed + i * 5 + 3), s.tickSize, 50.0);
    TicksRange(Prng(digest, s.seed + i * 5 + 2), s.tickSize, 50.0);
    TicksRange(Prng(digest, s.seed + i * 5 + 3), s.tickSize, 50.0);
    RoundedStays(if o < c then c else o, up);
    RoundedStays(if c < o then c else o, down);
  }

  datatype Breach = LowAboveOpen | LowAboveClose | OpenAboveHigh | CloseAboveHigh

  datatype Violation = Violation(row: nat, breach: Breach)

  predicate HasColumns(f: BarFixture) {
    |f.timestamps| == |f.open| == |f.high| == |f.low| == |f.close|
  }

  predicate IsViolation(f: BarFixture, v: Violation)
    requires HasColumns(f)
  {
    v.row < |f.timestamps| &&
    match v.breach
    case LowAboveOpen => f.low[v.row] > f.open[v.row]
    case LowAboveClose => f.low[v.row] > f.close[v.row]
    case OpenAboveHigh => f.open[v.row] > f.high[v.row]
    case CloseAboveHigh => f.close[v.row] > f.high[v.row]
  }

  /** Reports exactly the rows and breaches that are there. */
  method ValidateOhlcConsistency(f: BarFixture) returns (violations: seq<Violation>)
    requires HasColumns(f)
    ensures forall v :: v in violations <==> IsViolation(f, v)
  {
    violations := [];
    for i := 0 to |f.timestamps|
      invariant forall v :: v in violations <==> v.row < i && IsViolation(f, v)
    {
      var found: seq<Violation> := [];
      if f.low[i] > f.open[i] { found := found + [Violation(i, LowAboveOpen)]; }
      if f.low[i] > f.close[i] { found := found + [Violation(i, LowAboveClose)]; }
      if f.open[i] > f.high[i] { found := found + [Violation(i, OpenAboveHigh)]; }
      if f.close[i] > f.high[i] { found := found + [Violation(i, CloseAboveHigh)]; }
      assert forall v :: v in found <==> v.row == i && IsViolation(f, v);
      violations := violations + found;
    }
  }

  /** For every digest, seed, row count, price and tick the generated bars have no violation. */
  lemma GeneratedBarsAreConsistent(digest: Digest, s: FixtureSpec)
    requires ValidSpec(s)
    ensures HasColumns(GenerateBars(digest, s)) && |GenerateBars(digest, s).open| == s.numRows
    ensures forall i :: 0 <= i < s.numRows ==>
              GenerateBars(digest, s).open[i] == Open(digest, s, i) && GenerateBars(digest, s).close[i] == Close(digest, s, i)
    ensures forall v :: !IsViolation(GenerateBars(digest, s), v)
  {
    hide Open;
    hide High;
    hide Low;
    hide Close;
    var f := GenerateBars(digest, s);
    forall i | 0 <= i < s.numRows
      ensures f.low[i] <= f.open[i] <= f.high[i] && f.low[i] <= f.close[i] <= f.high[i]
    {
      BarRowOrdered(digest, s, i);
    }
  }

  // ----- quotes -----

  function Bid(digest: Digest, s: FixtureSpec, i: nat): real {
    Round2(s.basePrice - Ticks(Prng(digest, s.seed + i * 4), s.tickSize, 50.0))
  }

  function Ask(digest: Digest, s: FixtureSpec, i: nat): real {
    Round2(s.basePrice + Ticks(Prng(digest, s.seed + i * 4 + 1), s.tickSize, 50.0))
  }

  /** No generated quote is crossed. */
  lemma QuotesAreNotCrossed(digest: Digest, s: FixtureSpec, i: nat)
    requires ValidSpec(s)
    ensures Bid(digest, s, i) <= Ask(digest, s, i)
  {
    hide Round2;
    hide Ticks;
    hide Prng;
    TicksRange(Prng(digest, s.seed + i * 4), s.tickSize, 50.0);
    TicksRange(Prng(digest, s.seed + i * 4 + 1), s.tickSize, 50.0);
    Round2Monotone(s.basePrice - Ticks(Prng(digest, s.seed + i * 4), s.tickSize, 50.0),
                   s.basePrice + Ticks(Prng(digest, s.seed + i * 4 + 1), s.tickSize, 50.0));
  }

  // ----- order books -----

  const DEPTH := 5

  function WholeTicks(n: nat, tick: real): real {
    n as real * tick
  }

  lemma OneTickMore(n: nat, tick: real)
    ensures WholeTicks(0, tick) == 0.0 && WholeTicks(n + 1, tick) == WholeTicks(n, tick) + tick
  {
  }

  /** How far level d of row i lies from the base price: d + 1 whole ticks and a random part of one more. */
  function Distance(digest: Digest, s: FixtureSpec, i: nat, d: nat): real {
    WholeTicks(d + 1, s.tickSize) + Ticks(Prng(digest, s.seed + i * 10 + d * 2), s.tickSize, 1.0)
  }

  function BidPrice(digest: Digest, s: FixtureSpec, i: nat, d: nat): real {
    Round2(s.basePrice - Distance(digest, s, i, d))
  }

  function AskPrice(digest: Digest, s: FixtureSpec, i: nat, d: nat): real {
    Round2(s.basePrice + Distance(digest, s, i, d))
  }

  function Size(digest: Digest, s: FixtureSpec, i: nat, d: nat): real {
    Round2(Prng(digest, s.seed + i * 10 + d * 2 + 1) * 50.0)
  }

  /** The flat lists hold price and size of each level in turn, down to the given depth. */
  ghost predicate IsBookRow(digest: Digest, s: FixtureSpec, i: nat, bids: seq<real>, asks: seq<real>, depth: nat) {
    && |bids| == |asks| == 2 * depth
    && forall d: nat :: d < depth ==>
         && bids[2 * d] == BidPrice(digest, s, i, d) && asks[2 * d] == AskPrice(digest, s, i, d)
         && bids[2 * d + 1] == asks[2 * d + 1] == Size(digest, s, i, d)
  }

  method GenerateBookRow(digest: Digest, s: FixtureSpec, i: nat) returns (bids: seq<real>, asks: seq<real>)
    ensures IsBookRow(digest, s, i, bids, asks, DEPTH)
  {
    hide BidPrice;
    hide AskPrice;
    hide Size;
    bids, asks := [], [];
    for d := 0 to DEPTH
      invariant IsBookRow(digest, s, i, bids, asks, d)
    {
      bids := bids + [BidPrice(digest, s, i, d), Size(digest, s, i, d)];
      asks := asks + [AskPrice(digest, s, i, d), Size(digest, s, i, d)];
    }
  }

  /** Prices of a row, by level: bids do not rise and asks do not fall with depth, and the book is not crossed. */
  ghost predicate RowOrdered(bids: seq<real>, asks: seq<real>) {
    && |bids| == |asks| == 2 * DEPTH
    && (forall d, e :: 0 <= d < e < DEPTH ==> bids[2 * e] <= bids[2 * d] && asks[2 * d] <= asks[2 * e])
    && bids[0] <= asks[0]
  }

  method GenerateOrderBooks(digest: Digest, s: FixtureSpec) returns (bids: seq<seq<real>>, asks: seq<seq<real>>)
    requires ValidSpec(s)
    ensures |bids| == |asks| == s.numRows
    ensures forall i :: 0 <= i < s.numRows ==> IsBookRow(digest, s, i, bids[i], asks[i], DEPTH)
    ensures forall i :: 0 <= i < s.numRows ==> RowOrdered(bids[i], asks[i])
  {
    hide IsBookRow;
    hide RowOrdered;
    bids, asks := [], [];
    for i := 0 to s.numRows
      invariant |bids| == |asks| == i
      invariant forall j :: 0 <= j < i ==> IsBookRow(digest, s, j, bids[j], asks[j], DEPTH)
      invariant forall j :: 0 <= j < i ==> RowOrdered(bids[j], asks[j])
    {
      var rowBids, rowAsks := GenerateBookRow(digest, s, i);
      BookRowIsOrdered(digest, s, i, rowBids, rowAsks);
      bids, asks := bids + [rowBids], asks + [rowAsks];
    }
  }

  lemma BookRowIsOrdered(digest: Digest, s: FixtureSpec, i: nat, bids: seq<real>, asks: seq<real>)
    requires ValidSpec(s) && IsBookRow(digest, s, i, bids, asks, DEPTH)
    ensures RowOrdered(bids, asks)
  {
    hide BidPrice;
    hide AskPrice;
    hide Size;
    forall d, e | 0 <= d < e < DEPTH ensures bids[2 * e] <= bids[2 * d] && asks[2 * d] <= asks[2 * e] {
      BookIsOrdered(digest, s, i, d, e);
    }
    BookIsOrdered(digest, s, i, 0, 0);
    assert bids[2 * 0] == BidPrice(digest, s, i, 0) && asks[2 * 0] == AskPrice(digest, s, i, 0);
  }

  lemma DistanceBounds(digest: Digest, s: FixtureSpec, i: nat, d: nat)
    requires ValidSpec(s)
    ensures 0.0 < (d + 1) as real * s.tickSize <= Distance(digest, s, i, d) < (d + 2) as real * s.tickSize
  {
    var r := Prng(digest, s.seed + i * 10 + d * 2);
    hide Prng;
    TicksRange(r, s.tickSize, 1.0);
    hide Ticks;
    var t := s.tickSize;
    assert (d + 2) as real == (d + 1) as real + 1.0;
    OneMore((d + 1) as real, t);
  }

  lemma OneMore(x: real, t: real)
    requires x > 0.0 && t > 0.0
    ensures x * t > 0.0 && (x + 1.0) * t == x * t + t && t * 1.0 == t
  {
  }

  /** Deeper levels are never closer to the base price, on either side, and no bid is above any ask of its row. */
  lemma BookIsOrdered(digest: Digest, s: FixtureSpec, i: nat, d: nat, e: nat)
    requires ValidSpec(s)
    ensures d < e ==> BidPrice(digest, s, i, e) <= BidPrice(digest, s, i, d)
    ensures d < e ==> AskPrice(digest, s, i, d) <= AskPrice(digest, s, i, e)
    ensures BidPrice(digest, s, i, d) <= AskPrice(digest, s, i, e)
  {
    hide Round2;
    hide Distance;
    var near, far := Distance(digest, s, i, d), Distance(digest, s, i, e);
    DistanceBounds(digest, s, i, d);
    DistanceBounds(digest, s, i, e);
    Round2Monotone(s.basePrice - near, s.basePrice + far);
    if d < e {
      MoreTicks(d + 2, e + 1, s.tickSize);
      Round2Monotone(s.basePrice - far, s.basePrice - near);
      Round2Monotone(s.basePrice + near, s.basePrice + far);
    }
  }

  lemma MoreTicks(m: nat, n: nat, t: real)
    requires m <= n && t > 0.0
    ensures m as real * t <= n as real * t
  {
    assert (n - m) as real * t >= 0.0;
    assert (n - m) as real * t == n as real * t - m as real * t;
  }

  // ----- how the prices depend on the draws -----

  /** Each price reads its own draws only. */
  lemma PricesReadTheirDraws(a: Digest, b: Digest, s: FixtureSpec, i: nat, d: nat)
    ensures a(s.seed + i * 5) == b(s.seed + i * 5) ==> Open(a, s, i) == Open(b, s, i)
    ensures a(s.seed + i * 5 + 1) == b(s.seed + i * 5 + 1) ==> Close(a, s, i) == Close(b, s, i)
    ensures Open(a, s, i) == Open(b, s, i) && Close(a, s, i) == Close(b, s, i) ==>
              && (a(s.seed + i * 5 + 2) == b(s.seed + i * 5 + 2) ==> High(a, s, i) == High(b, s, i))
              && (a(s.seed + i * 5 + 3) == b(s.seed + i * 5 + 3) ==> Low(a, s, i) == Low(b, s, i))
    ensures a(s.seed + i * 4) == b(s.seed + i * 4) ==> Bid(a, s, i) == Bid(b, s, i)
    ensures a(s.seed + i * 4 + 1) == b(s.seed + i * 4 + 1) ==> Ask(a, s, i) == Ask(b, s, i)
    ensures a(s.seed + i * 10 + d * 2) == b(s.seed + i * 10 + d * 2) ==>
              BidPrice(a, s, i, d) == BidPrice(b, s, i, d) && AskPrice(a, s, i, d) == AskPrice(b, s, i, d)
    ensures a(s.seed + i * 10 + d * 2 + 1) == b(s.seed + i * 10 + d * 2 + 1) ==> Size(a, s, i, d) == Size(b, s, i, d)
  {
    hide Round2, Ticks;
  }

  /** Every draw of the digest is r. */
  ghost predicate AlwaysDraws(digest: Digest, r: real) {
    forall k :: Prng(digest, k) == r
  }

  /** There are digests whose every draw is zero, and others whose every draw is one half. */
  lemma ConstantDigests()
    ensures AlwaysDraws((k: int) => 0, 0.0) && AlwaysDraws((k: int) => 0x8000_0000, 0.5)
  {
  }

  lemma ConstantBars(digest: Digest, r: real, s: FixtureSpec, i: nat)
    requires AlwaysDraws(digest, r)
    ensures Open(digest, s, i) == Close(digest, s, i) == Round2(s.basePrice + Ticks(r - 0.5, s.tickSize, 100.0))
    ensures High(digest, s, i) == Round2(Open(digest, s, i) + Ticks(r, s.tickSize, 50.0))
    ensures Low(digest, s, i) == Round2(Open(digest, s, i) - Ticks(r, s.tickSize, 50.0))
  {
    hide Round2, Ticks, Prng, WholeTicks;
  }

  lemma ConstantBook(digest: Digest, r: real, s: FixtureSpec, i: nat, d: nat)
    requires AlwaysDraws(digest, r)
    ensures Bid(digest, s, i) == Round2(s.basePrice - Ticks(r, s.tickSize, 50.0))
    ensures Ask(digest, s, i) == Round2(s.basePrice + Ticks(r, s.tickSize, 50.0))
    ensures BidPrice(digest, s, i, d) == Round2(s.basePrice - (WholeTicks(d + 1, s.tickSize) + Ticks(r, s.tickSize, 1.0)))
    ensures AskPrice(digest, s, i, d) == Round2(s.basePrice + (WholeTicks(d + 1, s.tickSize) + Ticks(r, s.tickSize, 1.0)))
    ensures Size(digest, s, i, d) == Round2(r * 50.0)
  {
    hide Round2, Ticks, Prng, WholeTicks;
  }

  lemma TickValues(t: real)
    ensures Ticks(-0.5, t, 100.0) == -50.0 * t && Ticks(0.0, t, 100.0) == 0.0
    ensures Ticks(0.0, t, 50.0) == 0.0 && Ticks(0.0, t, 1.0) == 0.0
    ensures Ticks(0.5, t, 50.0) == 25.0 * t && Ticks(0.5, t, 1.0) == 0.5 * t
  {
  }

  lemma RoundedSizes()
    ensures Round2(0.0 * 50.0) == 0.0 && Round2(0.5 * 50.0) == 25.0
  {
    RoundInteger(0);
    RoundInteger(2500);
  }

  /** When every draw is zero: the open and the close lie 50 ticks under the base, nothing spreads, and the book has whole ticks. */
  lemma ZeroDraws(zero: Digest, s: FixtureSpec, i: nat, d: nat)
    requires AlwaysDraws(zero, 0.0)
    ensures Open(zero, s, i) == Close(zero, s, i) == Round2(s.basePrice - 50.0 * s.tickSize)
    ensures High(zero, s, i) == Low(zero, s, i) == Open(zero, s, i)
    ensures Bid(zero, s, i) == Ask(zero, s, i) == Round2(s.basePrice)
    ensures BidPrice(zero, s, i, d) == Round2(s.basePrice - WholeTicks(d + 1, s.tickSize))
    ensures AskPrice(zero, s, i, d) == Round2(s.basePrice + WholeTicks(d + 1, s.tickSize))
    ensures Size(zero, s, i, d) == 0.0
  {
    hide AlwaysDraws, Ticks, Round2, Prng, WholeTicks, Open, Close, High, Low, Bid, Ask, BidPrice, AskPrice, Size;
    TickValues(s.tickSize);
    RoundedSizes();
    ConstantBars(zero, 0.0, s, i);
    ConstantBook(zero, 0.0, s, i, d);
    Round2Idempotent(s.basePrice - 50.0 * s.tickSize);
  }

  /** When every draw is one half: the open and the close are the base, highs and lows lie 25 ticks away, quotes too, book levels half a
      tick further, and sizes are 25. */
  lemma HalfDraws(half: Digest, s: FixtureSpec, i: nat, d: nat)
    requires AlwaysDraws(half, 0.5)
    ensures Open(half, s, i) == Close(half, s, i) == Round2(s.basePrice)
    ensures High(half, s, i) == Round2(Round2(s.basePrice) + 25.0 * s.tickSize)
    ensures Low(half, s, i) == Round2(Round2(s.basePrice) - 25.0 * s.tickSize)
    ensures Bid(half, s, i) == Round2(s.basePrice - 25.0 * s.tickSize)
    ensures Ask(half, s, i) == Round2(s.basePrice + 25.0 * s.tickSize)
    ensures BidPrice(half, s, i, d) == Round2(s.basePrice - (WholeTicks(d + 1, s.tickSize) + 0.5 * s.tickSize))
    ensures AskPrice(half, s, i, d) == Round2(s.basePrice + (WholeTicks(d + 1, s.tickSize) + 0.5 * s.tickSize))
    ensures Size(half, s, i, d) == 25.0
  {
    hide AlwaysDraws, Ticks, Round2, Prng, WholeTicks, Open, Close, High, Low, Bid, Ask, BidPrice, AskPrice, Size;
    TickValues(s.tickSize);
    RoundedSizes();
    ConstantBars(half, 0.5, s, i);
    ConstantBook(half, 0.5, s, i, d);
  }

  /** Halfway between two integers the even one is taken. */
  lemma TiesGoToTheEven(k: int)
    ensures RoundHalfEven(k as real + 0.5) % 2 == 0
    ensures RoundHalfEven(k as real + 0.5) == k || RoundHalfEven(k as real + 0.5) == k + 1
  {
    assert (k as real + 0.5).Floor == k;
  }

  /** Rounding to cents moves a price by half a cent at most, and lands on a whole number of cents. */
  lemma Round2IsNearest(x: real)
    ensures x - 0.005 <= Round2(x) <= x + 0.005
    ensures exists k: int :: Round2(x) == Hundredths(k)
  {
    var f := (x * 100.0).Floor;
    var k := RoundHalfEven(x * 100.0);
    assert Round2(x) == Hundredths(k);
    assert k as real <= x * 100.0 + 0.5 && k as real >= x * 100.0 - 0.5;
  }
}
