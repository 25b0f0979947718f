/** The token-bucket limiter of the AI builder: lazy refills, one bucket for each key. */
module TokenBucket {

  datatype Bucket = Bucket(tokens: real, refilledAt: real)

  datatype Config = Config(maxTokens: nat, refillPeriod: real)

  datatype Call = Call(key: string, at: real)

  predicate ValidConfig(c: Config) {
    c.refillPeriod > 0.0
  }

  function Rate(c: Config): (r: real)
    requires ValidConfig(c)
    ensures r >= 0.0
  {
    c.maxTokens as real / c.refillPeriod
  }

  /** What `elapsed` seconds add to a bucket, capped at its capacity. */
  function Refill(capacity: real, rate: real, tokens: real, elapsed: real): real {
    if tokens + elapsed * rate < capacity then tokens + elapsed * rate else capacity
  }

  /** Two refills in a row are one refill over the whole time. */
  lemma RefillsCompose(capacity: real, rate: real, tokens: real, d1: real, d2: real)
    requires rate >= 0.0 && d2 >= 0.0
    ensures Refill(capacity, rate, Refill(capacity, rate, tokens, d1), d2) == Refill(capacity, rate, tokens, d1 + d2)
  {
    assert (d1 + d2) * rate == d1 * rate + d2 * rate;
    ProductNonNegative(d2, rate);
  }

  /** The tokens a call on the key at that time would find; an unknown key has a full bucket. */
  function Level(c: Config, buckets: map<string, Bucket>, key: string, now: real): real
    requires ValidConfig(c)
  {
    if key in buckets
    then Refill(c.maxTokens as real, Rate(c), buckets[key].tokens, now - buckets[key].refilledAt)
    else c.maxTokens as real
  }

  /** One call: what it leaves behind and whether it is allowed. */
  function Decide(c: Config, buckets: map<string, Bucket>, call: Call): (map<string, Bucket>, bool)
    requires ValidConfig(c)
  {
    var current := Level(c, buckets, call.key, call.at);
    if current < 1.0 then (buckets[call.key := Bucket(current, call.at)], false)
    else (buckets[call.key := Bucket(current - 1.0, call.at)], true)
  }

  class TokenBucketRateLimiter {
    const config: Config
    var buckets: map<string, Bucket>

    constructor (maxTokens: nat, refillPeriod: real)
      requires refillPeriod > 0.0
      ensures ValidConfig(config) && config == Config(maxTokens, refillPeriod) && buckets == map[]
    {
      config := Config(maxTokens, refillPeriod);
      buckets := map[];
    }

    method Allow(key: string, now: real) returns (allowed: bool)
      requires ValidConfig(config)
      modifies this
      ensures (buckets, allowed) == Decide(config, old(buckets), Call(key, now))
    {
      hide Rate;
      if key !in buckets {
        buckets := buckets[key := Bucket(config.maxTokens as real, now)];
        FullStaysFull(config, now, now);
      }
      var bucket := buckets[key];
      var elapsed := now - bucket.refilledAt;
      var current := Refill(config.maxTokens as real, Rate(config), bucket.tokens, elapsed);
      assert current == Level(config, old(buckets), key, now);
      if current < 1.0 {
        buckets := buckets[key := Bucket(current, now)];
        assert buckets == old(buckets)[key := Bucket(current, now)];
        return false;
      }
      buckets := buckets[key := Bucket(current - 1.0, now)];
      assert buckets == old(buckets)[key := Bucket(current - 1.0, now)];
      return true;
    }

    /** Looking at the level creates a missing bucket but changes no level, now or later. */
    method TokensRemaining(key: string, now: real) returns (tokens: real)
      requires ValidConfig(config)
      modifies this
      ensures tokens == Level(config, old(buckets), key, now)
      ensures forall k, t :: t >= now ==> Level(config, buckets, k, t) == Level(config, old(buckets), k, t)
    {
      if key !in buckets {
        buckets := buckets[key := Bucket(config.maxTokens as real, now)];
      }
      var bucket := buckets[key];
      tokens := Refill(config.maxTokens as real, Rate(config), bucket.tokens, now - bucket.refilledAt);
      forall k, t | t >= now ensures Level(config, buckets, k, t) == Level(config, old(buckets), k, t) {
        if k == key && key !in old(buckets) {
          FullStaysFull(config, now, t);
        }
      }
    }
  }

  lemma FullStaysFull(c: Config, created: real, now: real)
    requires ValidConfig(c) && now >= created
    ensures Refill(c.maxTokens as real, Rate(c), c.maxTokens as real, now - created) == c.maxTokens as real
  {
    ProductNonNegative(now - created, Rate(c));
  }

  // ----- runs -----

  /** Calls come in the order of a monotonic clock. */
  ghost predicate Ordered(calls: seq<Call>) {
    forall i, j :: 0 <= i < j < |calls| ==> calls[i].at <= calls[j].at
  }

  function Buckets(c: Config, calls: seq<Call>): map<string, Bucket>
    requires ValidConfig(c)
  {
    if calls == [] then map[] else Decide(c, Buckets(c, calls[..|calls| - 1]), calls[|calls| - 1]).0
  }

  function Decisions(c: Config, calls: seq<Call>): (d: seq<bool>)
    requires ValidConfig(c)
    ensures |d| == |calls|
  {
    if calls == [] then []
    else
      var front := calls[..|calls| - 1];
      Decisions(c, front) + [Decide(c, Buckets(c, front), calls[|calls| - 1]).1]
  }

  ghost predicate InRange(c: Config, buckets: map<string, Bucket>) {
    forall k :: k in buckets ==> 0.0 <= buckets[k].tokens <= c.maxTokens as real
  }

  ghost predicate NotLaterThan(buckets: map<string, Bucket>, now: real) {
    forall k :: k in buckets ==> buckets[k].refilledAt <= now
  }

  lemma LevelInRange(c: Config, buckets: map<string, Bucket>, key: string, now: real)
    requires ValidConfig(c) && InRange(c, buckets) && NotLaterThan(buckets, now)
    ensures 0.0 <= Level(c, buckets, key, now) <= c.maxTokens as real
  {
    if key in buckets {
      ProductNonNegative(now - buckets[key].refilledAt, Rate(c));
    }
  }

  /** In every run the tokens of every bucket stay between zero and the capacity. */
  lemma {:induction false} TokensStayInRange(c: Config, calls: seq<Call>)
    requires ValidConfig(c) && Ordered(calls)
    ensures InRange(c, Buckets(c, calls))
    ensures calls != [] ==> NotLaterThan(Buckets(c, calls), calls[|calls| - 1].at)
  {
    hide Rate;
    hide Refill;
    if calls != [] {
      var front, last := calls[..|calls| - 1], calls[|calls| - 1];
      TokensStayInRange(c, front);
      assert NotLaterThan(Buckets(c, front), last.at);
      LevelInRange(c, Buckets(c, front), last.key, last.at);
    }
  }

  // ----- the rate bound -----

  predicate CountsFor(call: Call, key: string, from: real, to: real) {
    call.key == key && from <= call.at <= to
  }

  /** The allowed calls on the key between two moments. */
  function AllowedCount(c: Config, calls: seq<Call>, key: string, from: real, to: real): nat
    requires ValidConfig(c)
  {
    if calls == [] then 0
    else
      var front, last := calls[..|calls| - 1], calls[|calls| - 1];
      AllowedCount(c, front, key, from, to)
      + if CountsFor(last, key, from, to) && Decide(c, Buckets(c, front), last).1 then 1 else 0
  }

  /** The tokens that refill between two moments. */
  function Earned(c: Config, from: real, to: real): real
    requires ValidConfig(c)
  {
    (to - from) * Rate(c)
  }

  lemma EarningsAdd(c: Config, from: real, middle: real, to: real)
    requires ValidConfig(c) && from <= middle <= to
    ensures 0.0 <= Earned(c, from, middle)
    ensures Earned(c, from, to) == Earned(c, from, middle) + Earned(c, middle, to)
  {
    var rate := Rate(c);
    hide Rate;
    ProductNonNegative(middle - from, rate);
  }

  lemma ProductNonNegative(x: real, y: real)
    requires x >= 0.0 && y >= 0.0
    ensures x * y >= 0.0
  {
  }

  /** A later look at a key finds at most what the last call left, plus the refill since. */
  lemma LevelGrowth(c: Config, buckets: map<string, Bucket>, call: Call, now: real)
    requires ValidConfig(c) && now >= call.at
    ensures var after := Decide(c, buckets, call);
            Level(c, after.0, call.key, now) <=
            Level(c, buckets, call.key, call.at) - (if after.1 then 1.0 else 0.0) + Earned(c, call.at, now)
  {
    hide Rate;
    LevelAfter(c, buckets, call, call.key, now);
  }

  /** Spent and remaining tokens together never exceed the capacity and what was refilled since `from`. */
  lemma {:induction false} SpentPlusRemaining(c: Config, calls: seq<Call>, key: string, from: real, to: real, now: real)
    requires ValidConfig(c) && Ordered(calls)
    requires now >= from && (calls != [] ==> now >= calls[|calls| - 1].at)
    ensures AllowedCount(c, calls, key, from, to) as real + Level(c, Buckets(c, calls), key, now)
            <= c.maxTokens as real + Earned(c, from, now)
  {
    hide Earned;
    hide Rate;
    hide Refill;
    EarningsAdd(c, from, now, now);
    if calls != [] {
      var front, last := calls[..|calls| - 1], calls[|calls| - 1];
      if last.key != key {
        LevelAfter(c, Buckets(c, front), last, key, now);
        hide Decide;
        hide Level;
        SpentPlusRemaining(c, front, key, from, to, now);
      } else if last.at < from {
        NothingBefore(c, calls, key, from, to);
        TokensStayInRange(c, calls);
        LevelInRange(c, Buckets(c, calls), key, now);
      } else {
        LevelGrowth(c, Buckets(c, front), last, now);
        hide Decide;
        hide Level;
        SpentPlusRemaining(c, front, key, from, to, last.at);
        EarningsAdd(c, from, last.at, now);
      }
    }
  }

  lemma {:induction false} NothingBefore(c: Config, calls: seq<Call>, key: string, from: real, to: real)
    requires ValidConfig(c) && Ordered(calls) && (calls != [] ==> calls[|calls| - 1].at < from)
    ensures AllowedCount(c, calls, key, from, to) == 0
  {
    hide Decide;
    if calls != [] {
      NothingBefore(c, calls[..|calls| - 1], key, from, to);
    }
  }

  /** In every run, the calls allowed for a key in [from, to] number at most the capacity plus the refill of that
      time. */
  lemma RateBound(c: Config, calls: seq<Call>, key: string, from: real, to: real)
    requires ValidConfig(c) && Ordered(calls) && from <= to
    ensures AllowedCount(c, calls, key, from, to) as real <= c.maxTokens as real + (to - from) * (c.maxTokens as real / c.refillPeriod)
  {
    hide AllowedCount, Ordered;
    EarnedBound(c, calls, key, from, to);
  }

  lemma {:induction false} EarnedBound(c: Config, calls: seq<Call>, key: string, from: real, to: real)
    requires ValidConfig(c) && Ordered(calls) && from <= to
    ensures AllowedCount(c, calls, key, from, to) as real <= c.maxTokens as real + Earned(c, from, to)
  {
    hide Earned;
    hide Decide;
    hide Level;
    hide Rate;
    if calls != [] && calls[|calls| - 1].at > to {
      EarnedBound(c, calls[..|calls| - 1], key, from, to);
    } else {
      SpentPlusRemaining(c, calls, key, from, to, to);
      TokensStayInRange(c, calls);
      LevelInRange(c, Buckets(c, calls), key, to);
    }
  }

  // ----- denied calls have a reason -----

  function Least(x: real, y: real): real {
    if x <= y then x else y
  }

  /** What a bucket holds after a time in which nothing was taken. */
  lemma RefilledAtLeast(c: Config, tokens: real, at: real, now: real)
    requires ValidConfig(c) && at <= now
    ensures Refill(c.maxTokens as real, Rate(c), tokens, now - at) == Least(c.maxTokens as real, tokens + Earned(c, at, now))
  {
    hide Rate;
  }

  /** Spent and remaining tokens together come to a full bucket, or to what was refilled since `from`. */
  lemma {:induction false} SpentOrLeft(c: Config, calls: seq<Call>, key: string, from: real, now: real)
    requires ValidConfig(c) && Ordered(calls)
    requires now >= from && (calls != [] ==> now >= calls[|calls| - 1].at)
    ensures AllowedCount(c, calls, key, from, now) as real + Level(c, Buckets(c, calls), key, now)
            >= Least(c.maxTokens as real, Earned(c, from, now))
  {
    hide Earned, Rate, Refill;
    if calls != [] {
      var front, last := calls[..|calls| - 1], calls[|calls| - 1];
      LevelAfter(c, Buckets(c, front), last, key, now);
      if last.key != key {
        hide Decide, Level;
        SpentOrLeft(c, front, key, from, now);
      } else {
        var before := Level(c, Buckets(c, front), key, last.at);
        var left := before - if Decide(c, Buckets(c, front), last).1 then 1.0 else 0.0;
        TokensStayInRange(c, front);
        LevelInRange(c, Buckets(c, front), key, last.at);
        assert left >= 0.0;
        RefilledAtLeast(c, left, last.at, now);
        hide Decide, Level;
        if last.at < from {
          EarningsAdd(c, last.at, from, now);
        } else {
          SpentOrLeft(c, front, key, from, last.at);
          EarningsAdd(c, from, last.at, now);
          EarningsAdd(c, last.at, now, now);
          SameCount(c, front, key, from, last.at, now);
        }
      }
    }
  }

  /** No call comes after the last one. */
  lemma {:induction false} SameCount(c: Config, calls: seq<Call>, key: string, from: real, to: real, later: real)
    requires ValidConfig(c) && to <= later && forall i :: 0 <= i < |calls| ==> calls[i].at <= to
    ensures AllowedCount(c, calls, key, from, to) == AllowedCount(c, calls, key, from, later)
  {
    hide Decide;
    if calls != [] {
      SameCount(c, calls[..|calls| - 1], key, from, to, later);
    }
  }

  /** In every run a call is denied only when as many calls of its key as a full bucket holds were allowed within the last
      refill period. */
  lemma DeniedNeedsSpending(c: Config, calls: seq<Call>, call: Call)
    requires ValidConfig(c) && Ordered(calls + [call])
    requires !Decide(c, Buckets(c, calls), call).1
    ensures AllowedCount(c, calls, call.key, call.at - c.refillPeriod, call.at) >= c.maxTokens
  {
    hide Buckets, Level, AllowedCount;
    var all := calls + [call];
    assert forall i :: 0 <= i < |calls| ==> all[i] == calls[i];
    assert all[|calls|] == call;
    SpentOrLeft(c, calls, call.key, call.at - c.refillPeriod, call.at);
    PeriodFillsBucket(c, call.at);
  }

  lemma PeriodFillsBucket(c: Config, now: real)
    requires ValidConfig(c)
    ensures Earned(c, now - c.refillPeriod, now) == c.maxTokens as real
  {
    assert c.refillPeriod * (c.maxTokens as real / c.refillPeriod) == c.maxTokens as real;
  }

  // ----- denied calls leave no trace -----

  /** The elements whose mark is set. */
  function Kept<T>(s: seq<T>, keep: seq<bool>): seq<T>
    requires |keep| == |s|
  {
    if s == [] then []
    else
      var n := |s| - 1;
      if keep[n] then Kept(s[..n], keep[..n]) + [s[n]] else Kept(s[..n], keep[..n])
  }

  /** Every call left out was denied. */
  ghost predicate LeavesOutOnlyDenied(c: Config, calls: seq<Call>, keep: seq<bool>)
    requires ValidConfig(c)
  {
    |keep| == |calls| && forall i :: 0 <= i < |calls| && !keep[i] ==> !Decisions(c, calls)[i]
  }

  ghost predicate SameLevels(c: Config, a: map<string, Bucket>, b: map<string, Bucket>, now: real)
    requires ValidConfig(c)
  {
    forall k, t :: t >= now ==> Level(c, a, k, t) == Level(c, b, k, t)
  }

  /** After a call, the level of its key is the level the call found, less the token it took, refilled. */
  lemma LevelAfter(c: Config, buckets: map<string, Bucket>, call: Call, k: string, t: real)
    requires ValidConfig(c) && t >= call.at
    ensures var after := Decide(c, buckets, call);
            Level(c, after.0, k, t) ==
            if k != call.key then Level(c, buckets, k, t)
            else Refill(c.maxTokens as real, Rate(c),
                        Level(c, buckets, k, call.at) - (if after.1 then 1.0 else 0.0), t - call.at)
  {
    hide Rate;
    hide Refill;
  }

  /** A denied call changes no level from its own time on. */
  lemma DeniedChangesNothing(c: Config, buckets: map<string, Bucket>, call: Call)
    requires ValidConfig(c) && !Decide(c, buckets, call).1
    ensures SameLevels(c, Decide(c, buckets, call).0, buckets, call.at)
  {
    hide Rate;
    forall k, t | t >= call.at ensures Level(c, Decide(c, buckets, call).0, k, t) == Level(c, buckets, k, t) {
      LevelAfter(c, buckets, call, k, t);
      if k == call.key {
        if k in buckets {
          RefillsCompose(c.maxTokens as real, Rate(c), buckets[k].tokens, call.at - buckets[k].refilledAt, t - call.at);
        } else {
          FullStaysFull(c, call.at, t);
        }
      }
    }
  }

  lemma SameCallSameLevels(c: Config, a: map<string, Bucket>, b: map<string, Bucket>, call: Call)
    requires ValidConfig(c) && SameLevels(c, a, b, call.at)
    ensures Decide(c, a, call).1 == Decide(c, b, call).1
    ensures SameLevels(c, Decide(c, a, call).0, Decide(c, b, call).0, call.at)
  {
    hide Rate;
    hide Refill;
    assert Level(c, a, call.key, call.at) == Level(c, b, call.key, call.at);
    assert Decide(c, a, call).1 == Decide(c, b, call).1;
    hide Level;
    forall k, t | t >= call.at ensures Level(c, Decide(c, a, call).0, k, t) == Level(c, Decide(c, b, call).0, k, t) {
      LevelAfter(c, a, call, k, t);
      LevelAfter(c, b, call, k, t);
      assert Level(c, a, k, t) == Level(c, b, k, t);
    }
  }

  lemma LaterLevels(c: Config, a: map<string, Bucket>, b: map<string, Bucket>, now: real, later: real)
    requires ValidConfig(c) && SameLevels(c, a, b, now) && now <= later
    ensures SameLevels(c, a, b, later)
  {
    hide Level;
  }

  /** Deleting any set of denied calls from a run changes no other decision, and no level from then on. */
  lemma {:induction false} DeniedCallsLeaveNoTrace(c: Config, calls: seq<Call>, keep: seq<bool>)
    requires ValidConfig(c) && Ordered(calls) && LeavesOutOnlyDenied(c, calls, keep)
    ensures Decisions(c, Kept(calls, keep)) == Kept(Decisions(c, calls), keep)
    ensures calls != [] ==> SameLevels(c, Buckets(c, Kept(calls, keep)), Buckets(c, calls), calls[|calls| - 1].at)
  {
    hide Decide;
    hide SameLevels;
    if calls != [] {
      var n := |calls| - 1;
      var front, last := calls[..n], calls[n];
      var d := Decisions(c, calls);
      assert d[..n] == Decisions(c, front);
      assert LeavesOutOnlyDenied(c, front, keep[..n]) by {
        assert forall i :: 0 <= i < n ==> Decisions(c, front)[i] == d[i];
      }
      DeniedCallsLeaveNoTrace(c, front, keep[..n]);
      var kept := Kept(front, keep[..n]);
      var a, b := Buckets(c, kept), Buckets(c, front);
      assert SameLevels(c, a, b, last.at) by {
        if front == [] {
          assert a == b;
          LevelsRefl(c, a, last.at);
        } else {
          LaterLevels(c, a, b, front[n - 1].at, last.at);
        }
      }
      if keep[n] {
        SameCallSameLevels(c, a, b, last);
        assert (kept + [last])[..|kept|] == kept;
      } else {
        assert !d[n];
        DeniedChangesNothing(c, b, last);
        LevelsTransitive(c, a, b, Buckets(c, calls), last.at);
      }
    }
  }

  lemma LevelsRefl(c: Config, a: map<string, Bucket>, now: real)
    requires ValidConfig(c)
    ensures SameLevels(c, a, a, now)
  {
    hide Level;
  }

  lemma LevelsTransitive(c: Config, a: map<string, Bucket>, b: map<string, Bucket>, d: map<string, Bucket>, now: real)
    requires ValidConfig(c) && SameLevels(c, a, b, now) && SameLevels(c, d, b, now)
    ensures SameLevels(c, a, d, now)
  {
    hide Level;
    forall k, t | t >= now ensures Level(c, a, k, t) == Level(c, d, k, t) {
      assert Level(c, a, k, t) == Level(c, b, k, t) && Level(c, d, k, t) == Level(c, b, k, t);
    }
  }
}
