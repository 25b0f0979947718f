/** The token service: an ordered dictionary used as an LRU cache with a time to live. */
module TokenCache {
  import opened Options
  import opened Dicts
  import opened Text

  datatype Context = Context(userId: string, projectId: string, role: string)

  datatype Entry = Entry(issuedAt: real, context: Context)

  type Cache = Dict<string, Entry>

  datatype Config = Config(maxTokens: Option<nat>, ttl: Option<real>)

  /** `move_to_end` */
  function MovedToEnd(d: Cache, token: string): (r: Cache)
    ensures d.Valid() && d.Has(token) ==> r.Valid()
    ensures r.entries == d.entries
  {
    WithoutFacts(d.keys, token);
    Dict(Without(d.keys, token) + [token], d.entries)
  }

  predicate Registrable(token: string, context: Context) {
    context.userId != "" && context.projectId != "" && Strip(token) != ""
  }

  function Register(c: Config, d: Cache, token: string, context: Context, now: real): Cache
    requires d.Valid()
  {
    if !Registrable(token, context) then d
    else
      var name := Strip(token);
      Evicted(MovedToEnd(d.Put(name, Entry(now, context)), name), c.maxTokens)
  }

  predicate Expired(c: Config, entry: Entry, now: real) {
    c.ttl.Some? && now - entry.issuedAt > c.ttl.value
  }

  function Verify(c: Config, d: Cache, token: string, now: real): (Cache, Option<Context>)
    requires d.Valid()
  {
    if !d.Has(token) then (d, None)
    else if Expired(c, d.entries[token], now) then (d.Delete(token), None)
    else (MovedToEnd(d, token), Some(d.entries[token].context))
  }

  class AuthTokenService {
    const config: Config
    var tokens: Cache

    constructor (maxTokens: Option<nat>, ttlSeconds: Option<real>)
      ensures config == Config(maxTokens, ttlSeconds) && tokens == Empty() && tokens.Valid()
    {
      config := Config(maxTokens, ttlSeconds);
      tokens := Empty();
    }

    method RegisterToken(token: string, context: Context, now: real) returns (registered: Option<string>)
      requires tokens.Valid()
      modifies this
      ensures tokens == Register(config, old(tokens), token, context, now) && tokens.Valid()
      ensures registered == if Registrable(token, context) then Some(Strip(token)) else None
    {
      hide Strip;
      if context.userId == "" || context.projectId == "" {
        return None;
      }
      var normalized := Strip(token);
      if normalized == "" {
        return None;
      }
      tokens := tokens.Put(normalized, Entry(now, context));
      tokens := MovedToEnd(tokens, normalized);
      EvictIfNeeded();
      registered := Some(normalized);
    }

    method VerifyToken(token: string, now: real) returns (context: Option<Context>)
      requires tokens.Valid()
      modifies this
      ensures (tokens, context) == Verify(config, old(tokens), token, now) && tokens.Valid()
    {
      if !tokens.Has(token) {
        return None;
      }
      var entry := tokens.entries[token];
      if config.ttl.Some? {
        var age := now - entry.issuedAt;
        if age > config.ttl.value {
          tokens := tokens.Delete(token);
          return None;
        }
      }
      tokens := MovedToEnd(tokens, token);
      context := Some(entry.context);
    }

    method RevokeToken(token: string)
      requires tokens.Valid()
      modifies this
      ensures tokens == old(tokens).Delete(token) && tokens.Valid()
    {
      tokens := tokens.Delete(token);
    }

    method EvictIfNeeded()
      requires tokens.Valid()
      modifies this
      ensures tokens == Evicted(old(tokens), config.maxTokens) && tokens.Valid()
    {
      if config.maxTokens.Some? {
        while |tokens.keys| > config.maxTokens.value
          invariant tokens.Valid()
          invariant Evicted(tokens, config.maxTokens) == Evicted(old(tokens), config.maxTokens)
          decreases |tokens.keys|
        {
          tokens := tokens.DeleteFirst();
        }
      }
    }
  }

  // ----- runs -----

  datatype Op = DoRegister(token: string, context: Context, now: real) | DoVerify(token: string, now: real) | DoRevoke(token: string)

  function Step(c: Config, d: Cache, op: Op): (r: Cache)
    requires d.Valid()
    ensures r.Valid()
  {
    match op
    case DoRegister(token, context, now) => Register(c, d, token, context, now)
    case DoVerify(token, now) => Verify(c, d, token, now).0
    case DoRevoke(token) => d.Delete(token)
  }

  function Run(c: Config, d: Cache, ops: seq<Op>): (r: Cache)
    requires d.Valid()
    ensures r.Valid()
  {
    if ops == [] then d else Step(c, Run(c, d, ops[..|ops| - 1]), ops[|ops| - 1])
  }

  lemma SameKeysSameLength<V, W>(a: Dict<string, V>, b: Dict<string, W>)
    requires a.Valid() && b.Valid() && a.entries.Keys <= b.entries.Keys
    ensures |a.keys| <= |b.keys|
  {
    DistinctSize(a.keys);
    DistinctSize(b.keys);
    var x, y := set k | k in a.keys, set k | k in b.keys;
    assert x <= y;
    SubsetSize(x, y);
  }

  lemma {:induction false} SubsetSize<T>(x: set<T>, y: set<T>)
    requires x <= y
    ensures |x| <= |y|
    decreases x
  {
    if x != {} {
      var e :| e in x;
      SubsetSize(x - {e}, y - {e});
    }
  }

  lemma StepSize(c: Config, d: Cache, op: Op)
    requires d.Valid() && (c.maxTokens.Some? ==> |d.keys| <= c.maxTokens.value)
    ensures c.maxTokens.Some? ==> |Step(c, d, op).keys| <= c.maxTokens.value
  {
    hide Strip;
    match op
    case DoVerify(token, now) => SameKeysSameLength(Step(c, d, op), d);
    case DoRevoke(token) => SameKeysSameLength(Step(c, d, op), d);
    case _ =>
  }

  /** In every run the number of tokens stays within the capacity. */
  lemma {:induction false} SizeIsBounded(c: Config, ops: seq<Op>)
    ensures c.maxTokens.Some? ==> |Run(c, Empty(), ops).keys| <= c.maxTokens.value
  {
    hide Step;
    if ops != [] {
      SizeIsBounded(c, ops[..|ops| - 1]);
      StepSize(c, Run(c, Empty(), ops[..|ops| - 1]), ops[|ops| - 1]);
    }
  }

  // ----- what verification returns -----

  /** The latest registration of a token in a run. */
  function Latest(ops: seq<Op>, token: string): Option<Entry> {
    if ops == [] then None
    else
      var last := ops[|ops| - 1];
      if last.DoRegister? && Registrable(last.token, last.context) && Strip(last.token) == token
      then Some(Entry(last.now, last.context))
      else Latest(ops[..|ops| - 1], token)
  }

  /** Every resident entry is exactly what the latest registration of its token stored; use never renews it. */
  lemma {:induction false} EntriesAreLatest(c: Config, ops: seq<Op>, token: string)
    requires Run(c, Empty(), ops).Has(token)
    ensures Latest(ops, token) == Some(Run(c, Empty(), ops).entries[token])
  {
    hide Strip;
    if ops != [] {
      var front, last := ops[..|ops| - 1], ops[|ops| - 1];
      var d := Run(c, Empty(), front);
      if !(last.DoRegister? && Registrable(last.token, last.context) && Strip(last.token) == token) {
        assert d.Has(token);
        EntriesAreLatest(c, front, token);
      }
    }
  }

  /** Verification succeeds exactly for resident tokens within their time to live, and then returns the context of the
      latest registration, no later than that registration's time plus the time to live. */
  lemma VerifyReturnsLatest(c: Config, ops: seq<Op>, token: string, now: real)
    ensures var d := Run(c, Empty(), ops);
            var result := Verify(c, d, token, now).1;
            && (d.Has(token) ==> Latest(ops, token).Some?)
            && (result.Some? <==> d.Has(token) && (c.ttl.None? || now <= Latest(ops, token).value.issuedAt + c.ttl.value))
            && (result.Some? ==> result.value == Latest(ops, token).value.context)
  {
    hide Run;
    if Run(c, Empty(), ops).Has(token) {
      EntriesAreLatest(c, ops, token);
    }
  }

  /** A registration puts the stripped token at the recent end with this time and context, unless the cache may hold nothing. */
  lemma RegisterLeaves(c: Config, d: Cache, token: string, context: Context, now: real)
    requires d.Valid()
    ensures var after, name := Register(c, d, token, context, now), Strip(token);
            if context.userId == "" || context.projectId == "" || name == "" then after == d
            else c.maxTokens != Some(0) ==>
                   && after.Has(name) && after.entries[name] == Entry(now, context)
                   && after.keys != [] && after.keys[|after.keys| - 1] == name
                   && forall other :: after.Has(other) && other != name ==> d.Has(other) && after.entries[other] == d.entries[other]
  {
    hide Strip, Evicted, MovedToEnd;
    var name := Strip(token);
    if Registrable(token, context) && c.maxTokens != Some(0) {
      var put := d.Put(name, Entry(now, context));
      var moved := MovedToEnd(put, name);
      LastMoved(put, name);
      var after := Evicted(moved, c.maxTokens);
      assert after.keys[|after.keys| - 1] == name;
      assert name in after.keys;
    }
  }

  lemma LastMoved(d: Cache, token: string)
    ensures MovedToEnd(d, token).keys != [] && MovedToEnd(d, token).keys[|MovedToEnd(d, token).keys| - 1] == token
  {
  }

  /** A verification moves a token that is within its time to live to the recent end and removes an expired one. */
  lemma VerifyLeaves(c: Config, d: Cache, token: string, now: real)
    requires d.Valid()
    ensures var after := Verify(c, d, token, now).0;
            if !d.Has(token) then after == d
            else if c.ttl.Some? && now > d.entries[token].issuedAt + c.ttl.value then after.entries == d.entries - {token}
            else after.entries == d.entries && after.keys != [] && after.keys[|after.keys| - 1] == token
  {
    hide MovedToEnd;
    LastMoved(d, token);
  }

  // ----- residency -----

  /** The token that an operation uses: registers, or verifies successfully. */
  function Used(c: Config, d: Cache, op: Op): Option<string>
    requires d.Valid()
  {
    match op
    case DoRegister(token, context, now) => if Registrable(token, context) then Some(Strip(token)) else None
    case DoVerify(token, now) => if Verify(c, d, token, now).1.Some? then Some(token) else None
    case DoRevoke(_) => None
  }

  /** The tokens other than this one that a run uses. */
  function OthersUsed(c: Config, d: Cache, ops: seq<Op>, token: string): set<string>
    requires d.Valid()
  {
    if ops == [] then {}
    else
      var front := ops[..|ops| - 1];
      var used := Used(c, Run(c, d, front), ops[|ops| - 1]);
      OthersUsed(c, d, front, token) + if used.Some? && used.value != token then {used.value} else {}
  }

  /** The operation neither revokes the token nor finds it expired. */
  ghost predicate Spares(c: Config, d: Cache, op: Op, token: string) {
    && op != DoRevoke(token)
    && (op.DoVerify? && op.token == token && d.Has(token) ==> !Expired(c, d.entries[token], op.now))
  }

  ghost predicate SparesThroughout(c: Config, d: Cache, ops: seq<Op>, token: string)
    requires d.Valid()
  {
    ops == [] ||
    (SparesThroughout(c, d, ops[..|ops| - 1], token) && Spares(c, Run(c, d, ops[..|ops| - 1]), ops[|ops| - 1], token))
  }

  /** The token is resident and everything more recent than it was used since. */
  ghost predicate RecentWithin(keys: seq<string>, token: string, used: set<string>) {
    exists p :: 0 <= p < |keys| && keys[p] == token && forall i :: p < i < |keys| ==> keys[i] in used
  }

  lemma {:induction false} WithoutKeepsRecent(keys: seq<string>, other: string, token: string, used: set<string>)
    requires RecentWithin(keys, token, used) && other != token
    ensures RecentWithin(Without(keys, other), token, used)
  {
    var p :| 0 <= p < |keys| && keys[p] == token && forall i :: p < i < |keys| ==> keys[i] in used;
    var n := |keys| - 1;
    var front := keys[..n];
    assert keys == front + [keys[n]];
    if p == n {
      var rest := Without(front, other);
      assert (rest + [token])[|rest|] == token;
    } else {
      assert front[p] == token;
      assert RecentWithin(front, token, used);
      WithoutKeepsRecent(front, other, token, used);
      var rest := Without(front, other);
      var q :| 0 <= q < |rest| && rest[q] == token && forall i :: q < i < |rest| ==> rest[i] in used;
      if keys[n] != other {
        assert (rest + [keys[n]])[q] == token;
      }
    }
  }

  lemma MoveKeepsRecent(d: Cache, other: string, token: string, used: set<string>)
    requires RecentWithin(d.keys, token, used) && other != token
    ensures RecentWithin(MovedToEnd(d, other).keys, token, used + {other})
  {
    WithoutKeepsRecent(d.keys, other, token, used);
    var rest := Without(d.keys, other);
    var q :| 0 <= q < |rest| && rest[q] == token && forall i :: q < i < |rest| ==> rest[i] in used;
    assert (rest + [other])[q] == token;
  }

  lemma NewerAreUsed(keys: seq<string>, p: nat, used: set<string>)
    requires Distinct(keys) && p < |keys| && forall i :: p < i < |keys| ==> keys[i] in used
    ensures |keys| - p - 1 <= |used|
  {
    var tail := keys[p + 1..];
    assert Distinct(tail);
    DistinctSize(tail);
    var newer := set k | k in tail;
    SubsetSize(newer, used);
  }

  /** A token with fewer than max more recent ones survives eviction. */
  lemma EvictionSparesRecent(d: Cache, max: Option<nat>, token: string, used: set<string>)
    requires d.Valid() && RecentWithin(d.keys, token, used)
    requires max.Some? ==> |used| < max.value
    ensures RecentWithin(Evicted(d, max).keys, token, used)
  {
    hide Evicted;
    if max.Some? && |d.keys| > max.value {
      var p :| 0 <= p < |d.keys| && d.keys[p] == token && forall i :: p < i < |d.keys| ==> d.keys[i] in used;
      NewerAreUsed(d.keys, p, used);
      var cut := |d.keys| - max.value;
      var kept := d.keys[cut..];
      assert Evicted(d, max).keys == kept;
      assert kept[p - cut] == token;
    }
  }

  lemma LastIsRecent(keys: seq<string>, token: string)
    requires keys != [] && keys[|keys| - 1] == token
    ensures RecentWithin(keys, token, {})
  {
  }

  lemma RecentMonotone(keys: seq<string>, token: string, used: set<string>, more: set<string>)
    requires RecentWithin(keys, token, used) && used <= more
    ensures RecentWithin(keys, token, more)
  {
  }

  lemma RegisterKeepsRecent(c: Config, d: Cache, op: Op, token: string, used: set<string>)
    requires d.Valid() && op.DoRegister? && RecentWithin(d.keys, token, used)
    requires var u := Used(c, d, op);
             var after := if u.Some? && u.value != token then used + {u.value} else used;
             c.maxTokens.Some? ==> |after| < c.maxTokens.value
    ensures var u := Used(c, d, op);
            var after := if u.Some? && u.value != token then used + {u.value} else used;
            RecentWithin(Step(c, d, op).keys, token, after)
  {
    hide Strip;
    hide RecentWithin;
    if Registrable(op.token, op.context) {
      var name := Strip(op.token);
      var put := d.Put(name, Entry(op.now, op.context));
      var moved := MovedToEnd(put, name);
      if name == token {
        LastIsRecent(moved.keys, token);
        RecentMonotone(moved.keys, token, {}, used);
        EvictionSparesRecent(moved, c.maxTokens, token, used);
      } else {
        MovePutKeepsRecent(d, name, Entry(op.now, op.context), token, used);
        EvictionSparesRecent(moved, c.maxTokens, token, used + {name});
      }
    }
  }

  lemma MovePutKeepsRecent(d: Cache, name: string, entry: Entry, token: string, used: set<string>)
    requires d.Valid() && RecentWithin(d.keys, token, used) && name != token
    ensures RecentWithin(MovedToEnd(d.Put(name, entry), name).keys, token, used + {name})
  {
    var put := d.Put(name, entry);
    assert RecentWithin(put.keys, token, used + {name}) by {
      var p :| 0 <= p < |d.keys| && d.keys[p] == token && forall i :: p < i < |d.keys| ==> d.keys[i] in used;
      assert put.keys[p] == token;
    }
    MoveKeepsRecent(put, name, token, used + {name});
    assert used + {name} + {name} == used + {name};
  }

  lemma StepKeepsRecent(c: Config, d: Cache, op: Op, token: string, used: set<string>)
    requires d.Valid() && RecentWithin(d.keys, token, used) && Spares(c, d, op, token)
    requires var u := Used(c, d, op);
             var after := if u.Some? && u.value != token then used + {u.value} else used;
             c.maxTokens.Some? ==> |after| < c.maxTokens.value
    ensures var u := Used(c, d, op);
            var after := if u.Some? && u.value != token then used + {u.value} else used;
            RecentWithin(Step(c, d, op).keys, token, after)
  {
    hide Strip;
    match op
    case DoRegister(_, _, _) => RegisterKeepsRecent(c, d, op, token, used);
    case DoVerify(other, now) =>
      if other == token {
        var moved := MovedToEnd(d, token);
        LastIsRecent(moved.keys, token);
        RecentMonotone(moved.keys, token, {}, used);
      } else if d.Has(other) {
        if Expired(c, d.entries[other], now) {
          WithoutKeepsRecent(d.keys, other, token, used);
        } else {
          MoveKeepsRecent(d, other, token, used);
        }
      }
    case DoRevoke(other) => WithoutKeepsRecent(d.keys, other, token, used);
  }

  lemma {:induction false} RecentThroughout(c: Config, d: Cache, ops: seq<Op>, token: string)
    requires d.Valid() && RecentWithin(d.keys, token, {}) && SparesThroughout(c, d, ops, token)
    requires c.maxTokens.Some? ==> |OthersUsed(c, d, ops, token)| < c.maxTokens.value
    ensures RecentWithin(Run(c, d, ops).keys, token, OthersUsed(c, d, ops, token))
  {
    hide RecentWithin;
    hide Step;
    hide Spares;
    hide Used;
    if ops != [] {
      var front := ops[..|ops| - 1];
      SubsetSize(OthersUsed(c, d, front, token), OthersUsed(c, d, ops, token));
      RecentThroughout(c, d, front, token);
      StepKeepsRecent(c, Run(c, d, front), ops[|ops| - 1], token, OthersUsed(c, d, front, token));
      assert OthersUsed(c, d, front, token) + {} == OthersUsed(c, d, front, token);
    }
  }

  /** A use puts the token at the recent end, unless the cache can hold nothing at all. */
  lemma UseMakesRecent(c: Config, d: Cache, op: Op)
    requires d.Valid() && Used(c, d, op).Some? && c.maxTokens != Some(0)
    ensures RecentWithin(Step(c, d, op).keys, Used(c, d, op).value, {})
  {
    hide Strip;
    var token := Used(c, d, op).value;
    if op.DoRegister? {
      var moved := MovedToEnd(d.Put(token, Entry(op.now, op.context)), token);
      LastIsRecent(moved.keys, token);
      EvictionSparesRecent(moved, c.maxTokens, token, {});
    } else {
      LastIsRecent(MovedToEnd(d, token).keys, token);
    }
  }

  /** After a token is used, it stays resident through every run that neither revokes it nor finds it expired, as long
      as fewer than max other distinct tokens are used. */
  lemma UsedTokenStays(c: Config, d: Cache, use: Op, ops: seq<Op>)
    requires d.Valid() && Used(c, d, use).Some?
    requires SparesThroughout(c, Step(c, d, use), ops, Used(c, d, use).value)
    requires c.maxTokens.Some? ==> |OthersUsed(c, Step(c, d, use), ops, Used(c, d, use).value)| < c.maxTokens.value
    ensures Run(c, Step(c, d, use), ops).Has(Used(c, d, use).value)
  {
    hide Used;
    hide Step;
    UseMakesRecent(c, d, use);
    RecentThroughout(c, Step(c, d, use), ops, Used(c, d, use).value);
  }
}
