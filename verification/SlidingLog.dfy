/** The in-memory request limiter: a log of allowed calls for each key, trimmed from the front. */
module SlidingLog {
  import opened Options

  datatype Config = Config(maxRequests: nat, window: real)

  datatype Op = Request(key: string, at: real) | Reset(which: Option<string>)

  function LogOf(windows: map<string, seq<real>>, key: string): seq<real> {
    if key in windows then windows[key] else []
  }

  /** `while window and window[0] < cutoff: window.pop(0)` */
  function Expire(log: seq<real>, cutoff: real): seq<real> {
    if log != [] && log[0] < cutoff then Expire(log[1..], cutoff) else log
  }

  function Decide(c: Config, windows: map<string, seq<real>>, key: string, now: real): (map<string, seq<real>>, bool) {
    var log := Expire(LogOf(windows, key), now - c.window);
    if |log| >= c.maxRequests then (windows[key := log], false)
    else (windows[key := log + [now]], true)
  }

  function Forget(windows: map<string, seq<real>>, which: Option<string>): map<string, seq<real>> {
    match which
    case None => map[]
    case Some(key) => windows - {key}
  }

  class InMemoryRateLimiter {
    const config: Config
    var windows: map<string, seq<real>>

    constructor (maxRequests: nat, windowSeconds: real)
      ensures config == Config(maxRequests, windowSeconds) && windows == map[]
    {
      config := Config(maxRequests, windowSeconds);
      windows := map[];
    }

    method IsAllowed(key: string, now: real) returns (allowed: bool)
      modifies this
      ensures (windows, allowed) == Decide(config, old(windows), key, now)
    {
      var log := if key in windows then windows[key] else [];
      var cutoff := now - config.window;
      while log != [] && log[0] < cutoff
        invariant Expire(log, cutoff) == Expire(LogOf(old(windows), key), cutoff)
      {
        log := log[1..];
      }
      if |log| >= config.maxRequests {
        windows := windows[key := log];
        return false;
      }
      windows := windows[key := log + [now]];
      return true;
    }

    method ResetKeys(which: Option<string>)
      modifies this
      ensures windows == Forget(old(windows), which)
    {
      match which {
        case None => windows := map[];
        case Some(key) => windows := windows - {key};
      }
    }
  }

  // ----- runs -----

  function Step(c: Config, windows: map<string, seq<real>>, op: Op): map<string, seq<real>> {
    match op
    case Request(key, at) => Decide(c, windows, key, at).0
    case Reset(which) => Forget(windows, which)
  }

  function Windows(c: Config, ops: seq<Op>): map<string, seq<real>> {
    if ops == [] then map[] else Step(c, Windows(c, ops[..|ops| - 1]), ops[|ops| - 1])
  }

  /** Requests come in the order of a monotonic clock. */
  ghost predicate Ordered(ops: seq<Op>) {
    forall i, j :: 0 <= i < j < |ops| && ops[i].Request? && ops[j].Request? ==> ops[i].at <= ops[j].at
  }

  predicate Resets(op: Op, key: string) {
    op.Reset? && (op.which.None? || op.which.value == key)
  }

  /** The times of the calls allowed for the key since it was last reset. */
  function Allowed(c: Config, ops: seq<Op>, key: string): seq<real> {
    if ops == [] then []
    else
      var front, last := ops[..|ops| - 1], ops[|ops| - 1];
      if Resets(last, key) then []
      else if last.Request? && last.key == key && Decide(c, Windows(c, front), key, last.at).1
      then Allowed(c, front, key) + [last.at]
      else Allowed(c, front, key)
  }

  ghost predicate Sorted(s: seq<real>) {
    forall i, j :: 0 <= i < j < |s| ==> s[i] <= s[j]
  }

  /** Any max + 1 consecutive allowed calls span more than the window. */
  ghost predicate Spaced(c: Config, times: seq<real>) {
    forall i :: 0 <= i && i + c.maxRequests < |times| ==> times[i] < times[i + c.maxRequests] - c.window
  }

  /** The log is what remains of the allowed calls when those before some cutoff are dropped. */
  ghost predicate Remains(log: seq<real>, times: seq<real>, cutoff: real) {
    && |log| <= |times|
    && log == times[|times| - |log|..]
    && forall i :: 0 <= i < |times| - |log| ==> times[i] < cutoff
  }

  /** How the log of one key relates to the history of its allowed calls at a moment not before them. */
  ghost predicate LogAgrees(c: Config, log: seq<real>, times: seq<real>, now: real) {
    && Sorted(times) && Spaced(c, times)
    && (times != [] ==> times[|times| - 1] <= now)
    && Remains(log, times, now - c.window)
  }

  lemma {:induction false} ExpireRemains(log: seq<real>, times: seq<real>, before: real, cutoff: real)
    requires Remains(log, times, before) && before <= cutoff
    ensures Remains(Expire(log, cutoff), times, cutoff)
    ensures Expire(log, cutoff) != [] ==> Expire(log, cutoff)[0] >= cutoff
  {
    if log != [] && log[0] < cutoff {
      assert Remains(log[1..], times, cutoff) by {
        var k := |times| - |log|;
        assert times[k..][1..] == times[k + 1..];
      }
      ExpireRemains(log[1..], times, cutoff, cutoff);
    }
  }

  /** The calls of a sorted list from the cutoff on. */
  function CountFrom(times: seq<real>, cutoff: real): nat {
    if times == [] then 0
    else CountFrom(times[..|times| - 1], cutoff) + if times[|times| - 1] >= cutoff then 1 else 0
  }

  lemma {:induction false} ExpiredLogCounts(log: seq<real>, times: seq<real>, cutoff: real)
    requires Sorted(times) && Remains(log, times, cutoff) && (log != [] ==> log[0] >= cutoff)
    ensures |log| == CountFrom(times, cutoff)
  {
    if times != [] {
      var n := |times| - 1;
      if log == [] {
        ExpiredLogCounts([], times[..n], cutoff);
      } else {
        var k := |times| - |log|;
        var shorter := log[..|log| - 1];
        assert shorter == times[..n][k..];
        ExpiredLogCounts(shorter, times[..n], cutoff);
        assert times[n] >= times[k] >= cutoff;
      }
    }
  }

  lemma SpacedAppend(c: Config, expired: seq<real>, times: seq<real>, now: real)
    requires Spaced(c, times) && Remains(expired, times, now - c.window) && |expired| < c.maxRequests
    ensures Spaced(c, times + [now])
  {
    var more := times + [now];
    forall i | 0 <= i && i + c.maxRequests < |more| ensures more[i] < more[i + c.maxRequests] - c.window {
      if i + c.maxRequests == |times| {
        assert i < |times| - |expired|;
      } else {
        assert more[i] == times[i] && more[i + c.maxRequests] == times[i + c.maxRequests];
      }
    }
  }

  lemma RemainsAppend(log: seq<real>, times: seq<real>, cutoff: real, now: real)
    requires Remains(log, times, cutoff)
    ensures Remains(log + [now], times + [now], cutoff)
  {
    var k := |times| - |log|;
    assert (times + [now])[k..] == times[k..] + [now];
  }

  lemma SortedAppend(times: seq<real>, now: real)
    requires Sorted(times) && (times != [] ==> times[|times| - 1] <= now)
    ensures Sorted(times + [now])
  {
    forall i | 0 <= i < |times| ensures times[i] <= now {
      assert i < |times| - 1 ==> times[i] <= times[|times| - 1];
    }
  }

  lemma ExpireAgrees(c: Config, log: seq<real>, times: seq<real>, before: real, now: real)
    requires LogAgrees(c, log, times, before) && before <= now
    ensures LogAgrees(c, Expire(log, now - c.window), times, now)
    ensures |Expire(log, now - c.window)| == CountFrom(times, now - c.window)
  {
    hide Expire;
    hide CountFrom;
    hide Remains;
    hide Spaced;
    hide Sorted;
    ExpireRemains(log, times, before - c.window, now - c.window);
    ExpiredLogCounts(Expire(log, now - c.window), times, now - c.window);
  }

  lemma AppendAgrees(c: Config, log: seq<real>, times: seq<real>, now: real)
    requires LogAgrees(c, log, times, now) && |log| < c.maxRequests
    ensures LogAgrees(c, log + [now], times + [now], now)
  {
    hide Remains;
    hide Spaced;
    hide Sorted;
    SpacedAppend(c, log, times, now);
    RemainsAppend(log, times, now - c.window, now);
    SortedAppend(times, now);
  }

  lemma RequestAgrees(c: Config, log: seq<real>, times: seq<real>, before: real, now: real)
    requires LogAgrees(c, log, times, before) && before <= now
    ensures var expired := Expire(log, now - c.window);
            && (|expired| < c.maxRequests <==> CountFrom(times, now - c.window) < c.maxRequests)
            && LogAgrees(c, expired, times, now)
            && (|expired| < c.maxRequests ==> LogAgrees(c, expired + [now], times + [now], now))
  {
    hide LogAgrees;
    hide Expire;
    hide CountFrom;
    ExpireAgrees(c, log, times, before, now);
    var expired := Expire(log, now - c.window);
    if |expired| < c.maxRequests {
      AppendAgrees(c, expired, times, now);
    }
  }

  lemma NothingAgrees(c: Config, now: real)
    ensures LogAgrees(c, [], [], now)
  {
  }

  lemma LaterAgrees(c: Config, log: seq<real>, times: seq<real>, before: real, now: real)
    requires LogAgrees(c, log, times, before) && before <= now
    ensures LogAgrees(c, log, times, now)
  {
  }

  /** After every run the log of each key agrees with the history of its allowed calls. */
  lemma {:induction false} LogsAgree(c: Config, ops: seq<Op>, key: string, now: real)
    requires Ordered(ops)
    requires forall i :: 0 <= i < |ops| && ops[i].Request? ==> ops[i].at <= now
    ensures LogAgrees(c, LogOf(Windows(c, ops), key), Allowed(c, ops, key), now)
  {
    hide LogAgrees;
    hide Expire;
    if ops == [] {
      NothingAgrees(c, now);
    } else {
      var front, last := ops[..|ops| - 1], ops[|ops| - 1];
      var windows := Windows(c, front);
      if Resets(last, key) {
        NothingAgrees(c, now);
      } else if last.Request? && last.key == key {
        LogsAgree(c, front, key, last.at);
        RequestAgrees(c, LogOf(windows, key), Allowed(c, front, key), last.at, last.at);
        var after := LogOf(Windows(c, ops), key);
        LaterAgrees(c, after, Allowed(c, ops, key), last.at, now);
      } else {
        LogsAgree(c, front, key, now);
        assert LogOf(Windows(c, ops), key) == LogOf(windows, key);
      }
    }
  }

  /** A call is allowed exactly when fewer than max earlier allowed calls lie in the window that ends with it. */
  lemma AllowedIffRoomInWindow(c: Config, ops: seq<Op>, key: string, now: real)
    requires Ordered(ops)
    requires forall i :: 0 <= i < |ops| && ops[i].Request? ==> ops[i].at <= now
    ensures Decide(c, Windows(c, ops), key, now).1 <==> CountFrom(Allowed(c, ops, key), now - c.window) < c.maxRequests
  {
    hide LogAgrees;
    hide Expire;
    hide CountFrom;
    LogsAgree(c, ops, key, now);
    RequestAgrees(c, LogOf(Windows(c, ops), key), Allowed(c, ops, key), now, now);
  }

  // ----- the window bound -----

  function CountIn(times: seq<real>, from: real, to: real): nat {
    if times == [] then 0
    else CountIn(times[..|times| - 1], from, to) + if from <= times[|times| - 1] <= to then 1 else 0
  }

  lemma {:induction false} CountAtMost(times: seq<real>, from: real, to: real, skipped: nat)
    requires skipped <= |times|
    requires forall i :: 0 <= i < skipped ==> times[i] < from
    ensures CountIn(times, from, to) <= |times| - skipped
  {
    if times != [] {
      var n := |times| - 1;
      CountAtMost(times[..n], from, to, if skipped <= n then skipped else n);
    }
  }

  lemma {:induction false} SpacedBound(c: Config, times: seq<real>, from: real, to: real)
    requires Sorted(times) && Spaced(c, times) && to <= from + c.window
    ensures CountIn(times, from, to) <= c.maxRequests
  {
    if times != [] {
      var n := |times| - 1;
      if times[n] > to {
        SpacedBound(c, times[..n], from, to);
      } else if |times| <= c.maxRequests {
        CountAtMost(times, from, to, 0);
      } else {
        var skipped := |times| - c.maxRequests;
        if c.maxRequests == 0 {
          assert times[n] < times[n + c.maxRequests] - c.window;
        }
        forall i | 0 <= i < skipped ensures times[i] < from {
          assert times[i] < times[i + c.maxRequests] - c.window;
          assert times[i + c.maxRequests] <= times[n];
        }
        CountAtMost(times, from, to, skipped);
      }
    }
  }

  /** Since its last reset, every closed interval of window length holds at most max allowed calls of a key. */
  lemma WindowBound(c: Config, ops: seq<Op>, key: string, from: real, now: real)
    requires Ordered(ops)
    requires forall i :: 0 <= i < |ops| && ops[i].Request? ==> ops[i].at <= now
    ensures CountIn(Allowed(c, ops, key), from, from + c.window) <= c.maxRequests
  {
    LogsAgree(c, ops, key, now);
    hide Allowed;
    SpacedBound(c, Allowed(c, ops, key), from, from + c.window);
  }
}
