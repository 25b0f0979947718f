/**
 The Redis limiter: a counter for each key and aligned window, with an expiry.  Its documentation speaks of a
 sliding window; the code counts in fixed ones.
 */
module FixedWindow {
  import opened Options

  datatype Config = Config(maxRequests: nat, window: real, failClosed: bool)

  predicate ValidConfig(c: Config) {
    c.window > 0.0
  }

  /** How the two Redis commands of a call fare. */
  datatype Fate = Works | IncrFails | ExpireFails

  datatype Call = Call(key: string, at: real, fate: Fate)

  datatype Counter = Counter(count: nat, expiresAt: Option<real>)

  type Store = map<(string, int), Counter>

  /** `int(now // window_seconds)` */
  function Slot(c: Config, at: real): int
    requires ValidConfig(c)
  {
    (at / c.window).Floor
  }

  /** The moment at which a window begins. */
  function SlotStart(c: Config, slot: int): real {
    Times(slot as real, c.window)
  }

  function Times(x: real, y: real): real {
    x * y
  }

  lemma TimesMonotone(x: real, y: real, w: real)
    requires w >= 0.0 && x <= y
    ensures Times(x, w) <= Times(y, w)
  {
    assert (y - x) * w == y * w - x * w;
  }

  lemma TimesStep(x: real, w: real)
    ensures Times(x + 1.0, w) == Times(x, w) + w
  {
  }

  lemma TimesStrict(x: real, y: real, w: real)
    requires w > 0.0 && x < y
    ensures Times(x, w) < Times(y, w)
  {
    assert (y - x) * w == y * w - x * w;
    assert (y - x) * w > 0.0;
  }

  lemma TimesQuotient(at: real, w: real)
    requires w > 0.0
    ensures Times(at / w, w) == at
  {
  }

  lemma NextSlot(c: Config, slot: int)
    ensures SlotStart(c, slot + 1) == SlotStart(c, slot) + c.window
  {
    hide Times;
    assert (slot + 1) as real == slot as real + 1.0;
    TimesStep(slot as real, c.window);
  }

  lemma SlotOrder(c: Config, a: int, b: int)
    requires ValidConfig(c) && a <= b
    ensures SlotStart(c, a) <= SlotStart(c, b)
  {
    hide Times;
    TimesMonotone(a as real, b as real, c.window);
  }

  lemma SlotBounds(c: Config, at: real)
    requires ValidConfig(c)
    ensures SlotStart(c, Slot(c, at)) <= at < SlotStart(c, Slot(c, at) + 1)
  {
    hide Times;
    var q, f := at / c.window, Slot(c, at);
    assert f as real <= q < (f + 1) as real;
    TimesQuotient(at, c.window);
    TimesMonotone(f as real, q, c.window);
    TimesStrict(q, (f + 1) as real, c.window);
  }

  /** What INCR finds under the name: zero when it is absent or has expired. */
  function CountAt(store: Store, name: (string, int), now: real): nat {
    if name in store && (store[name].expiresAt.None? || now < store[name].expiresAt.value) then store[name].count else 0
  }

  /** INCR, which keeps the expiry of a live counter and starts a fresh one without expiry. */
  function Incremented(store: Store, name: (string, int), now: real): Counter {
    if CountAt(store, name, now) == 0 then Counter(1, None)
    else Counter(store[name].count + 1, store[name].expiresAt)
  }

  function Decide(c: Config, store: Store, call: Call): (Store, bool)
    requires ValidConfig(c)
  {
    if call.fate.IncrFails? then (store, !c.failClosed)
    else
      var name := (call.key, Slot(c, call.at));
      var counter := Incremented(store, name, call.at);
      if counter.count == 1 && call.fate.ExpireFails? then (store[name := counter], !c.failClosed)
      else
        var kept := if counter.count == 1 then counter.(expiresAt := Some(call.at + c.window)) else counter;
        (store[name := kept], counter.count <= c.maxRequests)
  }

  /** A client that never connected treats every call as if INCR had failed. */
  class RedisRateLimiter {
    const config: Config
    const connected: bool
    var store: Store

    constructor (maxRequests: nat, windowSeconds: real, failClosed: bool, reachable: bool)
      requires windowSeconds > 0.0
      ensures ValidConfig(config) && config == Config(maxRequests, windowSeconds, failClosed) && store == map[]
      ensures connected == reachable
    {
      config := Config(maxRequests, windowSeconds, failClosed);
      connected := reachable;
      store := map[];
    }

    method IsAllowed(key: string, now: real, fate: Fate) returns (allowed: bool)
      requires ValidConfig(config)
      modifies this
      ensures (store, allowed) == Decide(config, old(store), Call(key, now, if connected then fate else IncrFails))
    {
      if !connected {
        return !config.failClosed;
      }
      var name := (key, Slot(config, now));
      if fate.IncrFails? {
        return !config.failClosed;
      }
      var counter := Incremented(store, name, now);
      store := store[name := counter];
      if counter.count == 1 {
        if fate.ExpireFails? {
          return !config.failClosed;
        }
        var kept := counter.(expiresAt := Some(now + config.window));
        store := store[name := kept];
        assert store == old(store)[name := kept];
      }
      return counter.count <= config.maxRequests;
    }
  }

  // ----- runs -----

  function StoreAfter(c: Config, calls: seq<Call>): Store
    requires ValidConfig(c)
  {
    if calls == [] then map[] else Decide(c, StoreAfter(c, calls[..|calls| - 1]), calls[|calls| - 1]).0
  }

  predicate Counts(c: Config, call: Call, name: (string, int))
    requires ValidConfig(c)
  {
    !call.fate.IncrFails? && (call.key, Slot(c, call.at)) == name
  }

  /** The calls that incremented the counter of this name. */
  function Increments(c: Config, calls: seq<Call>, name: (string, int)): nat
    requires ValidConfig(c)
  {
    if calls == [] then 0
    else Increments(c, calls[..|calls| - 1], name) + if Counts(c, calls[|calls| - 1], name) then 1 else 0
  }

  /** A counter that exists counts all its increments and expires, if at all, after its own window. */
  ghost predicate CounterAgrees(c: Config, store: Store, name: (string, int), increments: nat)
    requires ValidConfig(c)
  {
    if name in store then
      && store[name].count == increments > 0
      && (store[name].expiresAt.Some? ==> SlotStart(c, name.1 + 1) <= store[name].expiresAt.value)
    else increments == 0
  }

  lemma CounterStep(c: Config, store: Store, call: Call, name: (string, int), increments: nat)
    requires ValidConfig(c) && CounterAgrees(c, store, name, increments)
    ensures CounterAgrees(c, Decide(c, store, call).0, name, increments + if Counts(c, call, name) then 1 else 0)
  {
    if Counts(c, call, name) {
      hide Slot;
      hide SlotStart;
      SlotBounds(c, call.at);
      NextSlot(c, name.1);
    }
  }

  /** No counter expires inside its own window: in every run each one holds the number of its increments. */
  lemma {:induction false} CountersNeverExpireEarly(c: Config, calls: seq<Call>, name: (string, int))
    requires ValidConfig(c)
    ensures CounterAgrees(c, StoreAfter(c, calls), name, Increments(c, calls, name))
  {
    if calls != [] {
      hide CounterAgrees;
      hide Decide;
      CountersNeverExpireEarly(c, calls[..|calls| - 1], name);
      CounterStep(c, StoreAfter(c, calls[..|calls| - 1]), calls[|calls| - 1], name, Increments(c, calls[..|calls| - 1], name));
    }
  }

  /** A call that Redis served is allowed exactly when at most max calls of its window were counted, itself included. */
  lemma AllowedIffWithinWindowCount(c: Config, calls: seq<Call>, call: Call)
    requires ValidConfig(c) && call.fate.Works?
    ensures Decide(c, StoreAfter(c, calls), call).1 <==>
            Increments(c, calls, (call.key, Slot(c, call.at))) + 1 <= c.maxRequests
  {
    var name := (call.key, Slot(c, call.at));
    CountersNeverExpireEarly(c, calls, name);
    SlotBounds(c, call.at);
    hide Slot;
    hide SlotStart;
    hide StoreAfter;
    hide Increments;
  }

  // ----- bounds -----

  predicate Fails(c: Config, store: Store, call: Call)
    requires ValidConfig(c)
  {
    call.fate.IncrFails? || (call.fate.ExpireFails? && CountAt(store, (call.key, Slot(c, call.at)), call.at) == 0)
  }

  /** The calls on the key in one window that were allowed while Redis answered. */
  function ServedInSlot(c: Config, calls: seq<Call>, name: (string, int)): nat
    requires ValidConfig(c)
  {
    if calls == [] then 0
    else
      var front, last := calls[..|calls| - 1], calls[|calls| - 1];
      ServedInSlot(c, front, name)
      + if Counts(c, last, name) && !Fails(c, StoreAfter(c, front), last) && Decide(c, StoreAfter(c, front), last).1 then 1 else 0
  }

  lemma {:induction false} SlotBound(c: Config, calls: seq<Call>, name: (string, int))
    requires ValidConfig(c)
    ensures ServedInSlot(c, calls, name) <= c.maxRequests
    ensures ServedInSlot(c, calls, name) <= Increments(c, calls, name)
  {
    if calls != [] {
      var front, last := calls[..|calls| - 1], calls[|calls| - 1];
      SlotBound(c, front, name);
      if Counts(c, last, name) && !Fails(c, StoreAfter(c, front), last) {
        ServedDecision(c, front, last);
      }
      hide Decide;
      hide Fails;
    }
  }

  lemma ServedDecision(c: Config, calls: seq<Call>, call: Call)
    requires ValidConfig(c) && !Fails(c, StoreAfter(c, calls), call)
    ensures Decide(c, StoreAfter(c, calls), call).1 <==>
            Increments(c, calls, (call.key, Slot(c, call.at))) + 1 <= c.maxRequests
  {
    AllowedIffWithinWindowCount(c, calls, call.(fate := Works));
    hide Slot;
    hide StoreAfter;
    hide Increments;
  }

  predicate Between(call: Call, key: string, from: real, to: real) {
    call.key == key && from <= call.at <= to
  }

  /** The allowed calls on the key in a closed interval. */
  function AllowedBetween(c: Config, calls: seq<Call>, key: string, from: real, to: real): nat
    requires ValidConfig(c)
  {
    if calls == [] then 0
    else
      var front, last := calls[..|calls| - 1], calls[|calls| - 1];
      AllowedBetween(c, front, key, from, to)
      + if Between(last, key, from, to) && Decide(c, StoreAfter(c, front), last).1 then 1 else 0
  }

  /** The calls on the key in a closed interval during which a Redis command failed. */
  function FailuresBetween(c: Config, calls: seq<Call>, key: string, from: real, to: real): nat
    requires ValidConfig(c)
  {
    if calls == [] then 0
    else
      var front, last := calls[..|calls| - 1], calls[|calls| - 1];
      FailuresBetween(c, front, key, from, to)
      + if Between(last, key, from, to) && Fails(c, StoreAfter(c, front), last) then 1 else 0
  }

  lemma TwoSlots(c: Config, from: real, at: real)
    requires ValidConfig(c) && from <= at <= from + c.window
    ensures Slot(c, at) == Slot(c, from) || Slot(c, at) == Slot(c, from) + 1
  {
    hide Slot;
    hide SlotStart;
    SlotBounds(c, from);
    SlotBounds(c, at);
    var a, b := Slot(c, from), Slot(c, at);
    NextSlot(c, a + 1);
    if b < a {
      SlotOrder(c, b + 1, a);
    }
    if b > a + 1 {
      SlotOrder(c, a + 2, b);
    }
  }

  lemma FailedDecision(c: Config, store: Store, call: Call)
    requires ValidConfig(c) && Fails(c, store, call)
    ensures Decide(c, store, call).1 == !c.failClosed
  {
    hide Slot;
  }

  lemma {:induction false} IntervalSplits(c: Config, calls: seq<Call>, key: string, from: real)
    requires ValidConfig(c)
    ensures var to, slot := from + c.window, Slot(c, from);
            AllowedBetween(c, calls, key, from, to) <=
            ServedInSlot(c, calls, (key, slot)) + ServedInSlot(c, calls, (key, slot + 1))
            + if c.failClosed then 0 else FailuresBetween(c, calls, key, from, to)
  {
    hide Slot;
    hide Decide;
    hide Fails;
    if calls != [] {
      var front, last := calls[..|calls| - 1], calls[|calls| - 1];
      IntervalSplits(c, front, key, from);
      if Between(last, key, from, from + c.window) {
        TwoSlots(c, from, last.at);
        var store := StoreAfter(c, front);
        if Fails(c, store, last) {
          FailedDecision(c, store, last);
        } else {
          ServedCounts(c, store, last);
        }
      }
    }
  }

  lemma ServedCounts(c: Config, store: Store, call: Call)
    requires ValidConfig(c) && !Fails(c, store, call)
    ensures Counts(c, call, (call.key, Slot(c, call.at)))
  {
  }

  /** A closed interval of window length holds at most twice max allowed calls of a key; failing open adds at most
      the calls that met a Redis failure. */
  lemma TwiceTheLimit(c: Config, calls: seq<Call>, key: string, from: real)
    requires ValidConfig(c)
    ensures var to := from + c.window;
            AllowedBetween(c, calls, key, from, to) <=
            2 * c.maxRequests + if c.failClosed then 0 else FailuresBetween(c, calls, key, from, to)
  {
    hide Slot;
    hide ServedInSlot;
    hide AllowedBetween;
    hide FailuresBetween;
    IntervalSplits(c, calls, key, from);
    SlotBound(c, calls, (key, Slot(c, from)));
    SlotBound(c, calls, (key, Slot(c, from) + 1));
  }

  // ----- the sliding window that the documentation speaks of -----

  /** The clock does not run backwards. */
  ghost predicate InOrder(calls: seq<Call>) {
    forall i, j :: 0 <= i <= j < |calls| ==> calls[i].at <= calls[j].at
  }

  /** The same call made n times. */
  function Repeated(call: Call, n: nat): (calls: seq<Call>)
    ensures |calls| == n && forall i :: 0 <= i < n ==> calls[i] == call
  {
    seq(n, i => call)
  }

  /** As long as the window has room, every repetition of a call in the interval is counted and allowed. */
  lemma {:induction false} RepetitionsAreAllowed(c: Config, calls: seq<Call>, call: Call, n: nat, from: real, to: real)
    requires ValidConfig(c) && call.fate.Works? && Between(call, call.key, from, to)
    requires Increments(c, calls, (call.key, Slot(c, call.at))) + n <= c.maxRequests
    ensures AllowedBetween(c, calls + Repeated(call, n), call.key, from, to) == AllowedBetween(c, calls, call.key, from, to) + n
    ensures forall name :: Increments(c, calls + Repeated(call, n), name) ==
              Increments(c, calls, name) + if name == (call.key, Slot(c, call.at)) then n else 0
  {
    hide Slot, Increments, AllowedBetween;
    var all := calls + Repeated(call, n);
    if n == 0 {
      assert all == calls;
    } else {
      var front := calls + Repeated(call, n - 1);
      assert all == front + [call];
      RepetitionsAreAllowed(c, calls, call, n - 1, from, to);
      OneMoreCall(c, front, call, from, to);
    }
  }

  lemma OneMoreCall(c: Config, calls: seq<Call>, call: Call, from: real, to: real)
    requires ValidConfig(c) && call.fate.Works? && Between(call, call.key, from, to)
    ensures AllowedBetween(c, calls + [call], call.key, from, to) == AllowedBetween(c, calls, call.key, from, to)
              + if Increments(c, calls, (call.key, Slot(c, call.at))) < c.maxRequests then 1 else 0
    ensures forall name :: Increments(c, calls + [call], name) ==
              Increments(c, calls, name) + if name == (call.key, Slot(c, call.at)) then 1 else 0
  {
    hide Slot, Decide;
    assert (calls + [call])[..|calls|] == calls;
    AllowedIffWithinWindowCount(c, calls, call);
  }

  /** As many calls as the limit at `from`, then as many at `to`. */
  function TwoBursts(c: Config, key: string, from: real, to: real): seq<Call> {
    Repeated(Call(key, from, Works), c.maxRequests) + Repeated(Call(key, to, Works), c.maxRequests)
  }

  lemma NoCalls(c: Config, key: string, from: real, to: real)
    requires ValidConfig(c)
    ensures AllowedBetween(c, [], key, from, to) == 0
    ensures forall name :: Increments(c, [], name) == 0
  {
  }

  /** When the interval touches two windows, two bursts are allowed in full. */
  lemma TwoBurstsAreAllowed(c: Config, key: string, from: real, to: real)
    requires ValidConfig(c) && from <= to && Slot(c, from) != Slot(c, to)
    ensures InOrder(TwoBursts(c, key, from, to))
    ensures AllowedBetween(c, TwoBursts(c, key, from, to), key, from, to) == 2 * c.maxRequests
  {
    hide Slot, AllowedBetween, Increments, Repeated;
    var first, second := Call(key, from, Works), Call(key, to, Works);
    var burst := Repeated(first, c.maxRequests);
    NoCalls(c, key, from, to);
    assert [] + burst == burst;
    RepetitionsAreAllowed(c, [], first, c.maxRequests, from, to);
    RepetitionsAreAllowed(c, burst, second, c.maxRequests, from, to);
  }

  /** The bound of twice the limit is tight for every configuration and every start of the interval. */
  lemma TwiceTheLimitIsReached(c: Config, key: string, from: real)
    requires ValidConfig(c)
    ensures exists calls :: InOrder(calls) && AllowedBetween(c, calls, key, from, from + c.window) == 2 * c.maxRequests
  {
    hide Slot, AllowedBetween, TwoBursts;
    LaterSlot(c, from);
    TwoBurstsAreAllowed(c, key, from, from + c.window);
  }

  lemma LaterSlot(c: Config, from: real)
    requires ValidConfig(c)
    ensures Slot(c, from) != Slot(c, from + c.window)
  {
    hide Slot, SlotStart;
    SlotBounds(c, from);
    SlotBounds(c, from + c.window);
    NextSlot(c, Slot(c, from));
  }

  lemma SameSlot(c: Config, from: real, at: real, to: real)
    requires ValidConfig(c) && from <= at <= to && Slot(c, from) == Slot(c, to)
    ensures Slot(c, at) == Slot(c, from)
  {
    hide Slot, SlotStart;
    SlotBounds(c, from);
    SlotBounds(c, at);
    SlotBounds(c, to);
    if Slot(c, at) < Slot(c, from) {
      SlotOrder(c, Slot(c, at) + 1, Slot(c, from));
    }
    if Slot(c, at) > Slot(c, to) {
      SlotOrder(c, Slot(c, to) + 1, Slot(c, at));
    }
  }

  /** Within one window all allowed calls are served ones of that window. */
  lemma {:induction false} OneSlotInterval(c: Config, calls: seq<Call>, key: string, from: real, to: real)
    requires ValidConfig(c) && c.failClosed && Slot(c, from) == Slot(c, to)
    ensures AllowedBetween(c, calls, key, from, to) <= ServedInSlot(c, calls, (key, Slot(c, from)))
  {
    hide Slot, Decide, Fails;
    if calls != [] {
      var front, last := calls[..|calls| - 1], calls[|calls| - 1];
      OneSlotInterval(c, front, key, from, to);
      if Between(last, key, from, to) {
        SameSlot(c, from, last.at, to);
        if Fails(c, StoreAfter(c, front), last) {
          FailedDecision(c, StoreAfter(c, front), last);
        } else {
          ServedCounts(c, StoreAfter(c, front), last);
        }
      }
    }
  }

  /** With a limit of zero nothing passes. */
  lemma {:induction false} NothingPasses(c: Config, calls: seq<Call>, key: string, from: real, to: real)
    requires ValidConfig(c) && c.failClosed && c.maxRequests == 0
    ensures AllowedBetween(c, calls, key, from, to) == 0
  {
    hide Slot;
    if calls != [] {
      NothingPasses(c, calls[..|calls| - 1], key, from, to);
    }
  }

  /** What a sliding window promises for an interval: at most max allowed calls of the key, in every run. */
  ghost predicate SlidingPromise(c: Config, key: string, from: real, to: real)
    requires ValidConfig(c)
  {
    forall calls :: InOrder(calls) ==> AllowedBetween(c, calls, key, from, to) <= c.maxRequests
  }

  /** A limiter that fails open lets any number of failing calls through. */
  lemma {:induction false} FailuresPass(c: Config, key: string, at: real, n: nat, from: real, to: real)
    requires ValidConfig(c) && !c.failClosed && from <= at <= to
    ensures AllowedBetween(c, Repeated(Call(key, at, IncrFails), n), key, from, to) == n
  {
    var all := Repeated(Call(key, at, IncrFails), n);
    if n > 0 {
      assert all[..n - 1] == Repeated(Call(key, at, IncrFails), n - 1);
      FailuresPass(c, key, at, n - 1, from, to);
    }
  }

  /** The sliding-window promise holds for an interval exactly when the limiter fails closed and the interval lies in one
      aligned window, or nothing is ever allowed. */
  lemma SlidingPromiseIff(c: Config, key: string, from: real, to: real)
    requires ValidConfig(c) && from <= to
    ensures SlidingPromise(c, key, from, to) <==> c.failClosed && (Slot(c, from) == Slot(c, to) || c.maxRequests == 0)
  {
    hide Slot, AllowedBetween, ServedInSlot, TwoBursts, Repeated;
    if !c.failClosed {
      var flood := Repeated(Call(key, from, IncrFails), c.maxRequests + 1);
      FailuresPass(c, key, from, c.maxRequests + 1, from, to);
      assert InOrder(flood);
    } else if c.maxRequests == 0 {
      forall calls | InOrder(calls) ensures AllowedBetween(c, calls, key, from, to) <= c.maxRequests {
        NothingPasses(c, calls, key, from, to);
      }
    } else if Slot(c, from) == Slot(c, to) {
      forall calls | InOrder(calls) ensures AllowedBetween(c, calls, key, from, to) <= c.maxRequests {
        OneSlotInterval(c, calls, key, from, to);
        SlotBound(c, calls, (key, Slot(c, from)));
      }
    } else {
      TwoBurstsAreAllowed(c, key, from, to);
    }
  }
}
