/**
 Command ids.  Ids that the service derives are always fresh; for supplied ones, exactly when a key keeps its command and
 exactly when a command can be claimed twice.
 */
module LaneIds {
  import opened Options
  import opened Dicts
  import opened LaneModels
  import opened LaneSpec
  import opened LaneRuns

  // ----- runs in which the service derives every id -----

  /** Every enqueue of the run leaves the command id and the status to the service. */
  ghost predicate Ordinary(op: Op) {
    op.DoEnqueue? ==> LeavesIdAndStatus(op.payload)
  }

  ghost predicate OrdinaryRun(ops: seq<Op>) {
    forall i :: 0 <= i < |ops| ==> Ordinary(ops[i])
  }

  /** Every stored command has the id that its own fields name. */
  ghost predicate IdsDerived(commands: Dict<CommandId, Command>) {
    forall id :: id in commands.entries ==> id == Derived(MaterialOf(commands.entries[id].body))
  }

  /** The derived id of an unseen key is unused. */
  lemma DerivedIdIsFree(s: Lane, b: CommandBody)
    requires Invariant(s) && IdsDerived(s.commands) && KeyOf(b) !in s.index
    ensures !s.commands.Has(Derived(MaterialOf(b)))
  {
    hide CommandValid, StoresValid;
    var id := Derived(MaterialOf(b));
    assert s.commands.Has(id) ==> CommandSound(s, id);
  }

  lemma OrdinaryIsFresh(s: Lane, op: Op)
    requires Invariant(s) && IdsDerived(s.commands) && Ordinary(op)
    ensures Fresh(s, op)
  {
    hide Invariant, Admissible, KeyOf, MaterialOf;
    if op.DoEnqueue? && Stores(s, op.payload) {
      DerivedIdIsFree(s, op.payload.body);
    }
  }

  lemma EffectKeepsDerived(commands: Dict<CommandId, Command>, effect: Effect)
    requires IdsDerived(commands) && Legal(commands, effect)
    requires effect.Accepts? ==> effect.command.id == Derived(MaterialOf(effect.command.body))
    requires forall id :: id in commands.entries ==> commands.entries[id].id == id
    ensures IdsDerived(Applied(commands, effect))
  {
    hide CommandValid, MaterialOf;
  }

  lemma OrdinaryKeepsDerived(s: Lane, op: Op)
    requires Invariant(s) && IdsDerived(s.commands) && Ordinary(op)
    ensures StoresValid(s) && IdsDerived(Step(s, op).commands)
  {
    hide Invariant, IdsDerived, StoresValid, Fresh, Legal, Applied, MaterialOf, Admissible, KeyOf, Step;
    OrdinaryIsFresh(s, op);
    FreshStepIsLegal(s, op);
    SoundIdsMatch(s);
    if !op.DoEnqueue? {
      ProgressIsLegal(s, op);
    }
    EffectKeepsDerived(s.commands, EffectOf(s, op));
  }

  lemma {:induction false} OrdinaryRunKeepsDerived(s: Lane, ops: seq<Op>)
    requires Invariant(s) && StoresValid(s) && IdsDerived(s.commands) && OrdinaryRun(ops)
    ensures FreshRun(s, ops) && IdsDerived(Run(s, ops).commands)
  {
    hide Invariant, IdsDerived, Fresh, Step, Ordinary, StoresValid;
    if ops != [] {
      var front, last := ops[..|ops| - 1], ops[|ops| - 1];
      OrdinaryRunKeepsDerived(s, front);
      RunKeepsInvariant(s, front);
      OrdinaryIsFresh(Run(s, front), last);
      OrdinaryKeepsDerived(Run(s, front), last);
    }
  }

  /** When no caller supplies an id or a status, every run is fresh. */
  lemma OrdinaryRunsAreFresh(maxReports: Option<nat>, maxSessions: Option<nat>, ops: seq<Op>)
    requires OrdinaryRun(ops)
    ensures FreshRun(Initial(maxReports, maxSessions), ops)
  {
    hide Invariant;
    InitialInvariant(maxReports, maxSessions);
    OrdinaryRunKeepsDerived(Initial(maxReports, maxSessions), ops);
  }

  // ----- ownership, with any ids -----

  ghost predicate Ownership(s: Lane) {
    forall key :: key in s.index ==> KeySound(s, key)
  }

  /** The id already belongs to another key. */
  ghost predicate IdTaken(s: Lane, id: CommandId) {
    exists key :: key in s.index && s.index[key] == id
  }

  /** The operation stores a command under an id that another key owns. */
  ghost predicate TakesAnId(s: Lane, op: Op) {
    op.DoEnqueue? && Stores(s, op.payload) && IdTaken(s, Build(op.payload).id)
  }

  /** With an id supplied by the caller, enqueueing takes a command away from its key exactly when a new key
      arrives with an id that another key owns. */
  lemma OwnershipKeptIffIdFree(s: Lane, payload: CommandPayload)
    requires Ownership(s)
    ensures Ownership(Enqueue(s, payload).0) <==> !TakesAnId(s, DoEnqueue(payload))
  {
    hide Admissible;
    var s', c := Enqueue(s, payload).0, Build(payload);
    if Stores(s, payload) {
      if IdTaken(s, c.id) {
        var key :| key in s.index && s.index[key] == c.id;
        assert !KeySound(s', key);
      } else {
        forall key | key in s'.index ensures KeySound(s', key) {
          assert key in s.index ==> KeySound(s, key);
        }
      }
    }
  }

  /** Nothing but an enqueue changes keys or the content of a command. */
  lemma OthersKeepOwnership(s: Lane, op: Op)
    requires StoresValid(s) && IdsMatch(s) && Ownership(s) && !op.DoEnqueue?
    ensures Ownership(Step(s, op))
  {
    hide StoresValid, Step, EffectOf, KeyOf, CommandValid;
    StepIsItsEffect(s, op);
    ProgressIsLegal(s, op);
    OthersKeepIndex(s, op);
    var s' := Step(s, op);
    forall key | key in s'.index ensures KeySound(s', key) {
      assert KeySound(s, key);
    }
  }

  lemma OthersKeepIndex(s: Lane, op: Op)
    requires StoresValid(s) && !op.DoEnqueue?
    ensures Step(s, op).index == s.index
  {
    hide StoresValid, FirstQueued, ReportValid, Evicted, ProfileValid;
  }

  lemma StepKeepsIdsMatch(s: Lane, op: Op)
    requires StoresValid(s) && IdsMatch(s)
    ensures IdsMatch(Step(s, op))
  {
    hide StoresValid, Step, EffectOf;
    StepIsItsEffect(s, op);
  }

  lemma {:induction false} RunKeepsIdsMatch(s: Lane, ops: seq<Op>)
    requires StoresValid(s) && IdsMatch(s)
    ensures IdsMatch(Run(s, ops))
  {
    hide StoresValid, IdsMatch, Step;
    if ops != [] {
      RunKeepsIdsMatch(s, ops[..|ops| - 1]);
      StepKeepsIdsMatch(Run(s, ops[..|ops| - 1]), ops[|ops| - 1]);
    }
  }

  ghost predicate NoIdTaken(s: Lane, ops: seq<Op>)
    requires StoresValid(s)
  {
    ops == [] || (NoIdTaken(s, ops[..|ops| - 1]) && !TakesAnId(Run(s, ops[..|ops| - 1]), ops[|ops| - 1]))
  }

  /** Every key owns its command throughout the run. */
  ghost predicate OwnedThroughout(s: Lane, ops: seq<Op>)
    requires StoresValid(s)
  {
    forall k :: 0 <= k <= |ops| ==> Ownership(Run(s, ops[..k]))
  }

  lemma ThroughoutStep(s: Lane, ops: seq<Op>)
    requires StoresValid(s) && ops != []
    ensures OwnedThroughout(s, ops) <==> OwnedThroughout(s, ops[..|ops| - 1]) && Ownership(Run(s, ops))
  {
    hide Run, Ownership;
    var front := ops[..|ops| - 1];
    assert forall k :: 0 <= k <= |front| ==> front[..k] == ops[..k];
    assert ops[..|ops|] == ops;
  }

  /** For any run and any ids: every key owns its command throughout iff no operation stored a command under an id that
      another key owned. */
  lemma {:induction false} OwnershipIff(s: Lane, ops: seq<Op>)
    requires StoresValid(s) && IdsMatch(s) && Ownership(s)
    ensures OwnedThroughout(s, ops) <==> NoIdTaken(s, ops)
  {
    hide Ownership, TakesAnId, StoresValid, IdsMatch, Step;
    if ops == [] {
      assert ops[..0] == [];
    } else {
      var front, last := ops[..|ops| - 1], ops[|ops| - 1];
      OwnershipIff(s, front);
      ThroughoutStep(s, ops);
      RunKeepsIdsMatch(s, front);
      if OwnedThroughout(s, front) {
        assert front[..|front|] == front;
        OwnershipStep(Run(s, front), last);
      }
    }
  }

  lemma OwnershipStep(s: Lane, op: Op)
    requires StoresValid(s) && IdsMatch(s) && Ownership(s)
    ensures Ownership(Step(s, op)) <==> !TakesAnId(s, op)
  {
    hide Ownership, IdTaken, StoresValid, IdsMatch, Enqueue, Stores;
    if op.DoEnqueue? {
      OwnershipKeptIffIdFree(s, op.payload);
    } else {
      OthersKeepOwnership(s, op);
    }
  }

  // ----- claims, with any ids -----

  /** The operation puts a command that was claimed before back in the queue. */
  ghost predicate Requeues(s: Lane, effects: seq<Effect>, op: Op) {
    op.DoEnqueue? && Stores(s, op.payload) && op.payload.status.Queued? && ClaimTimes(effects, Build(op.payload).id) > 0
  }

  ghost predicate NothingRequeued(s: Lane, ops: seq<Op>)
    requires StoresValid(s)
  {
    ops == [] || (var front := ops[..|ops| - 1];
                  NothingRequeued(s, front) && !Requeues(Run(s, front), Effects(s, front), ops[|ops| - 1]))
  }

  /** No id was claimed twice, and none that was claimed is queued. */
  ghost predicate ClaimedOnce(commands: Dict<CommandId, Command>, effects: seq<Effect>) {
    forall id :: ClaimTimes(effects, id) <= 1 && (ClaimTimes(effects, id) > 0 ==> !IsQueued(commands, id))
  }

  predicate IsQueued(commands: Dict<CommandId, Command>, id: CommandId) {
    commands.Has(id) && commands.entries[id].status.Queued?
  }

  lemma ClaimTimesStep(effects: seq<Effect>, effect: Effect, id: CommandId)
    ensures ClaimTimes(effects + [effect], id) == ClaimTimes(effects, id) + if effect.Claims? && effect.command.id == id then 1 else 0
  {
    assert (effects + [effect])[..|effects|] == effects;
  }

  lemma ClaimedOnceStep(s: Lane, effects: seq<Effect>, op: Op)
    requires StoresValid(s) && IdsMatch(s) && ClaimedOnce(s.commands, effects) && !Requeues(s, effects, op)
    ensures ClaimedOnce(Step(s, op).commands, effects + [EffectOf(s, op)])
  {
    hide StoresValid, Step, ClaimTimes, CommandValid, Admissible, ReportValid, FirstQueued, KeyOf;
    StepIsItsEffect(s, op);
    var effect := EffectOf(s, op);
    if !op.DoEnqueue? {
      ProgressIsLegal(s, op);
      hide EffectOf;
    }
    forall id ensures ClaimTimes(effects + [effect], id) == ClaimTimes(effects, id) + if effect.Claims? && effect.command.id == id then 1 else 0 {
      ClaimTimesStep(effects, effect, id);
    }
  }

  lemma {:induction false} ClaimedOnceRun(s: Lane, ops: seq<Op>)
    requires StoresValid(s) && IdsMatch(s) && NothingRequeued(s, ops)
    ensures ClaimedOnce(Run(s, ops).commands, Effects(s, ops))
  {
    hide StoresValid, IdsMatch, ClaimedOnce, Step, Requeues, EffectOf;
    if ops == [] {
      NothingClaimed(s.commands);
    } else {
      var front := ops[..|ops| - 1];
      ClaimedOnceRun(s, front);
      RunKeepsIdsMatch(s, front);
      ClaimedOnceStep(Run(s, front), Effects(s, front), ops[|ops| - 1]);
    }
  }

  lemma NothingClaimed(commands: Dict<CommandId, Command>)
    ensures ClaimedOnce(commands, [])
  {
  }

  /** Whatever is claimed next is claimed for the first time. */
  ghost predicate NextClaimIsFirst(s: Lane, ops: seq<Op>)
    requires StoresValid(s)
  {
    forall id, worker, now :: ClaimTimes(Effects(s, ops + [DoClaim(id, worker, now)]), id) <= 1
  }

  lemma NextClaim(s: Lane, ops: seq<Op>, id: CommandId, worker: string, now: string)
    requires StoresValid(s) && IdsMatch(s)
    ensures ClaimTimes(Effects(s, ops + [DoClaim(id, worker, now)]), id) ==
            ClaimTimes(Effects(s, ops), id) + if IsQueued(Run(s, ops).commands, id) then 1 else 0
  {
    hide StoresValid, Run, ClaimTimes;
    var all := ops + [DoClaim(id, worker, now)];
    assert all[..|all| - 1] == ops;
    RunKeepsIdsMatch(s, ops);
    assert Effects(s, all) == Effects(s, ops) + [ClaimEffect(Run(s, ops), id, worker, now)];
    ClaimTimesStep(Effects(s, ops), ClaimEffect(Run(s, ops), id, worker, now), id);
  }

  /** A command that is put back in the queue after a claim can be claimed a second time. */
  lemma RequeuedIsClaimedAgain(s: Lane, ops: seq<Op>)
    requires StoresValid(s) && IdsMatch(s) && ops != []
    requires Requeues(Run(s, ops[..|ops| - 1]), Effects(s, ops[..|ops| - 1]), ops[|ops| - 1])
    ensures !NextClaimIsFirst(s, ops)
  {
    hide StoresValid, ClaimTimes, Admissible, KeyOf, IdsMatch, NextClaimIsFirst;
    var front, last := ops[..|ops| - 1], ops[|ops| - 1];
    var id := Build(last.payload).id;
    ClaimTimesStep(Effects(s, front), EffectOf(Run(s, front), last), id);
    assert IsQueued(Run(s, ops).commands, id);
    NextClaim(s, ops, id, "", "");
    SecondClaim(s, ops, id);
  }

  lemma SecondClaim(s: Lane, ops: seq<Op>, id: CommandId)
    requires StoresValid(s) && ClaimTimes(Effects(s, ops + [DoClaim(id, "", "")]), id) > 1
    ensures !NextClaimIsFirst(s, ops)
  {
    hide Effects, ClaimTimes, StoresValid;
  }

  /** For any run and any ids: at every point of the run the next claim of every command is its first, iff no operation
      put a claimed command back in the queue by storing another one under its id. */
  lemma {:induction false} ClaimedOnceIff(s: Lane, ops: seq<Op>)
    requires StoresValid(s) && IdsMatch(s)
    ensures (forall k :: 0 <= k <= |ops| ==> NextClaimIsFirst(s, ops[..k])) <==> NothingRequeued(s, ops)
  {
    hide StoresValid, IdsMatch, Requeues, NextClaimIsFirst, Run, Effects;
    assert ops[..|ops|] == ops;
    if ops != [] {
      var front := ops[..|ops| - 1];
      assert forall k :: 0 <= k <= |front| ==> front[..k] == ops[..k];
      ClaimedOnceIff(s, front);
      if Requeues(Run(s, front), Effects(s, front), ops[|ops| - 1]) {
        RequeuedIsClaimedAgain(s, ops);
      }
    }
    if NothingRequeued(s, ops) {
      FirstClaims(s, ops);
    }
  }

  lemma FirstClaims(s: Lane, ops: seq<Op>)
    requires StoresValid(s) && IdsMatch(s) && NothingRequeued(s, ops)
    ensures NextClaimIsFirst(s, ops)
  {
    hide StoresValid, IdsMatch, ClaimTimes, Effects, Run, NothingRequeued;
    ClaimedOnceRun(s, ops);
    forall id, worker, now ensures ClaimTimes(Effects(s, ops + [DoClaim(id, worker, now)]), id) <= 1 {
      NextClaim(s, ops, id, worker, now);
    }
  }

  function PaperProfile(): Profile {
    Profile("t", "p", "r", Paper, false, Some("x"), Some("x"), None, false, false, true, true, true, false, false, false,
            None, None, None, None, None, None, None, None, None, true)
  }

  function PaperPayload(key: string): CommandPayload {
    CommandPayload(Some(Given("cmd")), Queued,
                   CommandBody("t", "p", "r", Paper, "x", "x", None, "a", "e", key, "l", "v",
                               None, None, None, true, None, None, None, None, None, false, false, false, None, true))
  }

  /** Two enqueues with one supplied id: two keys are accepted but only one command is stored. */
  lemma SuppliedIdLosesACommand()
    ensures var s1 := RegisterProfile(Initial(None, None), PaperProfile(), true).0;
            var s2 := Enqueue(s1, PaperPayload("k1")).0;
            var s3 := Enqueue(s2, PaperPayload("k2")).0;
            && s2.commands.keys == [Given("cmd")] && |s2.index| == 1 && Ownership(s2)
            && s3.commands.keys == [Given("cmd")] && |s3.index| == 2 && !Ownership(s3)
  {
    var b1, b2 := PaperPayload("k1").body, PaperPayload("k2").body;
    assert "k1"[1] != "k2"[1];
    assert ProfileValid(PaperProfile()) && CommandValid(b1) && CommandValid(b2);
    assert ProfileMatches(PaperProfile(), b1) && ProfileMatches(PaperProfile(), b2);
    hide CommandValid;
    hide ProfileValid;
    hide ProfileMatches;
    var s1 := RegisterProfile(Initial(None, None), PaperProfile(), true).0;
    assert s1.profiles == map["r" := PaperProfile()];
    var s2 := Enqueue(s1, PaperPayload("k1")).0;
    assert s2.index == map[KeyOf(b1) := Given("cmd")];
    var s3 := Enqueue(s2, PaperPayload("k2")).0;
    assert s3.index == map[KeyOf(b1) := Given("cmd"), KeyOf(b2) := Given("cmd")];
    assert !KeySound(s3, KeyOf(b1));
  }

  /** Claimed, stored again under another key with the same id, and claimed once more. */
  lemma SuppliedIdIsClaimedTwice()
    ensures !NextClaimIsFirst(Initial(None, None),
                              [DoRegister(PaperProfile(), true)] + [DoEnqueue(PaperPayload("k1"))]
                              + [DoClaim(Given("cmd"), "w", "t")] + [DoEnqueue(PaperPayload("k2"))])
  {
    hide CommandValid, ProfileValid, ProfileMatches, Run, Effects, ClaimTimes, NextClaimIsFirst;
    var register, first := DoRegister(PaperProfile(), true), DoEnqueue(PaperPayload("k1"));
    var claim, second := DoClaim(Given("cmd"), "w", "t"), DoEnqueue(PaperPayload("k2"));
    var ops1, ops2 := [register], [register] + [first];
    var ops3 := ops2 + [claim];
    var ops := ops3 + [second];
    var s0 := Initial(None, None);
    SamplesAreAdmissible();
    NoOps(s0);
    assert ops1 == [] + [register] && ops[..|ops| - 1] == ops3;
    RunAppends(s0, [], register);
    RunAppends(s0, ops1, first);
    RunAppends(s0, ops2, claim);
    assert Run(s0, ops2).commands.Has(Given("cmd"));
    ClaimTimesStep(Effects(s0, ops2), EffectOf(Run(s0, ops2), claim), Given("cmd"));
    assert ClaimTimes(Effects(s0, ops3), Given("cmd")) > 0;
    assert Run(s0, ops3).index == map[KeyOf(PaperPayload("k1").body) := Given("cmd")];
    assert "k1"[1] != "k2"[1];
    RequeuedIsClaimedAgain(s0, ops);
  }

  lemma SamplesAreAdmissible()
    ensures ProfileValid(PaperProfile())
    ensures forall key :: key != "" ==> CommandValid(PaperPayload(key).body) && ProfileMatches(PaperProfile(), PaperPayload(key).body)
  {
  }

  lemma NoOps(s: Lane)
    requires StoresValid(s)
    ensures Run(s, []) == s && Effects(s, []) == []
  {
  }

  lemma RunAppends(s: Lane, ops: seq<Op>, op: Op)
    requires StoresValid(s)
    ensures Run(s, ops + [op]) == Step(Run(s, ops), op)
    ensures Effects(s, ops + [op]) == Effects(s, ops) + [EffectOf(Run(s, ops), op)]
  {
    hide Step, EffectOf, StoresValid;
    assert (ops + [op])[..|ops|] == ops;
  }
}
