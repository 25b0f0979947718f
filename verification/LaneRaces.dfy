/**
 Fresh runs of threads and service operations: every command is claimed, and its session started, at most once exactly
 as long as no other claim of a command falls between a thread's check and its write.
 */
module LaneRaces {
  import opened Options
  import opened Dicts
  import opened LaneModels
  import opened LaneGates
  import opened LaneSpec
  import opened LaneRuns
  import opened LaneIds
  import opened LaneWorkers

  /** The command is still waiting for its first claim, or is not there at all. */
  ghost predicate Unclaimed(s: Lane, id: CommandId) {
    s.commands.Has(id) ==> s.commands.entries[id].status.Queued?
  }

  /** The counted claims account for every command that is not waiting, held or started. */
  ghost predicate Counted(sys: System, events: seq<Event>)
    requires StoresValid(sys.lane)
  {
    var now := RunEvents(sys, events);
    && (forall id :: Unclaimed(now.lane, id) ==> Writes(sys, events, id) == 0)
    && (forall t, id :: Holds(now, t, id) ==> Writes(sys, events, id) > 0)
    && (forall i :: 0 <= i < |now.started| ==> Writes(sys, events, now.started[i]) > 0)
  }

  lemma OneMoreWrite(sys: System, events: seq<Event>, e: Event, id: CommandId)
    requires StoresValid(sys.lane)
    ensures Writes(sys, events + [e], id) == Writes(sys, events, id) + if WritesClaim(RunEvents(sys, events), e, id) then 1 else 0
  {
    hide StoresValid, WritesClaim, RunEvents;
    assert (events + [e])[..|events|] == events;
  }

  /** After a fresh step, a command that is not claimed was not claimed before and is not claimed by the step. */
  lemma UnclaimedBefore(sys: System, e: Event, id: CommandId)
    requires SystemInvariant(sys) && FreshEvent(sys, e) && StoresValid(sys.lane)
    requires Unclaimed(Next(sys, e).lane, id)
    ensures Unclaimed(sys.lane, id) && !WritesClaim(sys, e, id)
  {
    hide SystemInvariant, StoresValid, MayStart, Stores;
    match e
    case Service(op) => UnclaimedOperation(sys, op, id);
    case WriteClaim(t) =>
      if At(sys, t).Checked? {
        hide Claim, RecordReport, RecordSession, Step;
        WriteClaims(sys, t, id);
      }
    case KeepSession(t) =>
      hide RecordReport, Claim, Evicted;
    case ReportStart(t, payload) =>
      hide RecordSession, Claim;
      if At(sys, t).Kept? {
        UnclaimedOperation(sys, DoReport(At(sys, t).session.commandId, payload), id);
      }
    case _ =>
      hide RecordSession, RecordReport, Claim, Step;
  }

  lemma WriteClaims(sys: System, t: nat, id: CommandId)
    requires SystemInvariant(sys) && At(sys, t).Checked? && Unclaimed(Written(sys.lane, At(sys, t).copy), id)
    ensures Unclaimed(sys.lane, id) && At(sys, t).copy.id != id
  {
    hide Invariant;
    assert ThreadSound(sys, t);
  }

  lemma UnclaimedOperation(sys: System, op: Op, id: CommandId)
    requires SystemInvariant(sys) && Fresh(sys.lane, op) && StoresValid(sys.lane)
    requires Unclaimed(Step(sys.lane, op), id)
    ensures Unclaimed(sys.lane, id) && !(EffectOf(sys.lane, op).Claims? && EffectOf(sys.lane, op).command.id == id)
  {
    hide SystemInvariant, Invariant, EffectOf, Step, CommandValid, Fresh;
    LaneIsSound(sys);
    FreshStepIsLegal(sys.lane, op);
    SoundIdsMatch(sys.lane);
  }

  /** A claim of the service takes a command that was waiting. */
  lemma ServiceClaims(s: Lane, op: Op)
    requires Invariant(s) && Fresh(s, op) && EffectOf(s, op).Claims?
    ensures Unclaimed(s, EffectOf(s, op).command.id)
  {
    hide Invariant, EffectOf, Step, CommandValid, Fresh, Applied;
    FreshStepIsLegal(s, op);
  }

  lemma NewHolder(sys: System, e: Event, t: nat, id: CommandId)
    requires StoresValid(sys.lane) && Holds(Next(sys, e), t, id)
    ensures Holds(sys, t, id) || WritesClaim(sys, e, id)
  {
    hide StoresValid, MayStart, Claim, RecordReport, RecordSession, Step, EffectOf;
  }

  lemma NewStart(sys: System, e: Event)
    requires StoresValid(sys.lane)
    ensures sys.started <= Next(sys, e).started
    ensures |Next(sys, e).started| <= |sys.started| + 1
    ensures |Next(sys, e).started| > |sys.started| ==> exists t :: Holds(sys, t, Next(sys, e).started[|sys.started|])
  {
    hide StoresValid, MayStart, Claim, RecordReport, RecordSession, Step;
    if e.Launch? && At(sys, e.thread).Holding? {
      assert Holds(sys, e.thread, Next(sys, e).started[|sys.started|]);
    }
  }

  lemma {:induction false} RunCounts(sys: System, events: seq<Event>)
    requires SystemInvariant(sys) && StoresValid(sys.lane) && FreshEvents(sys, events)
    requires sys.started == [] && forall t :: !At(sys, t).Holding?
    ensures Counted(sys, events)
  {
    hide SystemInvariant, StoresValid, Next, FreshEvent, WritesClaim, Unclaimed;
    if events != [] {
      var front, last := events[..|events| - 1], events[|events| - 1];
      RunCounts(sys, front);
      EventsKeepSystem(sys, front);
      var before, now := RunEvents(sys, front), RunEvents(sys, events);
      assert now == Next(before, last);
      forall id | Unclaimed(now.lane, id) ensures Writes(sys, events, id) == 0 {
        UnclaimedBefore(before, last, id);
      }
      forall t, id | Holds(now, t, id) ensures Writes(sys, events, id) > 0 {
        NewHolder(before, last, t, id);
      }
      NewStart(before, last);
      forall i | 0 <= i < |now.started| ensures Writes(sys, events, now.started[i]) > 0 {
        if i == |before.started| {
          var t :| Holds(before, t, now.started[i]);
        }
      }
    }
  }

  lemma {:induction false} FreshEventsPrefix(sys: System, events: seq<Event>, k: nat)
    requires StoresValid(sys.lane) && FreshEvents(sys, events) && k <= |events|
    ensures FreshEvents(sys, events[..k])
  {
    hide StoresValid, RunEvents, FreshEvent;
    if k < |events| {
      var front := events[..|events| - 1];
      assert front[..k] == events[..k];
      FreshEventsPrefix(sys, front, k);
    } else {
      assert events[..k] == events;
    }
  }

  ghost predicate Beginning(sys: System) {
    && SystemInvariant(sys) && StoresValid(sys.lane) && sys.started == []
    && forall t :: At(sys, t).Idle?
  }

  /** For a thread about to write, the command was claimed at all iff it was claimed since the thread's check. */
  lemma WriteBetweenIff(sys: System, events: seq<Event>, t: nat)
    requires Beginning(sys) && FreshEvents(sys, events) && At(RunEvents(sys, events), t).Checked?
    ensures WriteBetween(sys, events, t, At(RunEvents(sys, events), t).copy.id) <==>
            Writes(sys, events, At(RunEvents(sys, events), t).copy.id) > 0
  {
    hide SystemInvariant, StoresValid, RunEvents, FreshEvents, WritesClaim, Next;
    var id := At(RunEvents(sys, events), t).copy.id;
    if WriteBetween(sys, events, t, id) {
      var i, j :| CheckedSince(sys, events, t, i) && i < j < |events| && WritesClaim(RunEvents(sys, events[..j]), events[j], id);
      assert events[..j + 1] == events[..j] + [events[j]];
      OneMoreWrite(sys, events[..j], events[j], id);
      WritesGrow(sys, events, j + 1, id);
    }
    if Writes(sys, events, id) > 0 {
      var i := HasCheck(sys, events, t);
      FreshEventsPrefix(sys, events, i);
      EventsKeepSystem(sys, events[..i]);
      QueuedIsUncounted(sys, events[..i], t);
      WritesGrow(sys, events, i, id);
      var j :| i <= j < |events| && WritesClaim(RunEvents(sys, events[..j]), events[j], id);
      CheckIsNoWrite(RunEvents(sys, events[..i]), events[i], id);
      assert j != i;
    }
  }

  lemma CheckIsNoWrite(sys: System, e: Event, id: CommandId)
    ensures e.CheckClaim? ==> !WritesClaim(sys, e, id)
  {
  }

  lemma QueuedIsUncounted(sys: System, events: seq<Event>, t: nat)
    requires Beginning(sys) && FreshEvents(sys, events) && SystemInvariant(RunEvents(sys, events))
    requires At(RunEvents(sys, events), t).Planned? && IsQueued(RunEvents(sys, events).lane.commands, At(RunEvents(sys, events), t).id)
    ensures Writes(sys, events, At(RunEvents(sys, events), t).id) == 0
    ensures IdsMatch(RunEvents(sys, events).lane)
  {
    hide SystemInvariant, StoresValid, RunEvents, FreshEvents;
    RunCounts(sys, events);
    LaneIsSound(RunEvents(sys, events));
    SoundIdsMatch(RunEvents(sys, events).lane);
    assert Unclaimed(RunEvents(sys, events).lane, At(RunEvents(sys, events), t).id);
  }

  ghost predicate ClaimedOnceEach(sys: System, events: seq<Event>)
    requires StoresValid(sys.lane)
  {
    forall id :: Writes(sys, events, id) <= 1
  }

  /** One more event claims no command a second time iff it is no write that another claim preceded since the check. */
  lemma ClaimStep(sys: System, events: seq<Event>, e: Event)
    requires Beginning(sys) && FreshEvents(sys, events) && FreshEvent(RunEvents(sys, events), e) && ClaimedOnceEach(sys, events)
    ensures ClaimedOnceEach(sys, events + [e]) <==>
            (e.WriteClaim? && At(RunEvents(sys, events), e.thread).Checked? ==>
               !WriteBetween(sys, events, e.thread, At(RunEvents(sys, events), e.thread).copy.id))
  {
    hide SystemInvariant, StoresValid, RunEvents, FreshEvents, Next, WriteBetween, Writes, Fresh, EffectOf;
    var before := RunEvents(sys, events);
    forall id ensures Writes(sys, events + [e], id) == Writes(sys, events, id) + if WritesClaim(before, e, id) then 1 else 0 {
      OneMoreWrite(sys, events, e, id);
    }
    if e.WriteClaim? && At(before, e.thread).Checked? {
      WriteBetweenIff(sys, events, e.thread);
      assert WritesClaim(before, e, At(before, e.thread).copy.id);
    } else if e.Service? && EffectOf(before.lane, e.op).Claims? {
      EventsKeepSystem(sys, events);
      LaneIsSound(before);
      ServiceClaims(before.lane, e.op);
      RunCounts(sys, events);
    }
  }

  /** In every fresh run each command is claimed at most once throughout, iff no other claim of a command falls between a
      thread's check and its write. */
  lemma {:induction false} ClaimsOnceIff(sys: System, events: seq<Event>)
    requires Beginning(sys) && FreshEvents(sys, events)
    ensures (forall k :: 0 <= k <= |events| ==> ClaimedOnceEach(sys, events[..k])) <==> NoWriteBetween(sys, events)
    ensures NoWriteBetween(sys, events) ==> ClaimedOnceEach(sys, events)
  {
    hide SystemInvariant, StoresValid, FreshEvent, Next, WriteBetween, ClaimedOnceEach, RunEvents;
    assert events[..|events|] == events;
    if events == [] {
      NothingClaimedYet(sys);
    } else {
      var front, last := events[..|events| - 1], events[|events| - 1];
      ClaimsOnceIff(sys, front);
      assert front[..|front|] == front && events == front + [last];
      assert forall k :: 0 <= k <= |front| ==> front[..k] == events[..k];
      if NoWriteBetween(sys, front) {
        ClaimStep(sys, front, last);
      }
    }
  }

  lemma NothingClaimedYet(sys: System)
    requires StoresValid(sys.lane)
    ensures ClaimedOnceEach(sys, [])
  {
  }

  /** Without such writes, no thread takes a command that is committed. */
  lemma {:induction false} NoWriteBetweenNoSecondTake(sys: System, events: seq<Event>)
    requires Beginning(sys) && FreshEvents(sys, events) && NoWriteBetween(sys, events)
    ensures NoSecondTake(sys, events)
  {
    hide SystemInvariant, StoresValid, FreshEvent, Next, WriteBetween, Writes, RunEvents;
    if events != [] {
      var front, last := events[..|events| - 1], events[|events| - 1];
      NoWriteBetweenNoSecondTake(sys, front);
      RunCounts(sys, front);
      if last.WriteClaim? && At(RunEvents(sys, front), last.thread).Checked? {
        WriteBetweenIff(sys, front, last.thread);
      }
    }
  }

  function Begin(maxReports: Option<nat>, maxSessions: Option<nat>): System {
    System(Initial(maxReports, maxSessions), map[], [])
  }

  lemma BeginBegins(maxReports: Option<nat>, maxSessions: Option<nat>)
    ensures Beginning(Begin(maxReports, maxSessions)) && StartsApart(Begin(maxReports, maxSessions))
  {
    hide Invariant;
    InitialInvariant(maxReports, maxSessions);
    InvariantFacts(Initial(maxReports, maxSessions));
  }

  /** In every fresh run in which no other claim of a command falls between a check and its write, no command has its
      session started twice, every started command was claimed or reported, and none of them is live. */
  lemma SessionsStartAtMostOnce(maxReports: Option<nat>, maxSessions: Option<nat>, events: seq<Event>)
    requires FreshEvents(Begin(maxReports, maxSessions), events) && NoWriteBetween(Begin(maxReports, maxSessions), events)
    ensures var sys := RunEvents(Begin(maxReports, maxSessions), events);
            && Distinct(sys.started)
            && forall id :: id in sys.started ==>
                 && sys.lane.commands.Has(id) && !sys.lane.commands.entries[id].status.Queued?
                 && !CommandWantsLive(sys.lane.commands.entries[id].body)
  {
    hide RunEvents, FreshEvents, NoWriteBetween, NoSecondTake, Writes, Exclusive, Invariant, ThreadSound;
    var sys0 := Begin(maxReports, maxSessions);
    BeginBegins(maxReports, maxSessions);
    NoWriteBetweenNoSecondTake(sys0, events);
    StartsOnceIff(sys0, events);
    EventsKeepSystem(sys0, events);
    RunCounts(sys0, events);
    var sys := RunEvents(sys0, events);
    forall id | id in sys.started
      ensures sys.lane.commands.Has(id) && !sys.lane.commands.entries[id].status.Queued?
      ensures !CommandWantsLive(sys.lane.commands.entries[id].body)
    {
      var i :| 0 <= i < |sys.started| && sys.started[i] == id;
      assert PaperStored(sys.lane, sys.started[i]) && !Unclaimed(sys.lane, id);
      StoredCommandIsSound(sys.lane, id);
    }
  }

  // ----- claims that are not interrupted -----

  /** Every write follows its own check at once. */
  ghost predicate AtomicClaims(sys: System, events: seq<Event>)
    requires StoresValid(sys.lane)
  {
    events == [] || (var front, last := events[..|events| - 1], events[|events| - 1];
                     && AtomicClaims(sys, front)
                     && (last.WriteClaim? ==>
                           && front != [] && front[|front| - 1].CheckClaim? && front[|front| - 1].thread == last.thread
                           && At(RunEvents(sys, front[..|front| - 1]), last.thread).Planned?))
  }

  /** If claims are not interrupted, nothing falls between a check and its write. */
  lemma {:induction false} AtomicClaimsDoNotRace(sys: System, events: seq<Event>)
    requires StoresValid(sys.lane) && AtomicClaims(sys, events)
    ensures NoWriteBetween(sys, events)
  {
    hide StoresValid, RunEvents, WritesClaim;
    if events != [] {
      var front, last := events[..|events| - 1], events[|events| - 1];
      AtomicClaimsDoNotRace(sys, front);
      if last.WriteClaim? {
        var m := |front| - 1;
        assert !At(RunEvents(sys, front[..m]), last.thread).Checked?;
        assert forall i :: CheckedSince(sys, front, last.thread, i) ==> i == m;
      }
    }
  }

  // ----- what may be started -----

  /** A valid PAPER profile may start a command iff the command is stored for it, names its scope and venue, and the profile is enabled
      and bound to a credential slot. */
  lemma StartNeedsEnabledPaper(s: Lane, profileId: string, id: CommandId)
    requires profileId in s.profiles && ProfileValid(s.profiles[profileId]) && s.profiles[profileId].mode.Paper?
    requires s.profiles[profileId].profileId == profileId
    ensures MayStart(s, profileId, id) <==>
              && s.commands.Has(id)
              && var p, b := s.profiles[profileId], s.commands.entries[id].body;
                 && b.profileId == profileId && b.tenantId == p.tenantId && b.projectId == p.projectId && b.mode.Paper?
                 && p.adapterId == Some(b.adapterId) && p.venue == Some(b.venue)
                 && p.enabled && p.credentialSlotRef.Some? && p.credentialSlotRef.value != ""
  {
    hide ProfileValid, Reasons;
    if s.commands.Has(id) && PlanScopeMatches(s.profiles[profileId], Some(s.commands.entries[id].body)) {
      PaperReadyIffEnabled(s.profiles[profileId], Some(s.commands.entries[id].body));
    }
  }

  /** A LIVE profile starts nothing here, and neither does an unknown one. */
  lemma LiveStartsNothing(s: Lane, profileId: string, id: CommandId)
    requires profileId in s.profiles ==> s.profiles[profileId].mode.Live?
    ensures !MayStart(s, profileId, id)
  {
    hide Reasons;
  }

  // ----- two threads -----

  /** Whenever a command may be started, two threads that interleave their checks and writes start it twice. */
  lemma TwoThreadsStartTwice(sys: System, profileId: string, id: CommandId, t: nat, u: nat, worker: string, now: string)
    requires SystemInvariant(sys) && StoresValid(sys.lane) && t != u && At(sys, t).Idle? && At(sys, u).Idle?
    requires MayStart(sys.lane, profileId, id) && IsQueued(sys.lane.commands, id)
    ensures var plan := [] + [PlanStart(t, profileId, id)] + [PlanStart(u, profileId, id)];
            var check := plan + [CheckClaim(t, worker, now)] + [CheckClaim(u, worker, now)];
            var write := check + [WriteClaim(t)] + [WriteClaim(u)];
            RunEvents(sys, write + [Launch(t, Running)] + [Launch(u, Running)]).started == sys.started + [id] + [id]
  {
    hide SystemInvariant, StoresValid, MayStart, RunEvents, Next, IsQueued;
    LaneIsSound(sys);
    SoundIdsMatch(sys.lane);
    var plan1 := [] + [PlanStart(t, profileId, id)];
    var plan := plan1 + [PlanStart(u, profileId, id)];
    var check1 := plan + [CheckClaim(t, worker, now)];
    var check := check1 + [CheckClaim(u, worker, now)];
    var write1 := check + [WriteClaim(t)];
    var write := write1 + [WriteClaim(u)];
    var launch1 := write + [Launch(t, Running)];
    NoEvents(sys);
    RunOneMore(sys, [], PlanStart(t, profileId, id));
    RunOneMore(sys, plan1, PlanStart(u, profileId, id));
    RunOneMore(sys, plan, CheckClaim(t, worker, now));
    RunOneMore(sys, check1, CheckClaim(u, worker, now));
    BothPlan(sys, profileId, id, t, u);
    BothCheck(RunEvents(sys, plan), id, t, u, worker, now);
    RunOneMore(sys, check, WriteClaim(t));
    RunOneMore(sys, write1, WriteClaim(u));
    RunOneMore(sys, write, Launch(t, Running));
    RunOneMore(sys, launch1, Launch(u, Running));
    BothWriteAndLaunch(RunEvents(sys, check), id, t, u);
  }

  lemma BothPlan(sys: System, profileId: string, id: CommandId, t: nat, u: nat)
    requires StoresValid(sys.lane) && t != u && At(sys, t).Idle? && At(sys, u).Idle? && MayStart(sys.lane, profileId, id)
    ensures var next := Next(Next(sys, PlanStart(t, profileId, id)), PlanStart(u, profileId, id));
            next.lane == sys.lane && next.started == sys.started && At(next, t) == At(next, u) == Planned(id)
  {
    hide StoresValid, MayStart;
  }

  lemma BothCheck(sys: System, id: CommandId, t: nat, u: nat, worker: string, now: string)
    requires StoresValid(sys.lane) && t != u && At(sys, t) == At(sys, u) == Planned(id)
    requires IdsMatch(sys.lane) && IsQueued(sys.lane.commands, id)
    ensures var next := Next(Next(sys, CheckClaim(t, worker, now)), CheckClaim(u, worker, now));
            && next.lane == sys.lane && next.started == sys.started
            && At(next, t).Checked? && At(next, t) == At(next, u) && At(next, t).copy.id == id
  {
    hide StoresValid;
  }

  lemma BothWriteAndLaunch(sys: System, id: CommandId, t: nat, u: nat)
    requires StoresValid(sys.lane) && t != u && At(sys, t).Checked? && At(sys, t) == At(sys, u) && At(sys, t).copy.id == id
    ensures Next(Next(Next(Next(sys, WriteClaim(t)), WriteClaim(u)), Launch(t, Running)), Launch(u, Running)).started
            == sys.started + [id] + [id]
  {
    hide StoresValid, Written, SessionFor;
  }

  lemma {:induction false} RunConcat(sys: System, first: seq<Event>, second: seq<Event>)
    requires StoresValid(sys.lane)
    ensures RunEvents(sys, first + second) == RunEvents(RunEvents(sys, first), second)
  {
    hide StoresValid, Next;
    if second == [] {
      assert first + second == first;
    } else {
      var all, front := first + second, second[..|second| - 1];
      assert all[..|all| - 1] == first + front;
      RunConcat(sys, first, front);
    }
  }

  function StartableProfile(): Profile {
    PaperProfile().(enabled := true, paperTradingEnabled := true, credentialSlotRef := Some("slot"))
  }

  lemma StartableIsAdmissible()
    ensures ProfileValid(StartableProfile()) && StartableProfile().profileId == "r"
    ensures CommandValid(PaperPayload("k").body) && ProfileMatches(StartableProfile(), PaperPayload("k").body)
    ensures PlanScopeMatches(StartableProfile(), Some(PaperPayload("k").body))
  {
  }

  lemma StartableCommand(s: Lane)
    requires "r" in s.profiles && s.profiles["r"] == StartableProfile()
    requires s.commands.Has(Given("cmd")) && s.commands.entries[Given("cmd")].body == PaperPayload("k").body
    ensures MayStart(s, "r", Given("cmd"))
  {
    hide ProfileValid, Reasons;
    StartableIsAdmissible();
    PaperReadyIffEnabled(StartableProfile(), Some(PaperPayload("k").body));
    assert |"slot"| > 0;
  }

  /** One profile and one command: the service, and the threads, that found the race. */
  lemma Prepared(maxReports: Option<nat>, maxSessions: Option<nat>)
    ensures var sys0 := Begin(maxReports, maxSessions);
            var sys := RunEvents(sys0, [] + [Service(DoRegister(StartableProfile(), true))] + [Service(DoEnqueue(PaperPayload("k")))]);
            && SystemInvariant(sys) && sys.threads == map[] && sys.started == []
            && MayStart(sys.lane, "r", Given("cmd")) && IsQueued(sys.lane.commands, Given("cmd"))
  {
    hide RunEvents, SystemInvariant, MayStart, ProfileValid, CommandValid, ProfileMatches, StoresValid;
    var sys0 := Begin(maxReports, maxSessions);
    var register, enqueue := Service(DoRegister(StartableProfile(), true)), Service(DoEnqueue(PaperPayload("k")));
    BeginBegins(maxReports, maxSessions);
    StartableIsAdmissible();
    NoEvents(sys0);
    RunOneMore(sys0, [], register);
    RunOneMore(sys0, [] + [register], enqueue);
    NextKeepsSystem(sys0, register);
    NextKeepsSystem(Next(sys0, register), enqueue);
    StartableCommand(Next(Next(sys0, register), enqueue).lane);
  }

  /** A profile, a command, and two threads: from an empty service to a session that is started twice. */
  lemma RaceFromTheStart(maxReports: Option<nat>, maxSessions: Option<nat>)
    ensures exists events :: OneEnqueue(events) && !Distinct(RunEvents(Begin(maxReports, maxSessions), events).started)
  {
    hide RunEvents, SystemInvariant, MayStart, StoresValid, IsQueued, StartableProfile, PaperPayload, Initial;
    var sys0, id := Begin(maxReports, maxSessions), Given("cmd");
    var setup := [] + [Service(DoRegister(StartableProfile(), true))] + [Service(DoEnqueue(PaperPayload("k")))];
    BeginBegins(maxReports, maxSessions);
    Prepared(maxReports, maxSessions);
    var sys := RunEvents(sys0, setup);
    TwoThreadsStartTwice(sys, "r", id, 0, 1, "w", "t");
    var race := [] + [PlanStart(0, "r", id)] + [PlanStart(1, "r", id)] + [CheckClaim(0, "w", "t")] + [CheckClaim(1, "w", "t")]
                + [WriteClaim(0)] + [WriteClaim(1)] + [Launch(0, Running)] + [Launch(1, Running)];
    RunConcat(sys0, setup, race);
    var started := RunEvents(sys, race).started;
    assert started[0] == id && started[1] == id;
    OneEnqueueOnly(setup, race);
  }

  lemma OneEnqueueOnly(setup: seq<Event>, race: seq<Event>)
    requires |setup| == 2 && setup[0].Service? && !setup[0].op.DoEnqueue? && setup[1].Service? && setup[1].op.DoEnqueue?
    requires forall i :: 0 <= i < |race| ==> !race[i].Service?
    ensures OneEnqueue(setup + race)
  {
    var events := setup + race;
    assert events[1] == setup[1];
  }

  /** The service is asked to enqueue once. */
  ghost predicate OneEnqueue(events: seq<Event>) {
    && (exists i :: 0 <= i < |events| && IsEnqueue(events[i]))
    && (forall i, j :: 0 <= i < j < |events| ==> !(IsEnqueue(events[i]) && IsEnqueue(events[j])))
  }

  predicate IsEnqueue(e: Event) {
    e.Service? && e.op.DoEnqueue?
  }

  // ----- runs in which the service derives every id -----

  ghost predicate OrdinaryEvents(events: seq<Event>) {
    forall i :: 0 <= i < |events| && events[i].Service? ==> Ordinary(events[i].op)
  }

  lemma WriteKeepsDerived(sys: System, t: nat)
    requires SystemInvariant(sys) && IdsDerived(sys.lane.commands) && At(sys, t).Checked?
    ensures IdsDerived(Written(sys.lane, At(sys, t).copy).commands)
  {
    hide Invariant, MaterialOf;
    assert ThreadSound(sys, t);
  }

  /** Each event moves the lane by at most one operation of the service or one written claim. */
  lemma NextKeepsDerived(sys: System, e: Event)
    requires SystemInvariant(sys) && StoresValid(sys.lane) && IdsDerived(sys.lane.commands)
    requires e.Service? ==> Ordinary(e.op)
    ensures IdsDerived(Next(sys, e).lane.commands)
  {
    hide SystemInvariant, Invariant, StoresValid, IdsDerived, Claim, RecordReport, RecordSession, MayStart, Written;
    LaneIsSound(sys);
    match e
    case Service(op) => OrdinaryKeepsDerived(sys.lane, op);
    case WriteClaim(t) =>
      if At(sys, t).Checked? {
        WriteKeepsDerived(sys, t);
      }
    case KeepSession(t) =>
      if At(sys, t).Launched? {
        OrdinaryKeepsDerived(sys.lane, DoSession(At(sys, t).session));
      }
    case ReportStart(t, payload) =>
      if At(sys, t).Kept? {
        OrdinaryKeepsDerived(sys.lane, DoReport(At(sys, t).session.commandId, payload));
      }
    case _ =>
  }

  lemma {:induction false} OrdinaryEventsKeepDerived(sys: System, events: seq<Event>)
    requires SystemInvariant(sys) && StoresValid(sys.lane) && IdsDerived(sys.lane.commands) && OrdinaryEvents(events)
    ensures FreshEvents(sys, events) && IdsDerived(RunEvents(sys, events).lane.commands)
  {
    hide SystemInvariant, IdsDerived, Next, Ordinary, Fresh, StoresValid;
    if events != [] {
      var front, last := events[..|events| - 1], events[|events| - 1];
      OrdinaryEventsKeepDerived(sys, front);
      EventsKeepSystem(sys, front);
      var middle := RunEvents(sys, front);
      if last.Service? {
        LaneIsSound(middle);
        OrdinaryIsFresh(middle.lane, last.op);
      }
      NextKeepsDerived(middle, last);
    }
  }

  /** When no caller supplies an id or a status, every run of events is fresh. */
  lemma OrdinaryEventsAreFresh(maxReports: Option<nat>, maxSessions: Option<nat>, events: seq<Event>)
    requires OrdinaryEvents(events)
    ensures FreshEvents(Begin(maxReports, maxSessions), events)
  {
    hide SystemInvariant, FreshEvents;
    BeginBegins(maxReports, maxSessions);
    OrdinaryEventsKeepDerived(Begin(maxReports, maxSessions), events);
  }
}
