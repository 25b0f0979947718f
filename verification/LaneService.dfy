/** The execution-lane service with its stores updated in place, and the workers that drive it. */
module LaneService {
  import opened Options
  import opened Dicts
  import opened LaneModels
  import opened LaneSpec
  import opened LaneRuns
  import opened LaneWorkers

  /** What the service reports about its commands. */
  datatype CommandCounts = CommandCounts(queued: nat, claimed: nat, reported: nat, maySubmitOrder: bool)

  class ExecutionLaneService {
    const maxReports: Option<nat>
    const maxSessions: Option<nat>
    var profiles: map<string, Profile>
    var commands: Dict<CommandId, Command>
    var idempotencyIndex: map<(string, string), CommandId>
    var reports: Dict<ReportId, Report>
    var sessions: Dict<SessionId, Session>

    function State(): Lane
      reads this
    {
      Lane(profiles, commands, idempotencyIndex, reports, sessions, maxReports, maxSessions)
    }

    constructor (reportCapacity: Option<nat>, sessionCapacity: Option<nat>)
      ensures State() == Initial(reportCapacity, sessionCapacity) && StoresValid(State())
    {
      maxReports, maxSessions := reportCapacity, sessionCapacity;
      profiles, idempotencyIndex := map[], map[];
      commands, reports, sessions := Empty(), Empty(), Empty();
    }

    method RegisterProfile(p: Profile, slotAccepted: bool) returns (registered: Option<Profile>)
      requires p.tenantId != "" && p.projectId != "" && p.profileId != ""
      modifies this`profiles
      ensures (State(), registered) == LaneSpec.RegisterProfile(old(State()), p, slotAccepted)
    {
      hide ProfileValid;
      var accepted, _ := ValidateProfile(p);
      if !accepted || !slotAccepted {
        return None;
      }
      profiles := profiles[p.profileId := p];
      registered := Some(p);
    }

    method EnqueueCommand(payload: CommandPayload) returns (command: Option<Command>)
      modifies this`commands, this`idempotencyIndex
      ensures (State(), command) == Enqueue(old(State()), payload)
    {
      hide ProfileMatches;
      var built := Build(payload);
      var b := built.body;
      if b.tenantId == "" || b.projectId == "" || b.profileId == "" || b.adapterId == "" || b.venue == "" || b.tradeActionId == ""
         || b.sourceEventId == "" || b.idempotencyKey == "" || b.lineageId == "" || b.versionId == "" {
        return None;
      }
      var accepted, _ := ValidateCommand(b);
      hide CommandValid;
      if !accepted || b.profileId !in profiles || !ProfileMatches(profiles[b.profileId], b) {
        return None;
      }
      var key := KeyOf(built.body);
      if key in idempotencyIndex {
        return commands.Get(idempotencyIndex[key]);
      }
      commands := commands.Put(built.id, built);
      idempotencyIndex := idempotencyIndex[key := built.id];
      command := Some(built);
    }

    method ClaimCommand(id: CommandId, worker: string, now: string) returns (command: Option<Command>)
      modifies this`commands
      ensures (State(), command) == Claim(old(State()), id, worker, now)
    {
      if !commands.Has(id) || !commands.entries[id].status.Queued? {
        return None;
      }
      var claimed := commands.entries[id].(status := Claimed, claimedBy := Some(worker), claimedAt := Some(now));
      commands := commands.Put(claimed.id, claimed);
      command := Some(claimed);
    }

    method ClaimNext(profileId: string, worker: string, now: string) returns (command: Option<Command>)
      requires commands.Valid()
      modifies this`commands
      ensures (State(), command) == LaneSpec.ClaimNext(old(State()), profileId, worker, now)
    {
      hide Claim;
      for i := 0 to |commands.keys|
        invariant commands == old(commands)
        invariant FirstQueued(State(), profileId, 0) == FirstQueued(State(), profileId, i)
      {
        var candidate := commands.entries[commands.keys[i]];
        if candidate.body.profileId == profileId && candidate.status.Queued? {
          command := ClaimCommand(candidate.id, worker, now);
          return;
        }
      }
      command := None;
    }

    method EvictReportsIfNeeded()
      requires reports.Valid()
      modifies this`reports
      ensures reports == Evicted(old(reports), maxReports)
    {
      if maxReports.Some? {
        while |reports.keys| > maxReports.value
          invariant reports.Valid()
          invariant Evicted(reports, maxReports) == Evicted(old(reports), maxReports)
          decreases |reports.keys|
        {
          reports := reports.DeleteFirst();
        }
      }
    }

    method EvictSessionsIfNeeded()
      requires sessions.Valid()
      modifies this`sessions
      ensures sessions == Evicted(old(sessions), maxSessions)
    {
      if maxSessions.Some? {
        while |sessions.keys| > maxSessions.value
          invariant sessions.Valid()
          invariant Evicted(sessions, maxSessions) == Evicted(old(sessions), maxSessions)
          decreases |sessions.keys|
        {
          sessions := sessions.DeleteFirst();
        }
      }
    }

    method RecordReport(id: CommandId, payload: ReportPayload) returns (report: Option<Report>)
      requires reports.Valid()
      modifies this`reports, this`commands
      ensures (State(), report) == LaneSpec.RecordReport(old(State()), id, payload)
    {
      hide Evicted, ReportFrom, StoresValid, Dict.Valid;
      if !commands.Has(id) {
        return None;
      }
      var command := commands.entries[id];
      var built := ReportFrom(command, payload);
      if !ReportValid(command, payload) {
        return None;
      }
      reports := reports.Put(built.id, built);
      EvictReportsIfNeeded();
      commands := commands.Put(command.id, command.(status := Reported));
      report := Some(built);
    }

    method RecordSession(session: Session)
      requires sessions.Valid()
      modifies this`sessions
      ensures State() == LaneSpec.RecordSession(old(State()), session)
    {
      hide Evicted;
      sessions := sessions.Put(session.id, session);
      EvictSessionsIfNeeded();
    }

    /** The command part of a snapshot. */
    method Snapshot(profileId: Option<string>, projectId: Option<string>) returns (counts: CommandCounts)
      requires commands.Valid()
      ensures counts.queued == Count(commands, {Queued}, profileId, projectId)
      ensures counts.claimed == Count(commands, {Claimed}, profileId, projectId)
      ensures counts.reported == Count(commands, {Reported}, profileId, projectId)
      ensures counts.maySubmitOrder <==>
              exists id :: id in commands.entries && InScope(commands.entries[id], profileId, projectId)
                           && commands.entries[id].body.maySubmitOrder
    {
      hide InScope, CountUpTo;
      NothingCounted(commands, profileId, projectId);
      var queued, claimed, reported, maySubmit := 0, 0, 0, false;
      for i := 0 to |commands.keys|
        invariant queued == CountUpTo(commands, i, {Queued}, profileId, projectId)
        invariant claimed == CountUpTo(commands, i, {Claimed}, profileId, projectId)
        invariant reported == CountUpTo(commands, i, {Reported}, profileId, projectId)
        invariant maySubmit <==> exists j :: 0 <= j < i && InScope(commands.entries[commands.keys[j]], profileId, projectId)
                                             && commands.entries[commands.keys[j]].body.maySubmitOrder
      {
        CountStep(commands, i, {Queued}, profileId, projectId);
        CountStep(commands, i, {Claimed}, profileId, projectId);
        CountStep(commands, i, {Reported}, profileId, projectId);
        var c := commands.entries[commands.keys[i]];
        if InScope(c, profileId, projectId) {
          match c.status {
            case Queued => queued := queued + 1;
            case Claimed => claimed := claimed + 1;
            case Reported => reported := reported + 1;
            case Rejected =>
          }
          maySubmit := maySubmit || c.body.maySubmitOrder;
        }
      }
      counts := CommandCounts(queued, claimed, reported, maySubmit);
    }
  }

  /** The report a worker files about a command: only the venue and the instrument are set besides type and content. */
  function WorkerReport(reportType: string, p: Profile, b: CommandBody, content: string, clean: bool): ReportPayload {
    ReportPayload(reportType, content, clean, None, None, None, None, None, None,
                  Some(if Truthy(p.venue) then p.venue.value else b.venue), Some(InstrumentOf(b)))
  }

  /** It is accepted unless its content fails the scan or the order intent names an empty instrument. */
  lemma WorkerReportAccepted(reportType: string, p: Profile, c: Command, content: string, clean: bool)
    requires CommandValid(c.body) && c.id != Given("") && reportType != ""
    ensures ReportValid(c, WorkerReport(reportType, p, c.body, content, clean)) <==> clean && c.body.instrumentId != Some("")
    ensures var r := ReportFrom(c, WorkerReport(reportType, p, c.body, content, clean));
            && r.commandId == c.id && r.profileId == c.body.profileId && r.tenantId == c.body.tenantId && r.projectId == c.body.projectId
            && r.adapterId == c.body.adapterId && r.reportType == reportType && r.content == content
            && r.venue == (if p.venue.Some? && p.venue.value != "" then p.venue.value else c.body.venue)
            && r.instrumentId == (if c.body.instrumentId.Some? then c.body.instrumentId.value else "UNKNOWN")
  {
    assert |"UNKNOWN"| > 0;
  }

  /** One pass of the planning worker: claim the next command, plan it, report the plan.  If the stored profile no
      longer fits the command, or the report is refused, the pass fails after the claim and the command stays claimed. */
  method RunWorkerOnce(service: ExecutionLaneService, profileId: string, worker: string, now: string, content: string, clean: bool)
    returns (report: Option<Report>, gatePassed: bool)
    requires StoresValid(service.State())
    modifies service
    ensures StoresValid(service.State())
    ensures var (claimedLane, claimed) := LaneSpec.ClaimNext(old(service.State()), profileId, worker, now);
            if claimed.None? || profileId !in claimedLane.profiles
               || PlanOf(claimedLane.profiles[profileId], Some(claimed.value.body)).None?
            then service.State() == claimedLane && report.None? && !gatePassed
            else
              && (service.State(), report) ==
                 LaneSpec.RecordReport(claimedLane, claimed.value.id,
                                       WorkerReport("tradingnode_runtime_plan", claimedLane.profiles[profileId], claimed.value.body, content, clean))
              && (report.None? ==> service.State() == claimedLane)
              && gatePassed == PlanOf(claimedLane.profiles[profileId], Some(claimed.value.body)).value.ready
  {
    hide PlanOf, Evicted, FirstQueued, ReportValid, ReportFrom, WorkerReport;
    ghost var before := service.State();
    report, gatePassed := None, false;
    var claimed := service.ClaimNext(profileId, worker, now);
    ClaimNextKeepsStores(before, profileId, worker, now);
    hide LaneSpec.ClaimNext;
    if claimed.None? || profileId !in service.profiles {
      return;
    }
    var profile := service.profiles[profileId];
    var plan := BuildTradingNodeRuntimePlan(profile, Some(claimed.value.body));
    if plan.None? {
      return;
    }
    gatePassed := plan.value.ready;
    report := service.RecordReport(claimed.value.id, WorkerReport("tradingnode_runtime_plan", profile, claimed.value.body, content, clean));
  }

  lemma ClaimNextKeepsStores(s: Lane, profileId: string, worker: string, now: string)
    requires StoresValid(s)
    ensures StoresValid(LaneSpec.ClaimNext(s, profileId, worker, now).0)
  {
    hide FirstQueued;
  }

  /** The session runner: it remembers every session it started. */
  class SessionRunner {
    var started: seq<CommandId>

    constructor ()
      ensures started == []
    {
      started := [];
    }

    method Start(id: CommandId)
      modifies this
      ensures started == old(started) + [id]
    {
      started := started + [id];
    }
  }

  /** How the steps outside the service go: the configuration is built or not, the runner returns a status or raises, and
      the session report carries this content. */
  datatype StartOutcome = StartOutcome(configBuilt: bool, launched: Option<SessionStatus>, content: string, clean: bool)

  /** The report that the starting worker files. */
  function StartedReport(s: Lane, profileId: string, id: CommandId, o: StartOutcome): ReportPayload
    requires s.commands.Has(id) && profileId in s.profiles
  {
    WorkerReport("tradingnode_paper_session_started", s.profiles[profileId], s.commands.entries[id].body, o.content, o.clean)
  }

  /** The events of one undisturbed start of a session, up to the point where an exception ends it. */
  function StartEvents(s: Lane, thread: nat, profileId: string, id: CommandId, worker: string, now: string, o: StartOutcome): seq<Event> {
    var plan := [] + [PlanStart(thread, profileId, id)];
    var claim := plan + [CheckClaim(thread, worker, now)] + [WriteClaim(thread)];
    if !o.configBuilt || !s.commands.Has(id) || profileId !in s.profiles then plan
    else if o.launched.None? then claim
    else claim + [Launch(thread, o.launched.value)] + [KeepSession(thread)] + [ReportStart(thread, StartedReport(s, profileId, id, o))]
  }

  /** The outcome of an undisturbed start, in terms of the service operations it makes. */
  ghost function StartedState(s: Lane, started: seq<CommandId>, profileId: string, id: CommandId, worker: string, now: string,
                              o: StartOutcome): (Lane, seq<CommandId>)
    requires StoresValid(s)
  {
    if !MayStart(s, profileId, id) || !o.configBuilt then (s, started)
    else
      var (claimedLane, claimed) := Claim(s, id, worker, now);
      if claimed.None? || o.launched.None? then (claimedLane, started)
      else
        var kept := LaneSpec.RecordSession(claimedLane, SessionFor(claimed.value, o.launched.value));
        (LaneSpec.RecordReport(kept, claimed.value.id, StartedReport(s, profileId, id, o)).0, started + [id])
  }

  /** A check and its write with nothing in between are one claim. */
  lemma PlanThenClaim(sys: System, t: nat, profileId: string, id: CommandId, worker: string, now: string)
    requires StoresValid(sys.lane) && At(sys, t).Idle?
    ensures var planned := Next(sys, PlanStart(t, profileId, id));
            var next := Next(Next(planned, CheckClaim(t, worker, now)), WriteClaim(t));
            var (lane, claimed) := Claim(sys.lane, id, worker, now);
            && planned.lane == sys.lane && planned.started == sys.started
            && (!MayStart(sys.lane, profileId, id) ==> next == sys)
            && (MayStart(sys.lane, profileId, id) ==>
                  && next.lane == lane && next.started == sys.started
                  && At(next, t) == if claimed.Some? then Holding(claimed.value) else Idle)
  {
    hide MayStart, StoresValid;
  }

  lemma LaunchKeepReport(sys: System, t: nat, status: SessionStatus, payload: ReportPayload)
    requires StoresValid(sys.lane) && (At(sys, t).Holding? || At(sys, t).Idle?)
    ensures var next := Next(Next(Next(sys, Launch(t, status)), KeepSession(t)), ReportStart(t, payload));
            && (At(sys, t).Idle? ==> next == sys)
            && (At(sys, t).Holding? ==>
                  var session := SessionFor(At(sys, t).command, status);
                  && next.started == sys.started + [At(sys, t).command.id]
                  && next.lane == LaneSpec.RecordReport(LaneSpec.RecordSession(sys.lane, session), session.commandId, payload).0)
  {
    hide StoresValid, LaneSpec.RecordReport, LaneSpec.RecordSession, SessionFor;
  }

  lemma ClaimedId(s: Lane, id: CommandId, worker: string, now: string)
    requires Invariant(s)
    ensures Claim(s, id, worker, now).1.Some? ==> Claim(s, id, worker, now).1.value.id == id
  {
    hide Invariant, CommandValid;
    if s.commands.Has(id) {
      StoredCommandIsSound(s, id);
    }
  }

  lemma StartUnfolds(sys: System, t: nat, profileId: string, id: CommandId, worker: string, now: string, o: StartOutcome)
    requires Invariant(sys.lane) && sys.threads == map[]
    ensures StoresValid(sys.lane)
    ensures var after := RunEvents(sys, StartEvents(sys.lane, t, profileId, id, worker, now, o));
            (after.lane, after.started) == StartedState(sys.lane, sys.started, profileId, id, worker, now, o)
  {
    hide Invariant, MayStart, StoresValid, Claim, LaneSpec.RecordReport, LaneSpec.RecordSession, StartedReport, RunEvents;
    InvariantFacts(sys.lane);
    var plan := [] + [PlanStart(t, profileId, id)];
    var check := plan + [CheckClaim(t, worker, now)];
    var claim := check + [WriteClaim(t)];
    NoEvents(sys);
    RunOneMore(sys, [], PlanStart(t, profileId, id));
    RunOneMore(sys, plan, CheckClaim(t, worker, now));
    RunOneMore(sys, check, WriteClaim(t));
    PlanThenClaim(sys, t, profileId, id, worker, now);
    ClaimedId(sys.lane, id, worker, now);
    hide Next;
    if o.configBuilt && sys.lane.commands.Has(id) && profileId in sys.lane.profiles && o.launched.Some? {
      var launch, report := Launch(t, o.launched.value), ReportStart(t, StartedReport(sys.lane, profileId, id, o));
      RunOneMore(sys, claim, launch);
      RunOneMore(sys, claim + [launch], KeepSession(t));
      RunOneMore(sys, claim + [launch] + [KeepSession(t)], report);
      LaunchKeepReport(RunEvents(sys, claim), t, o.launched.value, report.payload);
    }
    StartIsStored(sys.lane, profileId, id);
  }

  lemma StartIsStored(s: Lane, profileId: string, id: CommandId)
    ensures MayStart(s, profileId, id) ==> s.commands.Has(id) && profileId in s.profiles
  {
    hide PlanOf;
  }

  /** Starts a paper session in one go.  It does what the thread's events do one after the other; a session is recorded
      with the status the runner returned, and a refused report leaves the command claimed. */
  method StartPaperSession(service: ExecutionLaneService, runner: SessionRunner, thread: nat, profileId: string, id: CommandId,
                           worker: string, now: string, o: StartOutcome)
    returns (session: Option<Session>, reported: bool)
    requires Invariant(service.State())
    modifies service, runner
    ensures StoresValid(old(service.State()))
    ensures var before := System(old(service.State()), map[], old(runner.started));
            var after := RunEvents(before, StartEvents(old(service.State()), thread, profileId, id, worker, now, o));
            service.State() == after.lane && runner.started == after.started
    ensures session.Some? ==> runner.started == old(runner.started) + [id] && o.launched == Some(session.value.status)
    ensures session.None? ==> runner.started == old(runner.started) && !reported
    ensures session.Some? ==> id in old(service.commands).entries
    ensures session.Some? ==> session.value.commandId == session.value.id.commandId == id && session.value.profileId == profileId
    ensures session.Some? ==> (reported <==> o.clean && old(service.commands).entries[id].body.instrumentId != Some(""))
  {
    hide Invariant, RunEvents, StartEvents, PlanOf, LaneSpec.RecordSession, WorkerReport, CommandValid, ReportValid, Evicted, ReportFrom, StoresValid, Dict.Valid;
    InvariantFacts(service.State());
    StartUnfolds(System(service.State(), map[], runner.started), thread, profileId, id, worker, now, o);
    session, reported := None, false;
    if !service.commands.Has(id) || profileId !in service.profiles
       || service.commands.entries[id].body.profileId != profileId {
      return;
    }
    var profile, command := service.profiles[profileId], service.commands.entries[id];
    var plan := BuildTradingNodeRuntimePlan(profile, Some(command.body));
    if plan.None? || !plan.value.mode.Paper? || !plan.value.ready || !Truthy(plan.value.credentialSlotRef) || !o.configBuilt {
      return;
    }
    StoredCommandFacts(service.State(), id);
    ClaimKeepsStores(service.State(), id, worker, now);
    var claimed := service.ClaimCommand(id, worker, now);
    if claimed.None? || o.launched.None? {
      return;
    }
    runner.Start(id);
    session := Some(SessionFor(claimed.value, o.launched.value));
    service.RecordSession(session.value);
    SessionsOnly(old(service.State()), id, worker, now, session.value);
    var payload := WorkerReport("tradingnode_paper_session_started", profile, command.body, o.content, o.clean);
    var report := service.RecordReport(id, payload);
    WorkerReportAccepted("tradingnode_paper_session_started", profile, claimed.value, o.content, o.clean);
    reported := report.Some?;
  }

  lemma StoredCommandFacts(s: Lane, id: CommandId)
    requires Invariant(s) && s.commands.Has(id)
    ensures s.commands.entries[id].id == id != Given("") && CommandValid(s.commands.entries[id].body)
  {
    hide Invariant, CommandValid, KeyOf;
    StoredCommandIsSound(s, id);
  }

  lemma SessionsOnly(s: Lane, id: CommandId, worker: string, now: string, session: Session)
    requires StoresValid(Claim(s, id, worker, now).0)
    ensures var claimed := Claim(s, id, worker, now).0;
            var kept := LaneSpec.RecordSession(claimed, session);
            kept.commands == claimed.commands && kept.profiles == claimed.profiles && kept.reports == claimed.reports
  {
  }

  lemma ClaimKeepsStores(s: Lane, id: CommandId, worker: string, now: string)
    requires StoresValid(s)
    ensures StoresValid(Claim(s, id, worker, now).0)
  {
  }
}
