/**
 Any number of threads starting paper sessions, interleaved with each other and with every operation of the service.
 A claim is two steps, as in the code: the command is read and checked, and later the claimed copy is written.
 */
module LaneWorkers {
  import opened Options
  import opened Dicts
  import opened LaneModels
  import opened LaneSpec
  import opened LaneRuns
  import opened LaneIds

  /** Where a thread is inside the start of a session. */
  datatype Progress =
    | Idle | Planned(id: CommandId) | Checked(copy: Command) | Holding(command: Command)
    | Launched(session: Session) | Kept(session: Session)

  /** `started` is the log of the session runner: one entry for each start that returned a result. */
  datatype System = System(lane: Lane, threads: map<nat, Progress>, started: seq<CommandId>)

  /** Threads have an identity of their own: they may all go by the same worker name. */
  datatype Event =
    | Service(op: Op)
    | PlanStart(thread: nat, profileId: string, id: CommandId)
    | CheckClaim(thread: nat, worker: string, now: string)
    | WriteClaim(thread: nat)
    | Launch(thread: nat, status: SessionStatus)
    | KeepSession(thread: nat)
    | ReportStart(thread: nat, payload: ReportPayload)
    | Abort(thread: nat)

  /** The checks made before anything is claimed: a READY sandbox plan bound to a credential slot. */
  ghost predicate MayStart(s: Lane, profileId: string, id: CommandId) {
    && s.commands.Has(id) && profileId in s.profiles
    && s.commands.entries[id].body.profileId == profileId
    && var plan := PlanOf(s.profiles[profileId], Some(s.commands.entries[id].body));
       plan.Some? && plan.value.mode.Paper? && plan.value.ready && Truthy(plan.value.credentialSlotRef)
  }

  /** The session record, with the status that the runner reported, FAILED included. */
  function SessionFor(c: Command, status: SessionStatus): Session {
    Session(SessionId(c.body.tenantId, c.body.projectId, c.body.profileId, c.id, c.body.versionId),
            c.id, c.body.profileId, c.body.projectId, status)
  }

  /** Sessions are told apart by tenant, project, profile, command and strategy version, and name their command, profile and project. */
  lemma SessionsNameTheirCommands(c: Command, d: Command, status: SessionStatus)
    ensures SessionFor(c, status).id == SessionFor(d, status).id <==>
              && c.body.tenantId == d.body.tenantId && c.body.projectId == d.body.projectId && c.body.profileId == d.body.profileId
              && c.id == d.id && c.body.versionId == d.body.versionId
    ensures SessionFor(c, status).commandId == c.id && SessionFor(c, status).profileId == c.body.profileId
    ensures SessionFor(c, status).projectId == c.body.projectId && SessionFor(c, status).status == status
  {
  }

  function At(sys: System, thread: nat): Progress {
    if thread in sys.threads then sys.threads[thread] else Idle
  }

  function Move(sys: System, thread: nat, progress: Progress): System {
    sys.(threads := sys.threads[thread := progress])
  }

  function Written(s: Lane, c: Command): Lane {
    s.(commands := s.commands.Put(c.id, c))
  }

  /** One event; an event that is not enabled changes nothing, and an exception sends the thread back to idle. */
  ghost function Next(sys: System, e: Event): (next: System)
    requires StoresValid(sys.lane)
    ensures StoresValid(next.lane)
  {
    match e
    case Service(op) => sys.(lane := Step(sys.lane, op))
    case PlanStart(t, profileId, id) =>
      if At(sys, t).Idle? && MayStart(sys.lane, profileId, id) then Move(sys, t, Planned(id)) else sys
    case CheckClaim(t, worker, now) =>
      if !At(sys, t).Planned? then sys
      else
        var copy := Claim(sys.lane, At(sys, t).id, worker, now).1;
        Move(sys, t, if copy.Some? then Checked(copy.value) else Idle)
    case WriteClaim(t) =>
      if !At(sys, t).Checked? then sys
      else Move(sys.(lane := Written(sys.lane, At(sys, t).copy)), t, Holding(At(sys, t).copy))
    case Launch(t, status) =>
      if !At(sys, t).Holding? then sys
      else
        var c := At(sys, t).command;
        Move(sys.(started := sys.started + [c.id]), t, Launched(SessionFor(c, status)))
    case KeepSession(t) =>
      if !At(sys, t).Launched? then sys
      else Move(sys.(lane := RecordSession(sys.lane, At(sys, t).session)), t, Kept(At(sys, t).session))
    case ReportStart(t, payload) =>
      if !At(sys, t).Kept? then sys
      else Move(sys.(lane := RecordReport(sys.lane, At(sys, t).session.commandId, payload).0), t, Idle)
    case Abort(t) => Move(sys, t, Idle)
  }

  ghost function RunEvents(sys: System, events: seq<Event>): (next: System)
    requires StoresValid(sys.lane)
    ensures StoresValid(next.lane)
  {
    if events == [] then sys else Next(RunEvents(sys, events[..|events| - 1]), events[|events| - 1])
  }

  lemma RunOneMore(sys: System, events: seq<Event>, e: Event)
    requires StoresValid(sys.lane)
    ensures RunEvents(sys, events + [e]) == Next(RunEvents(sys, events), e)
  {
    hide Next;
    assert (events + [e])[..|events|] == events;
  }

  lemma NoEvents(sys: System)
    requires StoresValid(sys.lane)
    ensures RunEvents(sys, []) == sys
  {
  }

  // ----- second starts, over any events -----

  ghost predicate Holds(sys: System, t: nat, id: CommandId) {
    At(sys, t).Holding? && At(sys, t).command.id == id
  }

  /** The command's session was started, or a thread is about to start it. */
  ghost predicate Committed(sys: System, id: CommandId) {
    id in sys.started || exists t :: Holds(sys, t, id)
  }

  ghost predicate Exclusive(sys: System, t: nat, u: nat) {
    At(sys, t).Holding? ==> At(sys, t).command.id !in sys.started && (t != u ==> !Holds(sys, u, At(sys, t).command.id))
  }

  /** No command was started twice, and no thread is about to do so. */
  ghost predicate StartsApart(sys: System) {
    Distinct(sys.started) && forall t, u :: Exclusive(sys, t, u)
  }

  /** The event writes a claim on a command that is committed already. */
  ghost predicate SecondTake(sys: System, e: Event) {
    e.WriteClaim? && At(sys, e.thread).Checked? && Committed(sys, At(sys, e.thread).copy.id)
  }

  lemma WriteStep(sys: System, t: nat)
    requires StoresValid(sys.lane) && StartsApart(sys) && At(sys, t).Checked?
    ensures StartsApart(Next(sys, WriteClaim(t))) <==> !Committed(sys, At(sys, t).copy.id)
  {
    hide StoresValid, Distinct, Written;
    var next, id := Next(sys, WriteClaim(t)), At(sys, t).copy.id;
    assert Holds(next, t, id);
    if Committed(sys, id) {
      if id in sys.started {
        assert !Exclusive(next, t, t);
      } else {
        var u :| Holds(sys, u, id);
        assert !Exclusive(next, t, u);
      }
    } else {
      forall u, v ensures Exclusive(next, u, v) {
        assert Exclusive(sys, u, v) && !Holds(sys, u, id) && !Holds(sys, v, id);
      }
    }
  }

  lemma LaunchStep(sys: System, t: nat, status: SessionStatus)
    requires StoresValid(sys.lane) && StartsApart(sys) && At(sys, t).Holding?
    ensures StartsApart(Next(sys, Launch(t, status)))
  {
    hide StoresValid;
    var next, id := Next(sys, Launch(t, status)), At(sys, t).command.id;
    assert Exclusive(sys, t, t);
    assert next.started == sys.started + [id];
    forall u, v ensures Exclusive(next, u, v) {
      assert Exclusive(sys, u, v) && Exclusive(sys, u, t);
      assert At(sys, t).command.id == id;
    }
  }

  /** Nothing else takes or starts a command. */
  lemma OtherStep(sys: System, e: Event)
    requires StoresValid(sys.lane) && StartsApart(sys) && !e.WriteClaim? && !e.Launch?
    ensures StartsApart(Next(sys, e))
  {
    hide StoresValid, Distinct, MayStart, Claim, RecordReport, RecordSession, Step;
    var next := Next(sys, e);
    assert next.started == sys.started;
    assert forall t, id :: Holds(next, t, id) ==> Holds(sys, t, id);
    forall t, u ensures Exclusive(next, t, u) {
      assert Exclusive(sys, t, u);
    }
  }

  lemma StartsApartStep(sys: System, e: Event)
    requires StoresValid(sys.lane) && StartsApart(sys)
    ensures StartsApart(Next(sys, e)) <==> !SecondTake(sys, e)
  {
    hide StoresValid, StartsApart, Committed;
    match e
    case WriteClaim(t) => if At(sys, t).Checked? { WriteStep(sys, t); }
    case Launch(t, status) => if At(sys, t).Holding? { LaunchStep(sys, t, status); }
    case _ => OtherStep(sys, e);
  }

  ghost predicate NoSecondTake(sys: System, events: seq<Event>)
    requires StoresValid(sys.lane)
  {
    events == [] || (NoSecondTake(sys, events[..|events| - 1]) && !SecondTake(RunEvents(sys, events[..|events| - 1]), events[|events| - 1]))
  }

  /** Whichever two threads launch next, no command is started twice. */
  ghost predicate LaunchesApart(sys: System)
    requires StoresValid(sys.lane)
  {
    forall t, u, status, status' :: Distinct(Next(Next(sys, Launch(t, status)), Launch(u, status')).started)
  }

  lemma LaunchesApartIff(sys: System)
    requires StoresValid(sys.lane)
    ensures LaunchesApart(sys) <==> StartsApart(sys)
  {
    hide StoresValid;
    if StartsApart(sys) {
      forall t, u, status, status' ensures Distinct(Next(Next(sys, Launch(t, status)), Launch(u, status')).started) {
        hide Exclusive, Next;
        LaunchKeepsApart(sys, t, status);
        LaunchKeepsApart(Next(sys, Launch(t, status)), u, status');
      }
    } else {
      hide LaunchesApart;
      LaunchesCollide(sys);
    }
  }

  lemma LaunchKeepsApart(sys: System, t: nat, status: SessionStatus)
    requires StoresValid(sys.lane) && StartsApart(sys)
    ensures StartsApart(Next(sys, Launch(t, status)))
  {
    hide StoresValid, StartsApart;
    if At(sys, t).Holding? {
      LaunchStep(sys, t, status);
    }
  }

  lemma LaunchesCollide(sys: System)
    requires StoresValid(sys.lane) && !StartsApart(sys)
    ensures !LaunchesApart(sys)
  {
    hide StoresValid;
    var t: nat, u: nat := 0, 0;
    if Distinct(sys.started) {
      t, u :| !Exclusive(sys, t, u);
    }
    var one := Next(sys, Launch(t, Running));
    var two := Next(one, Launch(u, Running));
    assert sys.started <= one.started <= two.started;
    if Distinct(sys.started) {
      var id := At(sys, t).command.id;
      assert one.started[|sys.started|] == id;
      if id in sys.started {
        var i :| 0 <= i < |sys.started| && sys.started[i] == id;
        assert two.started[i] == two.started[|sys.started|];
      } else {
        assert two.started[|sys.started| + 1] == id;
      }
    } else {
      var i, j :| 0 <= i < j < |sys.started| && sys.started[i] == sys.started[j];
      assert two.started[i] == two.started[j];
    }
    assert !Distinct(two.started);
  }

  /** For any events whatever: at every point any two launches leave the started sessions distinct, iff no thread wrote a
      claim on a command that another one held or that had been started. */
  lemma {:induction false} StartsOnceIff(sys: System, events: seq<Event>)
    requires StoresValid(sys.lane) && StartsApart(sys)
    ensures (forall k :: 0 <= k <= |events| ==> LaunchesApart(RunEvents(sys, events[..k]))) <==> NoSecondTake(sys, events)
    ensures NoSecondTake(sys, events) ==> StartsApart(RunEvents(sys, events))
  {
    hide StoresValid, StartsApart, LaunchesApart, SecondTake, Next;
    assert events[..|events|] == events;
    if events == [] {
      LaunchesApartIff(sys);
    } else {
      var front, last := events[..|events| - 1], events[|events| - 1];
      StartsOnceIff(sys, front);
      assert front[..|front|] == front;
      assert forall k :: 0 <= k <= |front| ==> front[..k] == events[..k];
      LaunchesApartIff(RunEvents(sys, events));
      if NoSecondTake(sys, front) {
        StartsApartStep(RunEvents(sys, front), last);
      }
    }
  }

  // ----- writes between a check and its write -----

  /** The event writes a claim of this command: a thread, or an operation of the service. */
  ghost predicate WritesClaim(sys: System, e: Event, id: CommandId) {
    || (e.WriteClaim? && At(sys, e.thread).Checked? && At(sys, e.thread).copy.id == id)
    || (e.Service? && EffectOf(sys.lane, e.op).Claims? && EffectOf(sys.lane, e.op).command.id == id)
  }

  /** How often the command was claimed. */
  ghost function Writes(sys: System, events: seq<Event>, id: CommandId): nat
    requires StoresValid(sys.lane)
  {
    if events == [] then 0
    else
      var front := events[..|events| - 1];
      Writes(sys, front, id) + if WritesClaim(RunEvents(sys, front), events[|events| - 1], id) then 1 else 0
  }

  /** The thread passed its check at position i and has been waiting to write since. */
  ghost predicate CheckedSince(sys: System, events: seq<Event>, t: nat, i: int)
    requires StoresValid(sys.lane)
  {
    && 0 <= i < |events| && events[i].CheckClaim? && events[i].thread == t
    && At(RunEvents(sys, events[..i]), t).Planned?
    && forall m :: i < m <= |events| ==> At(RunEvents(sys, events[..m]), t).Checked?
  }

  /** Between the check of the thread and now, the command was claimed by somebody else. */
  ghost predicate WriteBetween(sys: System, events: seq<Event>, t: nat, id: CommandId)
    requires StoresValid(sys.lane)
  {
    exists i, j :: CheckedSince(sys, events, t, i) && i < j < |events| && WritesClaim(RunEvents(sys, events[..j]), events[j], id)
  }

  /** No thread writes its claim after another claim of the command fell between its check and its write. */
  ghost predicate NoWriteBetween(sys: System, events: seq<Event>)
    requires StoresValid(sys.lane)
  {
    events == [] || (var front, last := events[..|events| - 1], events[|events| - 1];
                     && NoWriteBetween(sys, front)
                     && (last.WriteClaim? && At(RunEvents(sys, front), last.thread).Checked? ==>
                           !WriteBetween(sys, front, last.thread, At(RunEvents(sys, front), last.thread).copy.id)))
  }

  lemma {:induction false} WritesGrow(sys: System, events: seq<Event>, k: nat, id: CommandId)
    requires StoresValid(sys.lane) && k <= |events|
    ensures Writes(sys, events[..k], id) <= Writes(sys, events, id)
    ensures Writes(sys, events[..k], id) == 0 < Writes(sys, events, id) ==>
              exists j :: k <= j < |events| && WritesClaim(RunEvents(sys, events[..j]), events[j], id)
  {
    hide StoresValid, WritesClaim, RunEvents;
    if k == |events| {
      assert events[..k] == events;
    } else {
      var front := events[..|events| - 1];
      assert front[..k] == events[..k];
      assert forall j :: 0 <= j <= |front| ==> front[..j] == events[..j];
      WritesGrow(sys, front, k, id);
      if Writes(sys, front, id) == 0 < Writes(sys, events, id) {
        var j := |events| - 1;
        assert WritesClaim(RunEvents(sys, events[..j]), events[j], id);
      } else if Writes(sys, events[..k], id) == 0 < Writes(sys, events, id) {
        var j :| k <= j < |front| && WritesClaim(RunEvents(sys, front[..j]), front[j], id);
        assert WritesClaim(RunEvents(sys, events[..j]), events[j], id);
      }
    }
  }

  /** A thread that waits to write passed its check at some point, and keeps the copy it made then. */
  lemma {:induction false} HasCheck(sys: System, events: seq<Event>, t: nat) returns (i: int)
    requires StoresValid(sys.lane) && !At(sys, t).Checked? && At(RunEvents(sys, events), t).Checked?
    ensures CheckedSince(sys, events, t, i)
    ensures var before := RunEvents(sys, events[..i]);
            IsQueued(before.lane.commands, At(before, t).id)
            && (IdsMatch(before.lane) ==> At(before, t).id == At(RunEvents(sys, events), t).copy.id)
  {
    hide StoresValid, IsQueued, IdsMatch;
    var front, last := events[..|events| - 1], events[|events| - 1];
    var before := RunEvents(sys, front);
    BecomesChecked(before, last, t);
    if At(before, t).Checked? {
      i := HasCheck(sys, front, t);
      assert front[..i] == events[..i];
      forall m | i < m <= |events| ensures At(RunEvents(sys, events[..m]), t).Checked? {
        if m <= |front| {
          assert front[..m] == events[..m];
        } else {
          assert events[..m] == events;
        }
      }
    } else {
      i := |events| - 1;
      assert events[..i] == front;
      assert events[..i + 1] == events;
    }
  }

  lemma BecomesChecked(sys: System, e: Event, t: nat)
    requires StoresValid(sys.lane) && At(Next(sys, e), t).Checked?
    ensures At(sys, t).Checked? ==> At(Next(sys, e), t) == At(sys, t)
    ensures !At(sys, t).Checked? ==>
              && e.CheckClaim? && e.thread == t && At(sys, t).Planned?
              && IsQueued(sys.lane.commands, At(sys, t).id)
              && (IdsMatch(sys.lane) ==> At(Next(sys, e), t).copy.id == At(sys, t).id)
  {
    hide StoresValid, MayStart, RecordReport, RecordSession, Step;
  }

  // ----- fresh runs -----

  ghost predicate FreshEvent(sys: System, e: Event) {
    e.Service? ==> Fresh(sys.lane, e.op)
  }

  /** Every command that the service stores in this run gets an id that is not in use. */
  ghost predicate FreshEvents(sys: System, events: seq<Event>)
    requires StoresValid(sys.lane)
  {
    events == [] || (FreshEvents(sys, events[..|events| - 1]) && FreshEvent(RunEvents(sys, events[..|events| - 1]), events[|events| - 1]))
  }

  /** A paper command with this content is stored. */
  ghost predicate PaperStored(s: Lane, id: CommandId) {
    s.commands.Has(id) && s.commands.entries[id].body.mode.Paper?
  }

  ghost predicate CopySound(s: Lane, c: Command) {
    PaperStored(s, c.id) && s.commands.entries[c.id].body == c.body && c.status.Claimed?
  }

  ghost predicate ThreadSound(sys: System, t: nat) {
    match At(sys, t)
    case Planned(id) => PaperStored(sys.lane, id)
    case Checked(c) => CopySound(sys.lane, c)
    case Holding(c) => CopySound(sys.lane, c)
    case _ => true
  }

  ghost predicate SystemInvariant(sys: System) {
    && Invariant(sys.lane)
    && (forall i :: 0 <= i < |sys.started| ==> PaperStored(sys.lane, sys.started[i]))
    && (forall t :: ThreadSound(sys, t))
  }

  lemma LaneIsSound(sys: System)
    requires SystemInvariant(sys)
    ensures Invariant(sys.lane) && StoresValid(sys.lane)
  {
    hide Invariant;
    InvariantFacts(sys.lane);
  }

  /** The commands of the lane stay and keep their content. */
  ghost predicate ContentStays(s: Lane, s': Lane) {
    forall id :: s.commands.Has(id) ==> s'.commands.Has(id) && s'.commands.entries[id].body == s.commands.entries[id].body
  }

  lemma StepKeepsContent(s: Lane, op: Op)
    requires Invariant(s) && Fresh(s, op)
    ensures StoresValid(s) && ContentStays(s, Step(s, op))
  {
    hide Invariant, EffectOf, Step, CommandValid, KeyOf, Applied, Legal, Fresh;
    FreshStepIsLegal(s, op);
    forall id | s.commands.Has(id)
      ensures Step(s, op).commands.Has(id) && Step(s, op).commands.entries[id].body == s.commands.entries[id].body
    {
      StoredCommandIsSound(s, id);
      EffectAdvances(s.commands, EffectOf(s, op), id);
    }
  }

  /** A change of the lane that keeps the commands' content keeps everything the threads rely on. */
  lemma LaneKeepsSystem(sys: System, lane: Lane)
    requires SystemInvariant(sys) && Invariant(lane) && ContentStays(sys.lane, lane)
    ensures SystemInvariant(sys.(lane := lane))
  {
    hide Invariant;
    var next := sys.(lane := lane);
    forall t ensures ThreadSound(next, t) {
      assert ThreadSound(sys, t);
    }
  }

  lemma OperationKeepsSystem(sys: System, op: Op)
    requires SystemInvariant(sys) && Fresh(sys.lane, op)
    ensures StoresValid(sys.lane) && SystemInvariant(sys.(lane := Step(sys.lane, op)))
  {
    hide SystemInvariant, Invariant, Step, StoresValid, ContentStays, Fresh;
    LaneIsSound(sys);
    StepKeepsContent(sys.lane, op);
    StepKeepsInvariant(sys.lane, op);
    LaneKeepsSystem(sys, Step(sys.lane, op));
  }

  lemma MoveKeepsSystem(sys: System, t: nat, progress: Progress)
    requires SystemInvariant(sys)
    requires progress.Planned? ==> PaperStored(sys.lane, progress.id)
    requires progress.Checked? ==> CopySound(sys.lane, progress.copy)
    requires progress.Holding? ==> CopySound(sys.lane, progress.command)
    ensures SystemInvariant(Move(sys, t, progress))
  {
    hide Invariant, PaperStored, CopySound;
    var next := Move(sys, t, progress);
    forall u ensures ThreadSound(next, u) {
      assert ThreadSound(sys, u);
    }
  }

  lemma MayStartIsPaper(s: Lane, profileId: string, id: CommandId)
    requires MayStart(s, profileId, id)
    ensures PaperStored(s, id)
  {
    hide Reasons, IsLiveEnabled;
  }

  lemma CopyIsSound(sys: System, t: nat, worker: string, now: string)
    requires SystemInvariant(sys) && At(sys, t).Planned? && Claim(sys.lane, At(sys, t).id, worker, now).1.Some?
    ensures CopySound(sys.lane, Claim(sys.lane, At(sys, t).id, worker, now).1.value)
  {
    hide Invariant, CommandValid, KeyOf;
    assert ThreadSound(sys, t);
    StoredCommandIsSound(sys.lane, At(sys, t).id);
  }

  lemma WriteKeepsSystem(sys: System, t: nat)
    requires SystemInvariant(sys) && At(sys, t).Checked?
    ensures SystemInvariant(Move(sys.(lane := Written(sys.lane, At(sys, t).copy)), t, Holding(At(sys, t).copy)))
  {
    var c := At(sys, t).copy;
    CopyWritten(sys, t);
    hide SystemInvariant, Invariant, CopySound, ContentStays;
    LaneKeepsSystem(sys, Written(sys.lane, c));
    MoveKeepsSystem(sys.(lane := Written(sys.lane, c)), t, Holding(c));
  }

  lemma CopyWritten(sys: System, t: nat)
    requires SystemInvariant(sys) && At(sys, t).Checked?
    ensures var lane := Written(sys.lane, At(sys, t).copy);
            Invariant(lane) && ContentStays(sys.lane, lane) && CopySound(lane, At(sys, t).copy)
  {
    hide Invariant;
    assert ThreadSound(sys, t);
    UpdateKeepsInvariant(sys.lane, At(sys, t).copy);
  }

  lemma LaunchKeepsSystem(sys: System, t: nat, status: SessionStatus)
    requires SystemInvariant(sys) && At(sys, t).Holding?
    ensures SystemInvariant(Move(sys.(started := sys.started + [At(sys, t).command.id]), t, Launched(SessionFor(At(sys, t).command, status))))
  {
    hide Invariant, SessionFor;
    assert ThreadSound(sys, t);
    var next := Move(sys.(started := sys.started + [At(sys, t).command.id]), t, Launched(SessionFor(At(sys, t).command, status)));
    forall u ensures ThreadSound(next, u) {
      assert ThreadSound(sys, u);
    }
  }

  lemma RecordKeepsSystem(sys: System, op: Op, t: nat, progress: Progress)
    requires SystemInvariant(sys) && (op.DoSession? || op.DoReport?) && (progress.Idle? || progress.Kept?)
    ensures StoresValid(sys.lane) && SystemInvariant(Move(sys.(lane := Step(sys.lane, op)), t, progress))
  {
    hide SystemInvariant, Step;
    OperationKeepsSystem(sys, op);
    MoveKeepsSystem(sys.(lane := Step(sys.lane, op)), t, progress);
  }

  lemma NextKeepsSystem(sys: System, e: Event)
    requires SystemInvariant(sys) && FreshEvent(sys, e)
    ensures StoresValid(sys.lane) && SystemInvariant(Next(sys, e))
  {
    hide SystemInvariant, StoresValid, MayStart, Claim, RecordReport, RecordSession, PaperStored, CopySound, Invariant, Written, Fresh;
    LaneIsSound(sys);
    match e
    case Service(op) => OperationKeepsSystem(sys, op);
    case PlanStart(t, profileId, id) =>
      if At(sys, t).Idle? && MayStart(sys.lane, profileId, id) {
        MayStartIsPaper(sys.lane, profileId, id);
        MoveKeepsSystem(sys, t, Planned(id));
      }
    case CheckClaim(t, worker, now) =>
      if At(sys, t).Planned? {
        var copy := Claim(sys.lane, At(sys, t).id, worker, now).1;
        if copy.Some? {
          CopyIsSound(sys, t, worker, now);
        }
        MoveKeepsSystem(sys, t, if copy.Some? then Checked(copy.value) else Idle);
      }
    case WriteClaim(t) =>
      if At(sys, t).Checked? {
        WriteKeepsSystem(sys, t);
      }
    case Launch(t, status) =>
      if At(sys, t).Holding? {
        LaunchKeepsSystem(sys, t, status);
      }
    case KeepSession(t) =>
      if At(sys, t).Launched? {
        RecordKeepsSystem(sys, DoSession(At(sys, t).session), t, Kept(At(sys, t).session));
      }
    case ReportStart(t, payload) =>
      if At(sys, t).Kept? {
        RecordKeepsSystem(sys, DoReport(At(sys, t).session.commandId, payload), t, Idle);
      }
    case Abort(t) => MoveKeepsSystem(sys, t, Idle);
  }

  lemma {:induction false} EventsKeepSystem(sys: System, events: seq<Event>)
    requires SystemInvariant(sys) && StoresValid(sys.lane) && FreshEvents(sys, events)
    ensures SystemInvariant(RunEvents(sys, events))
  {
    hide SystemInvariant, Next, FreshEvent;
    if events != [] {
      EventsKeepSystem(sys, events[..|events| - 1]);
      NextKeepsSystem(RunEvents(sys, events[..|events| - 1]), events[|events| - 1]);
    }
  }
}
