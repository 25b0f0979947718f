/** What every run of the execution lane keeps. */
module LaneRuns {
  import opened Options
  import opened Dicts
  import opened LaneModels
  import opened LaneSpec
  import opened LaneGates

  /** The payload passes every check and its key is new, so its command is stored. */
  ghost predicate Stores(s: Lane, payload: CommandPayload) {
    Admissible(s, payload.body) && KeyOf(payload.body) !in s.index
  }

  /** A command that the operation stores is queued, and its id, derived or supplied, is not in use. */
  ghost predicate Fresh(s: Lane, op: Op) {
    op.DoEnqueue? && Stores(s, op.payload) ==> op.payload.status.Queued? && !s.commands.Has(Build(op.payload).id)
  }

  ghost predicate FreshRun(s: Lane, ops: seq<Op>)
    requires StoresValid(s)
  {
    ops == [] || (FreshRun(s, ops[..|ops| - 1]) && Fresh(Run(s, ops[..|ops| - 1]), ops[|ops| - 1]))
  }

  lemma {:induction false} FreshPrefix(s: Lane, ops: seq<Op>, k: nat)
    requires StoresValid(s) && FreshRun(s, ops) && k <= |ops|
    ensures FreshRun(s, ops[..k])
  {
    hide Fresh;
    if k < |ops| {
      var front := ops[..|ops| - 1];
      assert front[..k] == ops[..k];
      FreshPrefix(s, front, k);
    } else {
      assert ops[..k] == ops;
    }
  }

  /** The command stored under id is the one its own fields name. */
  ghost predicate CommandSound(s: Lane, id: CommandId)
    requires s.commands.Has(id)
  {
    var c := s.commands.entries[id];
    && c.id == id && id != Given("")
    && KeyOf(c.body) in s.index && s.index[KeyOf(c.body)] == id
    && CommandValid(c.body)
    && !c.status.Rejected?
  }

  ghost predicate KeySound(s: Lane, key: (string, string))
    requires key in s.index
  {
    s.commands.Has(s.index[key]) && KeyOf(s.commands.entries[s.index[key]].body) == key
  }

  ghost predicate ProfileSound(s: Lane, profileId: string)
    requires profileId in s.profiles
  {
    s.profiles[profileId].profileId == profileId && ProfileValid(s.profiles[profileId])
  }

  ghost predicate Invariant(s: Lane) {
    && StoresValid(s)
    && (forall id :: id in s.commands.entries ==> CommandSound(s, id))
    && (forall key :: key in s.index ==> KeySound(s, key))
    && (forall n :: n in s.profiles ==> ProfileSound(s, n))
    && (s.maxReports.Some? ==> |s.reports.keys| <= s.maxReports.value)
    && (s.maxSessions.Some? ==> |s.sessions.keys| <= s.maxSessions.value)
  }

  lemma StoredCommandIsSound(s: Lane, id: CommandId)
    requires Invariant(s) && s.commands.Has(id)
    ensures CommandSound(s, id)
  {
  }

  /** Replacing a stored command by one with the same content keeps the invariant. */
  lemma UpdateKeepsInvariant(s: Lane, c: Command)
    requires Invariant(s) && s.commands.Has(c.id) && s.commands.entries[c.id].body == c.body && !c.status.Rejected?
    ensures Invariant(s.(commands := s.commands.Put(c.id, c)))
  {
    hide KeyOf;
    hide MaterialOf;
    hide CommandValid;
    hide ProfileValid;
    hide StoresValid;
    var s' := s.(commands := s.commands.Put(c.id, c));
    assert StoresValid(s') by { StoresAfterPut(s, c); }
    assert CommandSound(s, c.id);
    forall id | id in s'.commands.entries ensures CommandSound(s', id) {
      assert CommandSound(s, id);
    }
    forall key | key in s'.index ensures KeySound(s', key) {
      assert KeySound(s, key);
    }
    forall n | n in s'.profiles ensures ProfileSound(s', n) {
      assert ProfileSound(s, n);
    }
  }

  lemma StoresOnly(s: Lane, index: map<(string, string), CommandId>)
    requires StoresValid(s)
    ensures StoresValid(s.(index := index))
  {
  }

  lemma StoresAfterPut(s: Lane, c: Command)
    requires StoresValid(s)
    ensures StoresValid(s.(commands := s.commands.Put(c.id, c)))
  {
  }

  /** Storing a new command under an unused id, and its key in the index, keeps the invariant. */
  lemma AcceptKeepsInvariant(s: Lane, c: Command)
    requires Invariant(s) && !s.commands.Has(c.id) && KeyOf(c.body) !in s.index
    requires c.id != Given("") && CommandValid(c.body) && !c.status.Rejected?
    ensures Invariant(s.(commands := s.commands.Put(c.id, c), index := s.index[KeyOf(c.body) := c.id]))
  {
    hide CommandValid, ProfileValid, MaterialOf, KeyOf, StoresValid;
    var s' := s.(commands := s.commands.Put(c.id, c), index := s.index[KeyOf(c.body) := c.id]);
    StoresAfterPut(s, c);
    StoresOnly(s.(commands := s.commands.Put(c.id, c)), s'.index);
    forall id | id in s'.commands.entries ensures CommandSound(s', id) {
      assert id != c.id ==> CommandSound(s, id);
    }
    forall key | key in s'.index ensures KeySound(s', key) {
      assert key in s.index ==> KeySound(s, key);
    }
    forall n | n in s'.profiles ensures ProfileSound(s', n) {
      assert ProfileSound(s, n);
    }
  }

  lemma EnqueueKeepsInvariant(s: Lane, payload: CommandPayload)
    requires Invariant(s) && Fresh(s, DoEnqueue(payload))
    ensures Invariant(Enqueue(s, payload).0)
  {
    hide Invariant;
    hide CommandValid;
    hide ProfileMatches;
    var c := Build(payload);
    if Stores(s, payload) {
      AcceptKeepsInvariant(s, c);
    }
  }

  lemma RegisterKeepsInvariant(s: Lane, p: Profile, slotAccepted: bool)
    requires Invariant(s)
    ensures Invariant(RegisterProfile(s, p, slotAccepted).0)
  {
    hide CommandValid;
    hide ProfileValid;
    var s' := RegisterProfile(s, p, slotAccepted).0;
    forall id | id in s'.commands.entries ensures CommandSound(s', id) {
      assert CommandSound(s, id);
    }
    forall key | key in s'.index ensures KeySound(s', key) {
      assert KeySound(s, key);
    }
    forall n | n in s'.profiles ensures ProfileSound(s', n) {
      assert n in s.profiles ==> ProfileSound(s, n);
    }
  }

  /** Reports and sessions do not matter to the rest of the invariant. */
  lemma StoresKeepInvariant(s: Lane, reports: Dict<ReportId, Report>, sessions: Dict<SessionId, Session>)
    requires Invariant(s) && reports.Valid() && sessions.Valid()
    requires s.maxReports.Some? ==> |reports.keys| <= s.maxReports.value
    requires s.maxSessions.Some? ==> |sessions.keys| <= s.maxSessions.value
    ensures Invariant(s.(reports := reports, sessions := sessions))
  {
    hide CommandValid;
    hide ProfileValid;
    var s' := s.(reports := reports, sessions := sessions);
    forall id | id in s'.commands.entries ensures CommandSound(s', id) {
      assert CommandSound(s, id);
    }
    forall key | key in s'.index ensures KeySound(s', key) {
      assert KeySound(s, key);
    }
    forall n | n in s'.profiles ensures ProfileSound(s', n) {
      assert ProfileSound(s, n);
    }
  }

  lemma ClaimKeepsInvariant(s: Lane, id: CommandId, worker: string, now: string)
    requires Invariant(s)
    ensures Invariant(Claim(s, id, worker, now).0)
  {
    hide CommandValid;
    hide ProfileValid;
    if s.commands.Has(id) && s.commands.entries[id].status.Queued? {
      assert CommandSound(s, id);
      UpdateKeepsInvariant(s, Claim(s, id, worker, now).1.value);
    }
  }

  lemma ReportKeepsInvariant(s: Lane, id: CommandId, payload: ReportPayload)
    requires Invariant(s)
    ensures Invariant(RecordReport(s, id, payload).0)
  {
    hide CommandValid;
    hide ProfileValid;
    var (s', report) := RecordReport(s, id, payload);
    if report.Some? {
      assert CommandSound(s, id);
      var c := s.commands.entries[id].(status := Reported);
      UpdateKeepsInvariant(s, c);
      StoresKeepInvariant(s.(commands := s.commands.Put(c.id, c)), s'.reports, s.sessions);
    }
  }

  lemma StepKeepsInvariant(s: Lane, op: Op)
    requires Invariant(s) && Fresh(s, op)
    ensures Invariant(Step(s, op))
  {
    hide Invariant;
    assert StoresValid(s) by { InvariantFacts(s); }
    match op
    case DoRegister(p, ok) => RegisterKeepsInvariant(s, p, ok);
    case DoEnqueue(payload) => EnqueueKeepsInvariant(s, payload);
    case DoClaim(id, worker, now) => ClaimKeepsInvariant(s, id, worker, now);
    case DoClaimNext(profileId, worker, now) =>
      if FirstQueued(s, profileId, 0).Some? {
        ClaimKeepsInvariant(s, s.commands.entries[s.commands.keys[FirstQueued(s, profileId, 0).value]].id, worker, now);
      }
    case DoReport(id, report) => ReportKeepsInvariant(s, id, report);
    case DoSession(session) =>
      InvariantFacts(s);
      StoresKeepInvariant(s, s.reports, Evicted(s.sessions.Put(session.id, session), s.maxSessions));
  }

  lemma InvariantFacts(s: Lane)
    requires Invariant(s)
    ensures StoresValid(s)
    ensures s.maxReports.Some? ==> |s.reports.keys| <= s.maxReports.value
    ensures s.maxSessions.Some? ==> |s.sessions.keys| <= s.maxSessions.value
  {
  }

  lemma {:induction false} RunKeepsInvariant(s: Lane, ops: seq<Op>)
    requires Invariant(s) && StoresValid(s) && FreshRun(s, ops)
    ensures Invariant(Run(s, ops))
  {
    hide Invariant, Fresh;
    InvariantFacts(s);
    if ops != [] {
      RunKeepsInvariant(s, ops[..|ops| - 1]);
      StepKeepsInvariant(Run(s, ops[..|ops| - 1]), ops[|ops| - 1]);
    }
  }

  lemma InitialInvariant(maxReports: Option<nat>, maxSessions: Option<nat>)
    ensures Invariant(Initial(maxReports, maxSessions))
  {
  }

  /** In every reachable state each (profile, idempotency key) that was accepted owns exactly one stored
      command, every stored command is owned by its key, and the report and session stores respect their
      capacities. */
  lemma EveryKeyOwnsOneCommand(maxReports: Option<nat>, maxSessions: Option<nat>, ops: seq<Op>)
    requires FreshRun(Initial(maxReports, maxSessions), ops)
    ensures var s := Run(Initial(maxReports, maxSessions), ops);
            && (forall key :: key in s.index ==>
                  && s.commands.Has(s.index[key]) && KeyOf(s.commands.entries[s.index[key]].body) == key
                  && forall id :: id in s.commands.entries && KeyOf(s.commands.entries[id].body) == key ==> id == s.index[key])
            && (forall id :: id in s.commands.entries ==> KeyOf(s.commands.entries[id].body) in s.index)
            && |s.index| == |s.commands.keys|
            && (maxReports.Some? ==> |s.reports.keys| <= maxReports.value)
            && (maxSessions.Some? ==> |s.sessions.keys| <= maxSessions.value)
  {
    InitialInvariant(maxReports, maxSessions);
    RunKeepsInvariant(Initial(maxReports, maxSessions), ops);
    var s := Run(Initial(maxReports, maxSessions), ops);
    CapacitiesAreFixed(Initial(maxReports, maxSessions), ops);
    hide Run;
    hide CommandValid;
    hide ProfileValid;
    forall key, id | key in s.index && id in s.commands.entries && KeyOf(s.commands.entries[id].body) == key
      ensures id == s.index[key]
    {
      assert CommandSound(s, id);
    }
    forall key | key in s.index ensures KeySound(s, key) {
    }
    forall id | id in s.commands.entries ensures KeyOf(s.commands.entries[id].body) in s.index {
      assert CommandSound(s, id);
    }
    IndexSize(s);
  }

  lemma StepKeepsCapacities(s: Lane, op: Op)
    requires StoresValid(s)
    ensures Step(s, op).maxReports == s.maxReports && Step(s, op).maxSessions == s.maxSessions
  {
    hide StoresValid, Evicted, FirstQueued, Admissible, ProfileValid, QueuedFor, Build;
  }

  lemma {:induction false} CapacitiesAreFixed(s: Lane, ops: seq<Op>)
    requires StoresValid(s)
    ensures Run(s, ops).maxReports == s.maxReports && Run(s, ops).maxSessions == s.maxSessions
  {
    hide StoresValid, Step;
    if ops != [] {
      CapacitiesAreFixed(s, ops[..|ops| - 1]);
      StepKeepsCapacities(Run(s, ops[..|ops| - 1]), ops[|ops| - 1]);
    }
  }

  lemma IndexSize(s: Lane)
    requires Invariant(s)
    ensures |s.index| == |s.commands.keys|
  {
    hide KeyOf, CommandValid, ProfileValid, CommandSound, ProfileSound;
    var ids := set id | id in s.commands.keys;
    assert s.commands.Valid();
    DistinctSize(s.commands.keys);
    var owned := set key | key in s.index :: s.index[key];
    assert owned == ids by { OwnedIds(s, ids, owned); }
    forall k1, k2 | k1 in s.index && k2 in s.index && s.index[k1] == s.index[k2] ensures k1 == k2 {
      assert KeySound(s, k1) && KeySound(s, k2);
    }
    InjectiveImageSize(s.index, s.index.Keys, owned);
  }

  lemma OwnedIds(s: Lane, ids: set<CommandId>, owned: set<CommandId>)
    requires Invariant(s)
    requires ids == set id | id in s.commands.keys
    requires owned == set key | key in s.index :: s.index[key]
    ensures owned == ids
  {
    hide KeyOf;
    hide MaterialOf;
    hide CommandValid;
    hide ProfileValid;
    assert s.commands.Valid();
    forall id | id in ids ensures id in owned {
      assert CommandSound(s, id);
      var key := KeyOf(s.commands.entries[id].body);
      assert key in s.index && s.index[key] == id;
    }
    forall id | id in owned ensures id in ids {
      var key :| key in s.index && s.index[key] == id;
      assert KeySound(s, key);
    }
  }

  lemma {:induction false} InjectiveImageSize<K, V>(m: map<K, V>, keys: set<K>, image: set<V>)
    requires keys <= m.Keys && image == set k | k in keys :: m[k]
    requires forall k1, k2 :: k1 in m && k2 in m && m[k1] == m[k2] ==> k1 == k2
    ensures |keys| == |image|
    decreases |keys|
  {
    if keys != {} {
      var k :| k in keys;
      var rest := keys - {k};
      var restImage := set x | x in rest :: m[x];
      assert image == restImage + {m[k]};
      InjectiveImageSize(m, rest, restImage);
    }
  }

  // ----- what a step does to the command store -----

  datatype Effect = NoEffect | Accepts(command: Command) | Claims(command: Command) | Reports(command: Command)

  function EffectOf(s: Lane, op: Op): Effect
  {
    match op
    case DoEnqueue(payload) =>
      if Admissible(s, payload.body) && KeyOf(payload.body) !in s.index then Accepts(Build(payload)) else NoEffect
    case DoClaim(id, worker, now) => ClaimEffect(s, id, worker, now)
    case DoClaimNext(profileId, worker, now) =>
      (match FirstQueued(s, profileId, 0)
       case None => NoEffect
       case Some(i) => ClaimEffect(s, s.commands.entries[s.commands.keys[i]].id, worker, now))
    case DoReport(id, report) =>
      if s.commands.Has(id) && ReportValid(s.commands.entries[id], report)
      then Reports(s.commands.entries[id].(status := Reported)) else NoEffect
    case _ => NoEffect
  }

  function ClaimEffect(s: Lane, id: CommandId, worker: string, now: string): Effect {
    if s.commands.Has(id) && s.commands.entries[id].status.Queued?
    then Claims(s.commands.entries[id].(status := Claimed, claimedBy := Some(worker), claimedAt := Some(now)))
    else NoEffect
  }

  function Applied(commands: Dict<CommandId, Command>, effect: Effect): Dict<CommandId, Command> {
    if effect.NoEffect? then commands else commands.Put(effect.command.id, effect.command)
  }

  /** The effect is a legal one: acceptance of an unused id, or progress of a stored command. */
  ghost predicate Legal(commands: Dict<CommandId, Command>, effect: Effect) {
    match effect
    case NoEffect => true
    case Accepts(c) => !commands.Has(c.id) && c.status.Queued? && c.claimedBy.None? && CommandValid(c.body)
    case Claims(c) =>
      && commands.Has(c.id) && commands.entries[c.id].status.Queued? && c.status.Claimed?
      && c.body == commands.entries[c.id].body && c.claimedBy.Some?
    case Reports(c) =>
      commands.Has(c.id) && c == commands.entries[c.id].(status := Reported)
  }

  /** Every command is stored under its own id. */
  ghost predicate IdsMatch(s: Lane) {
    forall id :: id in s.commands.entries ==> s.commands.entries[id].id == id
  }

  lemma ClaimIsItsEffect(s: Lane, id: CommandId, worker: string, now: string)
    requires IdsMatch(s)
    ensures Claim(s, id, worker, now).0.commands == Applied(s.commands, ClaimEffect(s, id, worker, now))
  {
  }

  lemma EnqueueIsItsEffect(s: Lane, payload: CommandPayload)
    ensures Enqueue(s, payload).0.commands == Applied(s.commands, EffectOf(s, DoEnqueue(payload)))
  {
    hide CommandValid, ProfileMatches;
  }

  lemma ReportIsItsEffect(s: Lane, id: CommandId, report: ReportPayload)
    requires IdsMatch(s) && StoresValid(s)
    ensures RecordReport(s, id, report).0.commands == Applied(s.commands, EffectOf(s, DoReport(id, report)))
  {
    hide Evicted, ReportValid, FirstQueued, ClaimEffect, Admissible;
  }

  /** What any step does to the commands is its effect. */
  lemma StepIsItsEffect(s: Lane, op: Op)
    requires IdsMatch(s) && StoresValid(s)
    ensures Step(s, op).commands == Applied(s.commands, EffectOf(s, op))
  {
    hide StoresValid, FirstQueued, Claim, ClaimEffect, Enqueue, RecordReport, Applied, IdsMatch;
    match op
    case DoEnqueue(payload) => EnqueueIsItsEffect(s, payload);
    case DoClaim(id, worker, now) => ClaimIsItsEffect(s, id, worker, now);
    case DoClaimNext(profileId, worker, now) =>
      if FirstQueued(s, profileId, 0).Some? {
        var id := s.commands.entries[s.commands.keys[FirstQueued(s, profileId, 0).value]].id;
        ClaimIsItsEffect(s, id, worker, now);
      } else {
        AppliedNothing(s.commands);
      }
    case DoReport(id, report) => ReportIsItsEffect(s, id, report);
    case _ => AppliedNothing(s.commands);
  }

  /** Claims and reports only move stored commands forward. */
  lemma ProgressIsLegal(s: Lane, op: Op)
    requires IdsMatch(s) && !op.DoEnqueue?
    ensures Legal(s.commands, EffectOf(s, op)) && !EffectOf(s, op).Accepts?
  {
    hide CommandValid, ReportValid;
  }

  lemma SoundIdsMatch(s: Lane)
    requires Invariant(s)
    ensures IdsMatch(s)
  {
    hide KeyOf, CommandValid, ProfileValid, StoresValid;
    forall id | id in s.commands.entries ensures s.commands.entries[id].id == id {
      assert CommandSound(s, id);
    }
  }

  /** A fresh step is a legal effect. */
  lemma FreshStepIsLegal(s: Lane, op: Op)
    requires Invariant(s) && Fresh(s, op)
    ensures StoresValid(s) && Step(s, op).commands == Applied(s.commands, EffectOf(s, op))
    ensures Legal(s.commands, EffectOf(s, op))
  {
    hide Invariant, StoresValid, IdsMatch, Step, CommandValid, ProfileMatches;
    InvariantFacts(s);
    SoundIdsMatch(s);
    StepIsItsEffect(s, op);
    if !op.DoEnqueue? {
      hide EffectOf, Legal;
      ProgressIsLegal(s, op);
    }
  }

  lemma AppliedNothing(commands: Dict<CommandId, Command>)
    ensures Applied(commands, NoEffect) == commands
  {
  }

  // ----- histories of a run -----

  /** The effects of the operations of a run, in order. */
  function Effects(s: Lane, ops: seq<Op>): (effects: seq<Effect>)
    requires StoresValid(s)
    ensures |effects| == |ops|
  {
    if ops == [] then []
    else
      var front := ops[..|ops| - 1];
      Effects(s, front) + [EffectOf(Run(s, front), ops[|ops| - 1])]
  }

  /** The ids of accepted commands, oldest first. */
  function AcceptedIds(effects: seq<Effect>): seq<CommandId> {
    if effects == [] then []
    else
      var front, last := AcceptedIds(effects[..|effects| - 1]), effects[|effects| - 1];
      if last.Accepts? then front + [last.command.id] else front
  }

  /** How often the command was claimed. */
  function ClaimTimes(effects: seq<Effect>, id: CommandId): nat {
    if effects == [] then 0
    else
      var last := effects[|effects| - 1];
      ClaimTimes(effects[..|effects| - 1], id) + if last.Claims? && last.command.id == id then 1 else 0
  }

  /** The claims of one command, as the store remembers them and as the history counts them. */
  ghost predicate ClaimsAgree(commands: Dict<CommandId, Command>, effects: seq<Effect>, id: CommandId) {
    if commands.Has(id) then
      && (commands.entries[id].status.Queued? ==> ClaimTimes(effects, id) == 0)
      && (commands.entries[id].claimedBy.None? <==> ClaimTimes(effects, id) == 0)
      && ClaimTimes(effects, id) <= 1
    else ClaimTimes(effects, id) == 0
  }

  ghost predicate HistoryAgrees(commands: Dict<CommandId, Command>, effects: seq<Effect>) {
    && commands.keys == AcceptedIds(effects)
    && (forall id :: ClaimsAgree(commands, effects, id))
  }

  lemma ClaimsStep(commands: Dict<CommandId, Command>, effects: seq<Effect>, effect: Effect, id: CommandId)
    requires ClaimsAgree(commands, effects, id) && Legal(commands, effect)
    ensures ClaimsAgree(Applied(commands, effect), effects + [effect], id)
  {
    hide CommandValid;
    var all := effects + [effect];
    assert all[..|effects|] == effects;
    assert ClaimTimes(all, id) == ClaimTimes(effects, id) + if effect.Claims? && effect.command.id == id then 1 else 0;
    hide ClaimTimes;
  }

  lemma HistoryStep(commands: Dict<CommandId, Command>, effects: seq<Effect>, effect: Effect)
    requires HistoryAgrees(commands, effects) && Legal(commands, effect)
    ensures HistoryAgrees(Applied(commands, effect), effects + [effect])
  {
    hide ClaimsAgree;
    forall id ensures ClaimsAgree(Applied(commands, effect), effects + [effect], id) {
      ClaimsStep(commands, effects, effect, id);
    }
    hide CommandValid;
    var all := effects + [effect];
    assert all[..|effects|] == effects;
    assert AcceptedIds(all) == AcceptedIds(effects) + if effect.Accepts? then [effect.command.id] else [];
    hide AcceptedIds;
  }

  lemma {:induction false} HistoryOfRun(s: Lane, ops: seq<Op>)
    requires Invariant(s) && StoresValid(s) && FreshRun(s, ops) && HistoryAgrees(s.commands, [])
    ensures HistoryAgrees(Run(s, ops).commands, Effects(s, ops))
  {
    hide Invariant;
    InvariantFacts(s);
    hide HistoryAgrees, Step, EffectOf, Fresh;
    if ops != [] {
      var front := ops[..|ops| - 1];
      HistoryOfRun(s, front);
      RunKeepsInvariant(s, front);
      FreshStepIsLegal(Run(s, front), ops[|ops| - 1]);
      HistoryStep(Run(s, front).commands, Effects(s, front), EffectOf(Run(s, front), ops[|ops| - 1]));
    }
  }

  lemma NoHistoryYet(maxReports: Option<nat>, maxSessions: Option<nat>)
    ensures HistoryAgrees(Initial(maxReports, maxSessions).commands, [])
  {
  }

  /** Over every run: the store lists the accepted commands in the order of their acceptance, and no command
      is claimed twice; one that is still queued was never claimed. */
  lemma ClaimedAtMostOnce(maxReports: Option<nat>, maxSessions: Option<nat>, ops: seq<Op>, id: CommandId)
    requires FreshRun(Initial(maxReports, maxSessions), ops)
    ensures var s0 := Initial(maxReports, maxSessions);
            && Run(s0, ops).commands.keys == AcceptedIds(Effects(s0, ops))
            && ClaimTimes(Effects(s0, ops), id) <= 1
            && (Run(s0, ops).commands.Has(id) && Run(s0, ops).commands.entries[id].status.Queued? ==>
                  ClaimTimes(Effects(s0, ops), id) == 0)
  {
    hide Run;
    hide Effects;
    hide ClaimTimes;
    hide Invariant;
    var s0 := Initial(maxReports, maxSessions);
    InitialInvariant(maxReports, maxSessions);
    NoHistoryYet(maxReports, maxSessions);
    HistoryOfRun(s0, ops);
    assert ClaimsAgree(Run(s0, ops).commands, Effects(s0, ops), id);
  }

  // ----- order of claims -----

  /** Position i of the list is the first queued command of the profile. */
  ghost predicate Earliest(s: Lane, ids: seq<CommandId>, i: nat, profileId: string) {
    && i < |ids| && QueuedFor(s, ids[i], profileId)
    && forall j :: 0 <= j < i ==> !QueuedFor(s, ids[j], profileId)
  }

  /** The claimed command is the first queued one of the profile in this list, and there is none when nothing was claimed. */
  ghost predicate TakesEarliest(s: Lane, ids: seq<CommandId>, profileId: string, claimed: Option<Command>) {
    && (claimed.Some? ==> exists i: nat :: Earliest(s, ids, i, profileId) && ids[i] == claimed.value.id)
    && (claimed.None? ==> forall j :: 0 <= j < |ids| ==> !QueuedFor(s, ids[j], profileId))
  }

  lemma ClaimNextIsFirst(s: Lane, profileId: string, worker: string, now: string)
    requires Invariant(s)
    ensures TakesEarliest(s, s.commands.keys, profileId, ClaimNext(s, profileId, worker, now).1)
  {
    hide Invariant;
    hide CommandValid;
    hide KeyOf;
    hide MaterialOf;
    var first := FirstQueued(s, profileId, 0);
    if first.Some? {
      assert Earliest(s, s.commands.keys, first.value, profileId);
      StoredCommandIsSound(s, s.commands.keys[first.value]);
    }
  }

  /** claim_next takes the queued command of the profile that was accepted first, and fails only when there is none. */
  lemma ClaimNextTakesTheEarliest(maxReports: Option<nat>, maxSessions: Option<nat>, ops: seq<Op>,
                                  profileId: string, worker: string, now: string)
    requires FreshRun(Initial(maxReports, maxSessions), ops)
    ensures var s := Run(Initial(maxReports, maxSessions), ops);
            var accepted := AcceptedIds(Effects(Initial(maxReports, maxSessions), ops));
            TakesEarliest(s, accepted, profileId, ClaimNext(s, profileId, worker, now).1)
  {
    hide Run, Effects, AcceptedIds, ClaimsAgree, Invariant, TakesEarliest, ClaimNext;
    var s0 := Initial(maxReports, maxSessions);
    InitialInvariant(maxReports, maxSessions);
    NoHistoryYet(maxReports, maxSessions);
    RunKeepsInvariant(s0, ops);
    HistoryOfRun(s0, ops);
    ClaimNextIsFirst(Run(s0, ops), profileId, worker, now);
  }

  // ----- commands only move forward -----

  /** How a stored command may differ later: its content is fixed and its status never goes back. */
  ghost predicate Advances(before: Command, after: Command) {
    && after.id == before.id && after.body == before.body
    && (after.status.Queued? ==> before.status.Queued?)
    && (before.status.Reported? ==> after.status.Reported?)
  }

  lemma EffectAdvances(commands: Dict<CommandId, Command>, effect: Effect, id: CommandId)
    requires Legal(commands, effect) && commands.Has(id) && commands.entries[id].id == id
    ensures Applied(commands, effect).Has(id)
    ensures Advances(commands.entries[id], Applied(commands, effect).entries[id])
  {
    hide CommandValid;
  }

  lemma {:induction false} CommandsAdvance(s: Lane, ops: seq<Op>, id: CommandId)
    requires Invariant(s) && StoresValid(s) && FreshRun(s, ops) && s.commands.Has(id)
    ensures Run(s, ops).commands.Has(id)
    ensures Advances(s.commands.entries[id], Run(s, ops).commands.entries[id])
  {
    hide Invariant;
    InvariantFacts(s);
    hide StoresValid;
    hide Step;
    hide EffectOf, Applied, CommandValid, Fresh;
    if ops != [] {
      var front, last := ops[..|ops| - 1], ops[|ops| - 1];
      CommandsAdvance(s, front, id);
      RunKeepsInvariant(s, front);
      var middle := Run(s, front);
      StoredCommandIsSound(middle, id);
      FreshStepIsLegal(middle, last);
      EffectAdvances(middle.commands, EffectOf(middle, last), id);
    }
  }

  // ----- conservation -----

  /** The commands a snapshot looks at. */
  predicate InScope(c: Command, profileId: Option<string>, projectId: Option<string>) {
    && (profileId.Some? ==> c.body.profileId == profileId.value)
    && (projectId.Some? ==> c.body.projectId == projectId.value)
  }

  /** The number of commands in scope, among the first i stored, that have one of the given statuses. */
  function CountUpTo(commands: Dict<CommandId, Command>, i: nat, statuses: set<CommandStatus>,
                     profileId: Option<string>, projectId: Option<string>): nat
    requires commands.Valid() && i <= |commands.keys|
  {
    if i == 0 then 0
    else
      var c := commands.entries[commands.keys[i - 1]];
      CountUpTo(commands, i - 1, statuses, profileId, projectId)
      + if InScope(c, profileId, projectId) && c.status in statuses then 1 else 0
  }

  function Count(commands: Dict<CommandId, Command>, statuses: set<CommandStatus>,
                 profileId: Option<string>, projectId: Option<string>): nat
    requires commands.Valid()
  {
    CountUpTo(commands, |commands.keys|, statuses, profileId, projectId)
  }

  lemma CountStep(commands: Dict<CommandId, Command>, i: nat, statuses: set<CommandStatus>,
                  profileId: Option<string>, projectId: Option<string>)
    requires commands.Valid() && i < |commands.keys|
    ensures commands.keys[i] in commands.entries
    ensures var c := commands.entries[commands.keys[i]];
            CountUpTo(commands, i + 1, statuses, profileId, projectId) ==
            CountUpTo(commands, i, statuses, profileId, projectId)
            + if InScope(c, profileId, projectId) && c.status in statuses then 1 else 0
  {
    hide InScope;
    assert commands.keys[i] in commands.keys;
  }

  lemma NothingCounted(commands: Dict<CommandId, Command>, profileId: Option<string>, projectId: Option<string>)
    requires commands.Valid()
    ensures forall statuses :: CountUpTo(commands, 0, statuses, profileId, projectId) == 0
  {
  }

  lemma EverythingInScope(c: Command)
    ensures InScope(c, None, None)
  {
  }

  lemma NotRejected(s: Lane, id: CommandId)
    requires Invariant(s) && s.commands.Valid() && id in s.commands.keys
    ensures id in s.commands.entries && !s.commands.entries[id].status.Rejected?
  {
    hide Invariant, CommandValid, KeyOf, MaterialOf;
    StoredCommandIsSound(s, id);
  }

  lemma {:induction false} CountsAddUp(s: Lane, i: nat, profileId: Option<string>, projectId: Option<string>)
    requires Invariant(s) && s.commands.Valid() && i <= |s.commands.keys|
    ensures CountUpTo(s.commands, i, {Queued}, profileId, projectId)
            + CountUpTo(s.commands, i, {Claimed}, profileId, projectId)
            + CountUpTo(s.commands, i, {Reported}, profileId, projectId)
            == CountUpTo(s.commands, i, {Queued, Claimed, Reported, Rejected}, profileId, projectId)
    ensures profileId.None? && projectId.None? ==>
              CountUpTo(s.commands, i, {Queued, Claimed, Reported, Rejected}, profileId, projectId) == i
  {
    hide Invariant, CommandValid, ProfileValid, InScope, CommandSound, CountUpTo;
    if i == 0 {
      NothingCounted(s.commands, profileId, projectId);
    } else {
      CountsAddUp(s, i - 1, profileId, projectId);
      NotRejected(s, s.commands.keys[i - 1]);
      CountStep(s.commands, i - 1, {Queued}, profileId, projectId);
      CountStep(s.commands, i - 1, {Claimed}, profileId, projectId);
      CountStep(s.commands, i - 1, {Reported}, profileId, projectId);
      CountStep(s.commands, i - 1, {Queued, Claimed, Reported, Rejected}, profileId, projectId);
      EverythingInScope(s.commands.entries[s.commands.keys[i - 1]]);
    }
  }

  /** In every reachable state and for every scope, queued, claimed and reported commands add up to all the
      commands in the scope; over all scopes, to the number of commands ever accepted. */
  lemma SnapshotCountsAddUp(maxReports: Option<nat>, maxSessions: Option<nat>, ops: seq<Op>,
                            profileId: Option<string>, projectId: Option<string>)
    requires FreshRun(Initial(maxReports, maxSessions), ops)
    ensures var s := Run(Initial(maxReports, maxSessions), ops);
            && Count(s.commands, {Queued}, profileId, projectId) + Count(s.commands, {Claimed}, profileId, projectId)
               + Count(s.commands, {Reported}, profileId, projectId)
               == Count(s.commands, {Queued, Claimed, Reported, Rejected}, profileId, projectId)
            && Count(s.commands, {Queued}, None, None) + Count(s.commands, {Claimed}, None, None)
               + Count(s.commands, {Reported}, None, None)
               == |AcceptedIds(Effects(Initial(maxReports, maxSessions), ops))|
  {
    hide Run;
    hide Effects;
    hide AcceptedIds;
    hide ClaimsAgree;
    hide CountUpTo;
    hide Invariant;
    var s0 := Initial(maxReports, maxSessions);
    InitialInvariant(maxReports, maxSessions);
    NoHistoryYet(maxReports, maxSessions);
    RunKeepsInvariant(s0, ops);
    HistoryOfRun(s0, ops);
    var s := Run(s0, ops);
    InvariantFacts(s);
    CountsAddUp(s, |s.commands.keys|, profileId, projectId);
    CountsAddUp(s, |s.commands.keys|, None, None);
  }

  // ----- live authority -----

  /** The enqueue at step k admitted the command against the profile stored at that moment. */
  ghost predicate AdmittedAt(s0: Lane, ops: seq<Op>, k: nat, b: CommandBody)
    requires StoresValid(s0) && k < |ops|
  {
    && ops[k].DoEnqueue? && ops[k].payload.body == b
    && Admissible(Run(s0, ops[..k]), b)
  }

  lemma {:induction false} StoredWasAdmitted(s0: Lane, ops: seq<Op>, id: CommandId)
    requires Invariant(s0) && StoresValid(s0) && s0.commands == Empty() && FreshRun(s0, ops)
    requires Run(s0, ops).commands.Has(id)
    ensures exists k: nat :: k < |ops| && AdmittedAt(s0, ops, k, Run(s0, ops).commands.entries[id].body)
  {
    hide Invariant;
    hide Step;
    hide CommandValid;
    hide ProfileValid;
    hide ProfileMatches, Fresh, KeyOf, ReportValid;
    if ops != [] {
      var n := |ops| - 1;
      var front := ops[..n];
      RunKeepsInvariant(s0, front);
      var s := Run(s0, front);
      FreshStepIsLegal(s, ops[n]);
      var body := Run(s0, ops).commands.entries[id].body;
      if s.commands.Has(id) {
        StoredWasAdmitted(s0, front, id);
        var k: nat :| k < n && AdmittedAt(s0, front, k, s.commands.entries[id].body);
        assert front[..k] == ops[..k];
        assert s.commands.entries[id].body == body by { StoredCommandIsSound(s, id); }
        assert AdmittedAt(s0, ops, k, body);
      } else {
        assert AdmittedAt(s0, ops, n, body);
      }
    }
  }

  /** In every reachable state a stored command with any live flag has all three, is LIVE, carries an approved
      risk decision, and was enqueued against a live-enabled profile with the same risk profile, credential
      slot and evidence. */
  lemma LiveCommandsWereVetted(maxReports: Option<nat>, maxSessions: Option<nat>, ops: seq<Op>, id: CommandId)
    requires FreshRun(Initial(maxReports, maxSessions), ops)
    requires Run(Initial(maxReports, maxSessions), ops).commands.Has(id)
    requires CommandWantsLive(Run(Initial(maxReports, maxSessions), ops).commands.entries[id].body)
    ensures var s0 := Initial(maxReports, maxSessions);
            var b := Run(s0, ops).commands.entries[id].body;
            && b.mode.Live? && b.liveTradingEnabled && b.executionAuthority && b.maySubmitOrder && RiskApproved(b)
            && exists k: nat :: k < |ops| &&
                 var p := Run(s0, ops[..k]).profiles;
                 b.profileId in p && ProfileValid(p[b.profileId]) && IsLiveEnabled(p[b.profileId]) && SameEvidence(p[b.profileId], b)
  {
    var s0 := Initial(maxReports, maxSessions);
    InitialInvariant(maxReports, maxSessions);
    RunKeepsInvariant(s0, ops);
    StoredWasAdmitted(s0, ops, id);
    var s := Run(s0, ops);
    var b := s.commands.entries[id].body;
    var k: nat :| k < |ops| && AdmittedAt(s0, ops, k, b);
    var earlier := Run(s0, ops[..k]);
    FreshPrefix(s0, ops, k);
    RunKeepsInvariant(s0, ops[..k]);
    hide Run;
    assert ProfileSound(earlier, b.profileId);
    assert CommandSound(s, id);
  }

  /** A plan built later, after any operations, from the stored profile and a stored command carries order authority
      only if the profile stored at that moment passes every gate, and the profile the command was enqueued against
      did so too, with the same risk profile, credential slot and evidence. */
  lemma LaterPlansRecheckTheProfile(maxReports: Option<nat>, maxSessions: Option<nat>, ops: seq<Op>, profileId: string, id: CommandId)
    requires FreshRun(Initial(maxReports, maxSessions), ops)
    requires var s := Run(Initial(maxReports, maxSessions), ops);
             && profileId in s.profiles && s.commands.Has(id)
             && PlanOf(s.profiles[profileId], Some(s.commands.entries[id].body)).Some?
             && PlanOf(s.profiles[profileId], Some(s.commands.entries[id].body)).value.maySubmitOrder
    ensures var s0 := Initial(maxReports, maxSessions);
            var s := Run(s0, ops);
            var p, b := s.profiles[profileId], s.commands.entries[id].body;
            && ProfileValid(p) && IsLiveEnabled(p) && ProfileReasons(p) == {} && CommandReasons(p, b) == {}
            && SameEvidence(p, b) && b.riskStatus == Some("approved") && b.profileId == profileId
            && exists k: nat :: k < |ops| &&
                 var earlier := Run(s0, ops[..k]).profiles;
                 profileId in earlier && ProfileValid(earlier[profileId]) && IsLiveEnabled(earlier[profileId])
                 && SameEvidence(earlier[profileId], b)
  {
    hide Run, FreshRun, ProfileReasons, CommandReasons, IsLiveEnabled, SameEvidence, ProfileValid, CommandValid, RiskApproved;
    var s0 := Initial(maxReports, maxSessions);
    var s := Run(s0, ops);
    var p, b := s.profiles[profileId], s.commands.entries[id].body;
    InitialInvariant(maxReports, maxSessions);
    RunKeepsInvariant(s0, ops);
    assert ProfileSound(s, profileId);
    PlanAuthorityNeedsEveryGate(p, Some(b));
    assert Reasons(p, Some(b)) == {};
    LiveCommandsWereVetted(maxReports, maxSessions, ops, id);
  }
}
