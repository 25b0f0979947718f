/** What the service of the execution lane answers, and what every check of a plan or a command stands for. */
module LaneLaws {
  import opened Options
  import opened Dicts
  import Text
  import opened LaneModels
  import opened LaneGates
  import opened LaneSpec
  import opened LaneRuns
  import opened LaneIds

  // ----- command ids -----

  /** Derived ids tell commands apart exactly by the eight fields they are hashed from; a supplied id is taken as it is. */
  lemma DerivedIdsDiffer(p: CommandPayload, q: CommandPayload)
    ensures p.commandId.Some? && p.commandId.value != Given("") ==> Build(p).id == p.commandId.value
    ensures (p.commandId.None? || p.commandId == Some(Given(""))) && (q.commandId.None? || q.commandId == Some(Given(""))) ==>
              (Build(p).id == Build(q).id <==>
                 && p.body.tenantId == q.body.tenantId && p.body.projectId == q.body.projectId && p.body.profileId == q.body.profileId
                 && p.body.tradeActionId == q.body.tradeActionId && p.body.sourceEventId == q.body.sourceEventId
                 && p.body.idempotencyKey == q.body.idempotencyKey && p.body.lineageId == q.body.lineageId
                 && p.body.versionId == q.body.versionId)
  {
  }

  // ----- enqueue -----

  /** Keys stay, and keep the command they were given. */
  lemma StepKeepsKeys(s: Lane, op: Op)
    requires StoresValid(s)
    ensures forall key :: key in s.index ==> key in Step(s, op).index && Step(s, op).index[key] == s.index[key]
  {
    hide StoresValid, Admissible, KeyOf;
    if !op.DoEnqueue? {
      hide Step;
      OthersKeepIndex(s, op);
    }
  }

  lemma {:induction false} RunKeepsKeys(s: Lane, ops: seq<Op>, later: seq<Op>)
    requires StoresValid(s)
    ensures forall key :: key in Run(s, ops).index ==>
              key in Run(s, ops + later).index && Run(s, ops + later).index[key] == Run(s, ops).index[key]
    decreases |later|
  {
    hide StoresValid, Step;
    if later == [] {
      assert ops + later == ops;
    } else {
      var all, front := ops + later, later[..|later| - 1];
      assert all[..|all| - 1] == ops + front;
      RunKeepsKeys(s, ops, front);
      StepKeepsKeys(Run(s, ops + front), later[|later| - 1]);
    }
  }

  /** The reply to an enqueue after a fresh run: nothing iff the body is not admissible, and otherwise the command that is stored
      afterwards under its own id and the payload's key; a known key changes nothing. */
  lemma EnqueueReply(maxReports: Option<nat>, maxSessions: Option<nat>, ops: seq<Op>, payload: CommandPayload)
    requires FreshRun(Initial(maxReports, maxSessions), ops)
    ensures var s := Run(Initial(maxReports, maxSessions), ops);
            var (after, reply) := Enqueue(s, payload);
            var key := (payload.body.profileId, payload.body.idempotencyKey);
            && (reply.None? <==> !Admissible(s, payload.body))
            && (reply.None? ==> after == s)
            && (reply.Some? ==>
                  && after.commands.Has(reply.value.id) && after.commands.entries[reply.value.id] == reply.value
                  && reply.value.body.profileId == payload.body.profileId
                  && reply.value.body.idempotencyKey == payload.body.idempotencyKey
                  && key in after.index && after.index[key] == reply.value.id)
            && (reply.Some? && key in s.index ==> after == s)
            && (reply.Some? && key !in s.index ==>
                  && reply.value.body == payload.body && reply.value.status == payload.status
                  && reply.value.claimedBy.None? && reply.value.claimedAt.None?
                  && after.commands == s.commands.Put(reply.value.id, reply.value)
                  && after.profiles == s.profiles && after.reports == s.reports && after.sessions == s.sessions)
  {
    hide Run, Invariant, Admissible;
    var s0 := Initial(maxReports, maxSessions);
    InitialInvariant(maxReports, maxSessions);
    RunKeepsInvariant(s0, ops);
    var s := Run(s0, ops);
    if KeyOf(payload.body) in s.index {
      KeyNamesItsCommand(s, KeyOf(payload.body));
    }
  }

  lemma KeyNamesItsCommand(s: Lane, key: (string, string))
    requires Invariant(s) && key in s.index
    ensures s.commands.Has(s.index[key])
    ensures s.commands.entries[s.index[key]].id == s.index[key] && KeyOf(s.commands.entries[s.index[key]].body) == key
  {
    hide CommandValid, ProfileValid, StoresValid;
    assert KeySound(s, key);
    assert CommandSound(s, s.index[key]);
  }

  /** Two accepted enqueues of one key are answered with one command id, whatever happens in between. */
  lemma RepliesShareTheCommand(maxReports: Option<nat>, maxSessions: Option<nat>, ops: seq<Op>, p: CommandPayload, between: seq<Op>,
                               q: CommandPayload)
    requires FreshRun(Initial(maxReports, maxSessions), ops + [DoEnqueue(p)] + between)
    requires FreshRun(Initial(maxReports, maxSessions), ops)
    requires KeyOf(p.body) == KeyOf(q.body)
    ensures var s0 := Initial(maxReports, maxSessions);
            var first, second := Enqueue(Run(s0, ops), p).1, Enqueue(Run(s0, ops + [DoEnqueue(p)] + between), q).1;
            first.Some? && second.Some? ==> second.value.id == first.value.id && second.value.body == first.value.body
  {
    hide Run, Enqueue, Admissible, FreshRun, Invariant;
    var s0, middle := Initial(maxReports, maxSessions), ops + [DoEnqueue(p)];
    EnqueueReply(maxReports, maxSessions, ops, p);
    EnqueueReply(maxReports, maxSessions, middle + between, q);
    InitialInvariant(maxReports, maxSessions);
    FreshPrefix(s0, middle + between, |middle|);
    assert (middle + between)[..|middle|] == middle;
    RunKeepsInvariant(s0, middle);
    InvariantFacts(s0);
    EnqueueIsAStep(s0, ops, p);
    RunKeepsKeys(s0, middle, between);
    var first := Enqueue(Run(s0, ops), p).1;
    if first.Some? {
      BodiesStay(s0, middle, between, first.value.id);
    }
  }

  lemma EnqueueIsAStep(s: Lane, ops: seq<Op>, p: CommandPayload)
    requires StoresValid(s)
    ensures Run(s, ops + [DoEnqueue(p)]) == Enqueue(Run(s, ops), p).0
  {
    hide Enqueue, StoresValid;
    assert (ops + [DoEnqueue(p)])[..|ops|] == ops;
  }

  lemma {:induction false} BodiesStay(s: Lane, ops: seq<Op>, later: seq<Op>, id: CommandId)
    requires Invariant(s) && StoresValid(s) && FreshRun(s, ops + later) && Run(s, ops).commands.Has(id)
    ensures Run(s, ops + later).commands.Has(id)
    ensures Run(s, ops + later).commands.entries[id].body == Run(s, ops).commands.entries[id].body
    decreases |later|
  {
    hide StoresValid, Step, Invariant, Fresh, EffectOf, Applied, CommandValid;
    if later == [] {
      assert ops + later == ops;
    } else {
      var all, front, last := ops + later, later[..|later| - 1], later[|later| - 1];
      assert all[..|all| - 1] == ops + front && all[|all| - 1] == last;
      BodiesStay(s, ops, front, id);
      RunKeepsInvariant(s, ops + front);
      var middle := Run(s, ops + front);
      StoredCommandIsSound(middle, id);
      FreshStepIsLegal(middle, last);
      EffectAdvances(middle.commands, EffectOf(middle, last), id);
    }
  }

  // ----- the other replies -----

  /** A valid profile with an accepted slot is stored under its own id in place of any earlier one; others change nothing. */
  lemma RegisterReply(s: Lane, p: Profile, slotAccepted: bool)
    ensures var (after, reply) := RegisterProfile(s, p, slotAccepted);
            && (reply.Some? <==> ProfileValid(p) && slotAccepted) && (reply.Some? ==> reply.value == p)
            && after == s.(profiles := after.profiles)
            && after.profiles.Keys == s.profiles.Keys + (if reply.Some? then {p.profileId} else {})
            && (reply.Some? ==> after.profiles[p.profileId] == p)
            && forall n :: n in s.profiles && (n != p.profileId || reply.None?) ==> after.profiles[n] == s.profiles[n]
  {
    hide ProfileValid;
  }

  /** A claim succeeds iff the command is queued; it records worker and time in that command, and nothing else changes. */
  lemma ClaimReply(s: Lane, id: CommandId, worker: string, now: string)
    requires IdsMatch(s)
    ensures var (after, reply) := Claim(s, id, worker, now);
            && (reply.Some? <==> s.commands.Has(id) && s.commands.entries[id].status.Queued?)
            && (reply.None? ==> after == s)
            && (reply.Some? ==>
                  && reply.value.id == id && reply.value.body == s.commands.entries[id].body
                  && reply.value.status.Claimed? && reply.value.claimedBy == Some(worker) && reply.value.claimedAt == Some(now)
                  && after == s.(commands := after.commands) && after.commands.keys == s.commands.keys
                  && after.commands.entries == s.commands.entries[id := reply.value])
  {
  }

  /** A report of a stored command is accepted iff none of its fields is empty and its payload is clean.  It carries what the caller
      gave and, for the rest, the command's own fields; it is kept as the newest one, and the command is marked reported. */
  lemma ReportReply(s: Lane, id: CommandId, payload: ReportPayload)
    requires IdsMatch(s) && StoresValid(s)
    ensures var (after, reply) := RecordReport(s, id, payload);
            && (reply.None? ==> after == s)
            && (!s.commands.Has(id) ==> reply.None?)
            && (reply.Some? ==>
                  var c, r := s.commands.entries[id], reply.value;
                  && payload.clean && r.reportType == payload.reportType != "" && r.content == payload.content
                  && r.commandId == Or(payload.commandId, id) != Given("") && r.profileId == Or(payload.profileId, c.body.profileId) != ""
                  && r.tenantId == Or(payload.tenantId, c.body.tenantId) != "" && r.projectId == Or(payload.projectId, c.body.projectId) != ""
                  && r.adapterId == Or(payload.adapterId, c.body.adapterId) != "" && r.venue == Or(payload.venue, c.body.venue) != ""
                  && r.instrumentId == Or(payload.instrumentId, Or(c.body.instrumentId, "UNKNOWN")) != ""
                  && (payload.reportId.Some? && payload.reportId.value != "" ==> r.id == GivenReport(payload.reportId.value))
                  && (payload.reportId.None? ==> r.id == DerivedReport(r.commandId, r.profileId, r.reportType, r.content))
                  && after.commands.keys == s.commands.keys
                  && after.commands.entries == s.commands.entries[id := c.(status := Reported)]
                  && after == s.(commands := after.commands, reports := after.reports)
                  && after.reports == Evicted(s.reports.Put(r.id, r), s.maxReports))
            && (s.commands.Has(id) && reply.None? ==>
                  var c := s.commands.entries[id];
                  || !payload.clean || payload.reportType == "" || Or(payload.commandId, id) == Given("")
                  || Or(payload.profileId, c.body.profileId) == "" || Or(payload.tenantId, c.body.tenantId) == ""
                  || Or(payload.projectId, c.body.projectId) == "" || Or(payload.adapterId, c.body.adapterId) == ""
                  || Or(payload.venue, c.body.venue) == "" || Or(payload.instrumentId, Or(c.body.instrumentId, "UNKNOWN")) == "")
  {
    hide Evicted;
  }

  /** The entry stored last is kept, unless the store may hold nothing; the oldest entries make room. */
  lemma NewestIsKept<K(!new), V>(d: Dict<K, V>, max: Option<nat>)
    requires d.Valid() && d.keys != [] && max != Some(0)
    ensures var kept, k := Evicted(d, max), d.keys[|d.keys| - 1];
            && kept.keys != [] && kept.keys[|kept.keys| - 1] == k
            && k in kept.entries && k in d.entries && kept.entries[k] == d.entries[k]
            && |kept.keys| == if max.Some? && |d.keys| > max.value then max.value else |d.keys|
  {
    hide Evicted;
    var kept := Evicted(d, max);
    assert kept.keys[|kept.keys| - 1] == d.keys[|d.keys| - 1];
    assert kept.keys[|kept.keys| - 1] in kept.keys;
  }

  /** A snapshot looks at the commands of the profile and the project it is asked for, and at all of them when it is asked for none; a
      claim by profile takes queued commands of that profile only. */
  lemma ScopesIff(s: Lane, c: Command, profileId: Option<string>, projectId: Option<string>, id: CommandId, profile: string)
    ensures InScope(c, profileId, projectId) <==>
              (profileId.None? || profileId.value == c.body.profileId) && (projectId.None? || projectId.value == c.body.projectId)
    ensures QueuedFor(s, id, profile) <==>
              id in s.commands.entries && s.commands.entries[id].body.profileId == profile && s.commands.entries[id].status == Queued
  {
  }

  // ----- what each check stands for -----

  /** A plan is refused iff the command names another tenant, project, profile, mode, adapter or venue. */
  lemma PlanRefusedIff(p: Profile, c: Option<CommandBody>)
    ensures PlanOf(p, c).None? <==>
              && c.Some?
              && (|| p.tenantId != c.value.tenantId || p.projectId != c.value.projectId || p.profileId != c.value.profileId
                  || p.mode != c.value.mode || p.adapterId != Some(c.value.adapterId) || p.venue != Some(c.value.venue))
  {
    hide Reasons, PlanFrom;
  }

  /** A profile admits a command of its own iff the plan would not be refused, the accounts do not clash, and a command that asks for
      authority finds a live-enabled profile with its own evidence. */
  lemma AdmissionIff(p: Profile, c: CommandBody)
    requires p.profileId == c.profileId
    ensures ProfileMatches(p, c) <==>
              && PlanOf(p, Some(c)).Some?
              && (p.venueAccountId.None? || p.venueAccountId == Some("") || c.venueAccountId.None? || c.venueAccountId == Some("")
                  || p.venueAccountId == c.venueAccountId)
              && (c.liveTradingEnabled || c.executionAuthority || c.maySubmitOrder ==>
                    && IsLiveEnabled(p)
                    && p.riskProfileId == c.riskProfileId && p.credentialSlotRef == c.credentialSlotRef
                    && p.manualReviewId == c.manualReviewId && p.dataTesterRef == c.dataTesterRef
                    && p.execTesterRef == c.execTesterRef && p.reconciliationRef == c.reconciliationRef)
  {
    hide Reasons, PlanFrom, IsLiveEnabled;
  }

  /** The plan carries the profile's mode and the reasons; authority only when LIVE and ready; and the slot iff it is ready. */
  lemma PlanFields(p: Profile, c: Option<CommandBody>)
    requires PlanOf(p, c).Some?
    ensures var plan := PlanOf(p, c).value;
            && plan.mode == p.mode && plan.blockedReasons == Reasons(p, c)
            && (plan.ready ==> plan.blockedReasons == {} && p.enabled && plan.credentialSlotRef == p.credentialSlotRef)
            && (!plan.ready ==> plan.credentialSlotRef.None? && !plan.liveTradingEnabled && !plan.executionAuthority && !plan.maySubmitOrder)
            && (plan.ready && p.mode.Live? ==> plan.liveTradingEnabled && plan.executionAuthority && plan.maySubmitOrder)
            && (p.mode.Paper? ==> !plan.liveTradingEnabled && !plan.executionAuthority && !plan.maySubmitOrder)
  {
    hide Reasons;
  }

  /** Each reason stands for its own field of the profile. */
  lemma ProfileReasonsName(p: Profile)
    ensures Enabled in ProfileReasons(p) <==> !p.enabled
    ensures AdapterId in ProfileReasons(p) <==> !Text.Present(p.adapterId)
    ensures Venue in ProfileReasons(p) <==> !Text.Present(p.venue)
    ensures PaperTradingEnabled in ProfileReasons(p) <==> p.mode.Paper? && !p.paperTradingEnabled
    ensures PaperForbids(LiveTradingEnabled) in ProfileReasons(p) <==> p.mode.Paper? && p.liveTradingEnabled
    ensures PaperForbids(ExecutionAuthority) in ProfileReasons(p) <==> p.mode.Paper? && p.executionAuthority
    ensures PaperForbids(MaySubmitOrder) in ProfileReasons(p) <==> p.mode.Paper? && p.maySubmitOrder
    ensures p.mode.Live? ==>
              && (AdvisoryOnlyFalse in ProfileReasons(p) <==> p.advisoryOnly)
              && (ManualReviewRequired in ProfileReasons(p) <==> !p.manualReviewRequired)
              && (ReconciliationRequired in ProfileReasons(p) <==> !p.reconciliationRequired)
              && (LiveTradingEnabled in ProfileReasons(p) <==> !p.liveTradingEnabled)
              && (ExecutionAuthority in ProfileReasons(p) <==> !p.executionAuthority)
              && (MaySubmitOrder in ProfileReasons(p) <==> !p.maySubmitOrder)
  {
    hide Text.Present, LiveFields, BlankGates, Binding, ProfileReasons;
    BindingGates(p);
    LiveFieldNames(p);
    InProfileReasons(p, Enabled);
    InProfileReasons(p, AdapterId);
    InProfileReasons(p, Venue);
    InProfileReasons(p, PaperTradingEnabled);
    InProfileReasons(p, PaperForbids(LiveTradingEnabled));
    InProfileReasons(p, PaperForbids(ExecutionAuthority));
    InProfileReasons(p, PaperForbids(MaySubmitOrder));
    InProfileReasons(p, AdvisoryOnlyFalse);
    InProfileReasons(p, ManualReviewRequired);
    InProfileReasons(p, ReconciliationRequired);
    InProfileReasons(p, LiveTradingEnabled);
    InProfileReasons(p, ExecutionAuthority);
    InProfileReasons(p, MaySubmitOrder);
  }

  predicate InPaperReasons(p: Profile, g: Gate) {
    || (g.PaperTradingEnabled? && !p.paperTradingEnabled)
    || (g == PaperForbids(LiveTradingEnabled) && p.liveTradingEnabled)
    || (g == PaperForbids(ExecutionAuthority) && p.executionAuthority)
    || (g == PaperForbids(MaySubmitOrder) && p.maySubmitOrder)
  }

  ghost predicate InLiveReasons(p: Profile, g: Gate) {
    || (g.AdvisoryOnlyFalse? && p.advisoryOnly)
    || (g.ManualReviewRequired? && !p.manualReviewRequired)
    || (g.ReconciliationRequired? && !p.reconciliationRequired)
    || (g.LiveTradingEnabled? && !p.liveTradingEnabled)
    || (g.ExecutionAuthority? && !p.executionAuthority)
    || (g.MaySubmitOrder? && !p.maySubmitOrder)
    || g in BlankGates(LiveFields(p))
  }

  lemma InLiveGates(p: Profile, g: Gate)
    ensures g in LiveGates(p) <==> InLiveReasons(p, g)
  {
    hide BlankGates, LiveFields;
  }

  /** The reasons of a profile, one gate at a time. */
  lemma InProfileReasons(p: Profile, g: Gate)
    ensures g in ProfileReasons(p) <==>
              || (g.Enabled? && !p.enabled)
              || g in BlankGates(Binding(p))
              || (p.mode.Paper? && InPaperReasons(p, g))
              || (p.mode.Live? && InLiveReasons(p, g))
  {
    hide BlankGates, LiveFields, Binding, LiveGates, InLiveReasons;
    InLiveGates(p, g);
  }

  /** Each blank field of a LIVE profile is named by its own gate, and no other gate is. */
  lemma LiveFieldNames(p: Profile)
    ensures RiskProfileId in BlankGates(LiveFields(p)) <==> !Text.Present(p.riskProfileId)
    ensures CredentialSlotRef in BlankGates(LiveFields(p)) <==> !Text.Present(p.credentialSlotRef)
    ensures ActivatedBy in BlankGates(LiveFields(p)) <==> !Text.Present(p.activatedBy)
    ensures ActivatedAt in BlankGates(LiveFields(p)) <==> !Text.Present(p.activatedAt)
    ensures ConfigChecksum in BlankGates(LiveFields(p)) <==> !Text.Present(p.configChecksum)
    ensures ManualReviewId in BlankGates(LiveFields(p)) <==> !Text.Present(p.manualReviewId)
    ensures DataTesterRef in BlankGates(LiveFields(p)) <==> !Text.Present(p.dataTesterRef)
    ensures ExecTesterRef in BlankGates(LiveFields(p)) <==> !Text.Present(p.execTesterRef)
    ensures ReconciliationRef in BlankGates(LiveFields(p)) <==> !Text.Present(p.reconciliationRef)
    ensures BlankGates(LiveFields(p)) <= {RiskProfileId, CredentialSlotRef, ActivatedBy, ActivatedAt, ConfigChecksum, ManualReviewId,
                                          DataTesterRef, ExecTesterRef, ReconciliationRef}
  {
    hide Text.Present;
    var f := LiveFields(p);
    assert f[0] == (RiskProfileId, p.riskProfileId) && f[1] == (CredentialSlotRef, p.credentialSlotRef)
        && f[2] == (ActivatedBy, p.activatedBy) && f[3] == (ActivatedAt, p.activatedAt) && f[4] == (ConfigChecksum, p.configChecksum)
        && f[5] == (ManualReviewId, p.manualReviewId) && f[6] == (DataTesterRef, p.dataTesterRef)
        && f[7] == (ExecTesterRef, p.execTesterRef) && f[8] == (ReconciliationRef, p.reconciliationRef);
  }

  /** Each reason stands for its own field of the command; a PAPER profile asks nothing of one. */
  lemma CommandReasonsName(p: Profile, c: CommandBody)
    ensures p.mode.Paper? ==> CommandReasons(p, c) == {}
    ensures p.mode.Live? ==>
              && (OfCommand(LiveTradingEnabled) in CommandReasons(p, c) <==> !c.liveTradingEnabled)
              && (OfCommand(ExecutionAuthority) in CommandReasons(p, c) <==> !c.executionAuthority)
              && (OfCommand(MaySubmitOrder) in CommandReasons(p, c) <==> !c.maySubmitOrder)
              && (OfCommand(RiskProfileId) in CommandReasons(p, c) <==> c.riskProfileId != p.riskProfileId)
              && (OfCommand(CredentialSlotRef) in CommandReasons(p, c) <==> c.credentialSlotRef != p.credentialSlotRef)
              && (OfCommand(RiskDecisionApproved) in CommandReasons(p, c) <==> c.riskStatus != Some("approved"))
  {
    hide Text.Present, BlankGates, CommandEvidence, CommandReasons;
    CommandFieldNames(c);
    PaperAsksNothing(p, c);
    if p.mode.Live? {
      assert OfCommand(LiveTradingEnabled) in CommandReasons(p, c) <==> !c.liveTradingEnabled by { InCommandReasons(p, c, OfCommand(LiveTradingEnabled)); }
      assert OfCommand(ExecutionAuthority) in CommandReasons(p, c) <==> !c.executionAuthority by { InCommandReasons(p, c, OfCommand(ExecutionAuthority)); }
      assert OfCommand(MaySubmitOrder) in CommandReasons(p, c) <==> !c.maySubmitOrder by { InCommandReasons(p, c, OfCommand(MaySubmitOrder)); }
      assert OfCommand(RiskProfileId) in CommandReasons(p, c) <==> c.riskProfileId != p.riskProfileId by { InCommandReasons(p, c, OfCommand(RiskProfileId)); }
      assert OfCommand(CredentialSlotRef) in CommandReasons(p, c) <==> c.credentialSlotRef != p.credentialSlotRef by { InCommandReasons(p, c, OfCommand(CredentialSlotRef)); }
      assert OfCommand(RiskDecisionApproved) in CommandReasons(p, c) <==> c.riskStatus != Some("approved") by { InCommandReasons(p, c, OfCommand(RiskDecisionApproved)); }
    }
  }

  /** Each evidence reason stands for a field of the command that is blank or differs from the profile's. */
  lemma EvidenceReasonsName(p: Profile, c: CommandBody)
    requires p.mode.Live?
    ensures OfCommand(PromotionApprovalId) in CommandReasons(p, c) <==> !Text.Present(c.promotionApprovalId)
    ensures OfCommand(ManualReviewId) in CommandReasons(p, c) <==> !Text.Present(c.manualReviewId) || c.manualReviewId != p.manualReviewId
    ensures OfCommand(DataTesterRef) in CommandReasons(p, c) <==> !Text.Present(c.dataTesterRef) || c.dataTesterRef != p.dataTesterRef
    ensures OfCommand(ExecTesterRef) in CommandReasons(p, c) <==> !Text.Present(c.execTesterRef) || c.execTesterRef != p.execTesterRef
    ensures OfCommand(ReconciliationRef) in CommandReasons(p, c) <==>
              !Text.Present(c.reconciliationRef) || c.reconciliationRef != p.reconciliationRef
  {
    hide Text.Present, BlankGates, CommandEvidence, CommandReasons;
    CommandFieldNames(c);
    InCommandReasons(p, c, OfCommand(PromotionApprovalId));
    InCommandReasons(p, c, OfCommand(ManualReviewId));
    InCommandReasons(p, c, OfCommand(DataTesterRef));
    InCommandReasons(p, c, OfCommand(ExecTesterRef));
    InCommandReasons(p, c, OfCommand(ReconciliationRef));
  }

  lemma PaperAsksNothing(p: Profile, c: CommandBody)
    ensures p.mode.Paper? ==> CommandReasons(p, c) == {}
  {
  }

  /** The reasons of a command against a LIVE profile, one gate at a time. */
  lemma InCommandReasons(p: Profile, c: CommandBody, g: Gate)
    ensures p.mode.Live? ==>
              (g in CommandReasons(p, c) <==>
                 || (g == OfCommand(LiveTradingEnabled) && !c.liveTradingEnabled)
                 || (g == OfCommand(ExecutionAuthority) && !c.executionAuthority)
                 || (g == OfCommand(MaySubmitOrder) && !c.maySubmitOrder)
                 || (g == OfCommand(RiskProfileId) && c.riskProfileId != p.riskProfileId)
                 || (g == OfCommand(CredentialSlotRef) && c.credentialSlotRef != p.credentialSlotRef)
                 || (g == OfCommand(RiskDecisionApproved) && c.riskStatus != Some("approved"))
                 || g in BlankGates(CommandEvidence(c))
                 || (g == OfCommand(ManualReviewId) && c.manualReviewId != p.manualReviewId)
                 || (g == OfCommand(DataTesterRef) && c.dataTesterRef != p.dataTesterRef)
                 || (g == OfCommand(ExecTesterRef) && c.execTesterRef != p.execTesterRef)
                 || (g == OfCommand(ReconciliationRef) && c.reconciliationRef != p.reconciliationRef))
  {
    hide BlankGates, CommandEvidence, Unless;
    forall holds, gate ensures g in Unless(holds, gate) <==> g == gate && !holds {
      InUnless(holds, gate, g);
    }
  }

  lemma InUnless(holds: bool, gate: Gate, g: Gate)
    ensures g in Unless(holds, gate) <==> g == gate && !holds
  {
  }

  lemma CommandFieldNames(c: CommandBody)
    ensures OfCommand(PromotionApprovalId) in BlankGates(CommandEvidence(c)) <==> !Text.Present(c.promotionApprovalId)
    ensures OfCommand(ManualReviewId) in BlankGates(CommandEvidence(c)) <==> !Text.Present(c.manualReviewId)
    ensures OfCommand(DataTesterRef) in BlankGates(CommandEvidence(c)) <==> !Text.Present(c.dataTesterRef)
    ensures OfCommand(ExecTesterRef) in BlankGates(CommandEvidence(c)) <==> !Text.Present(c.execTesterRef)
    ensures OfCommand(ReconciliationRef) in BlankGates(CommandEvidence(c)) <==> !Text.Present(c.reconciliationRef)
    ensures BlankGates(CommandEvidence(c)) <= {OfCommand(PromotionApprovalId), OfCommand(ManualReviewId), OfCommand(DataTesterRef),
                                               OfCommand(ExecTesterRef), OfCommand(ReconciliationRef)}
  {
    hide Text.Present;
    var f := CommandEvidence(c);
    assert f[0] == (OfCommand(PromotionApprovalId), c.promotionApprovalId) && f[1] == (OfCommand(ManualReviewId), c.manualReviewId)
        && f[2] == (OfCommand(DataTesterRef), c.dataTesterRef) && f[3] == (OfCommand(ExecTesterRef), c.execTesterRef)
        && f[4] == (OfCommand(ReconciliationRef), c.reconciliationRef);
  }

  // ----- what the validators accept -----

  predicate LiveFieldsPresent(p: Profile) {
    && Text.Present(p.riskProfileId) && Text.Present(p.credentialSlotRef) && Text.Present(p.activatedBy) && Text.Present(p.activatedAt)
    && Text.Present(p.configChecksum) && Text.Present(p.manualReviewId) && Text.Present(p.dataTesterRef)
    && Text.Present(p.execTesterRef) && Text.Present(p.reconciliationRef)
  }

  /** The profile validator accepts a LIVE profile iff asking for any authority means being live-enabled under a full checksum; and
      never live controls without authority, nor a profile that is enabled without a venue. */
  lemma LiveProfileValidIff(p: Profile)
    requires p.mode.Live?
    ensures ProfileValid(p) <==>
              && p.clean && p.tenantId != "" && p.projectId != "" && p.profileId != ""
              && (p.enabled ==> Text.Present(p.adapterId) && Text.Present(p.venue))
              && (if p.liveTradingEnabled || p.executionAuthority || p.maySubmitOrder
                  then IsLiveEnabled(p) && p.configChecksum.Some? && |p.configChecksum.value| == 64
                  else !p.liveControlsEnabled)
  {
    hide Text.Present, LiveFields;
    AllLiveFieldsPresent(p);
    BlankIsNotPresent();
  }

  lemma BlankIsNotPresent()
    ensures !Text.Present(None)
  {
  }

  lemma PaperProfileValidIff(p: Profile)
    requires p.mode.Paper?
    ensures ProfileValid(p) <==>
              && p.clean && p.tenantId != "" && p.projectId != "" && p.profileId != ""
              && (p.enabled ==> Text.Present(p.adapterId) && Text.Present(p.venue) && p.paperTradingEnabled)
              && !p.liveTradingEnabled && !p.executionAuthority && !p.maySubmitOrder && !p.liveControlsEnabled
  {
    hide Text.Present;
  }

  /** A profile is live-enabled iff it is LIVE and enabled, carries all authority under review, and no evidence field is blank. */
  lemma LiveEnabledIff(p: Profile)
    ensures IsLiveEnabled(p) <==>
              && p.mode.Live? && p.enabled && !p.advisoryOnly && p.manualReviewRequired && p.reconciliationRequired
              && p.liveTradingEnabled && p.executionAuthority && p.maySubmitOrder && LiveFieldsPresent(p)
  {
    hide Text.Present;
  }

  /** The command validator accepts a command iff its required fields are filled and it is clean, and asking for any authority means
      asking for all of it on a LIVE lane, with every evidence field and an approved risk decision. */
  lemma CommandValidIff(c: CommandBody)
    ensures CommandValid(c) <==>
              && c.clean && c.tenantId != "" && c.projectId != "" && c.profileId != "" && c.adapterId != "" && c.venue != ""
              && c.tradeActionId != "" && c.sourceEventId != "" && c.idempotencyKey != "" && c.lineageId != "" && c.versionId != ""
              && (c.liveTradingEnabled || c.executionAuthority || c.maySubmitOrder ==>
                    && c.mode.Live? && c.liveTradingEnabled && c.executionAuthority && c.maySubmitOrder && c.reconciliationRequired
                    && Text.Present(c.promotionApprovalId) && Text.Present(c.riskProfileId) && Text.Present(c.credentialSlotRef)
                    && Text.Present(c.manualReviewId) && Text.Present(c.dataTesterRef) && Text.Present(c.execTesterRef)
                    && Text.Present(c.reconciliationRef)
                    && c.riskStatus.Some? && Text.Lower(c.riskStatus.value) == "approved")
  {
    hide Text.Present, Text.Lower;
    var f := CommandFields(c);
    assert f[0].1 == c.promotionApprovalId && f[1].1 == c.riskProfileId && f[2].1 == c.credentialSlotRef && f[3].1 == c.manualReviewId
        && f[4].1 == c.dataTesterRef && f[5].1 == c.execTesterRef && f[6].1 == c.reconciliationRef;
    assert AllPresent(f) <==>
             Text.Present(f[0].1) && Text.Present(f[1].1) && Text.Present(f[2].1) && Text.Present(f[3].1) && Text.Present(f[4].1)
             && Text.Present(f[5].1) && Text.Present(f[6].1);
  }

  /** What a rejected command's message names is what a plan of it would block on, besides the reconciliation flag, the evidence
      compared with the profile, and the spelling of the risk status. */
  lemma MissingCommandGatesAreReasons(p: Profile, c: CommandBody, g: Gate)
    requires p.mode.Live? && g in MissingCommandGates(c)
    requires g == LiveTradingEnabled || g == ExecutionAuthority || g == MaySubmitOrder || g == RiskDecisionApproved || g == PromotionApprovalId
             || g == ManualReviewId || g == DataTesterRef || g == ExecTesterRef || g == ReconciliationRef
    ensures OfCommand(g) in CommandReasons(p, c)
  {
    hide Text.Present, CommandReasons, MissingCommandGates, CommandEvidence, BlankGates;
    CommandReasonsName(p, c);
    EvidenceReasonsName(p, c);
    InMissingCommandGates(c, g);
    assert RiskApproved(c) || c.riskStatus != Some("approved") by {
      assert Text.Lower("approved") == "approved";
    }
  }

  lemma InMissingCommandGates(c: CommandBody, g: Gate)
    ensures g in MissingCommandGates(c) ==>
              || (g.LiveTradingEnabled? && !c.liveTradingEnabled)
              || (g.ExecutionAuthority? && !c.executionAuthority)
              || (g.MaySubmitOrder? && !c.maySubmitOrder)
              || (g.ReconciliationRequired? && !c.reconciliationRequired)
              || (g.RiskDecisionApproved? && !RiskApproved(c))
              || InBlankFields(c, g)
  {
    hide Text.Present, BlankGates, CommandFields, RiskApproved;
    if g in BlankGates(CommandFields(c)) {
      BlankFieldNames(c, g);
    }
  }

  predicate InBlankFields(c: CommandBody, g: Gate) {
    || (g.PromotionApprovalId? && !Text.Present(c.promotionApprovalId))
    || (g.RiskProfileId? && !Text.Present(c.riskProfileId))
    || (g.CredentialSlotRef? && !Text.Present(c.credentialSlotRef))
    || (g.ManualReviewId? && !Text.Present(c.manualReviewId))
    || (g.DataTesterRef? && !Text.Present(c.dataTesterRef))
    || (g.ExecTesterRef? && !Text.Present(c.execTesterRef))
    || (g.ReconciliationRef? && !Text.Present(c.reconciliationRef))
  }

  lemma BlankFieldNames(c: CommandBody, g: Gate)
    requires g in BlankGates(CommandFields(c))
    ensures InBlankFields(c, g)
  {
    hide Text.Present;
  }
}
