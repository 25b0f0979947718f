/** Profiles, commands and runtime plans of the execution lane, with the three encodings of the live gate. */
module LaneModels {
  import opened Options
  import opened Text

  datatype LaneMode = Paper | Live

  datatype CommandStatus = Queued | Claimed | Reported | Rejected

  /** `clean` says that the profile was given without credentials and without fields of the strategy lane. */
  datatype Profile = Profile(
    tenantId: string, projectId: string, profileId: string,
    mode: LaneMode, enabled: bool,
    adapterId: Option<string>, venue: Option<string>, venueAccountId: Option<string>,
    paperTradingEnabled: bool, liveControlsEnabled: bool,
    advisoryOnly: bool, manualReviewRequired: bool, reconciliationRequired: bool,
    liveTradingEnabled: bool, executionAuthority: bool, maySubmitOrder: bool,
    riskProfileId: Option<string>, credentialSlotRef: Option<string>,
    activatedBy: Option<string>, activatedAt: Option<string>, configChecksum: Option<string>,
    manualReviewId: Option<string>, dataTesterRef: Option<string>,
    execTesterRef: Option<string>, reconciliationRef: Option<string>,
    clean: bool)

  /** What a caller puts into a command; it never changes once the command is stored.  The instrument is the one the
      order intent names, if any; `clean` says that fields and payloads passed the scans for forbidden keys. */
  datatype CommandBody = CommandBody(
    tenantId: string, projectId: string, profileId: string, mode: LaneMode,
    adapterId: string, venue: string, venueAccountId: Option<string>,
    tradeActionId: string, sourceEventId: string, idempotencyKey: string,
    lineageId: string, versionId: string,
    riskStatus: Option<string>, promotionApprovalId: Option<string>,
    riskProfileId: Option<string>, reconciliationRequired: bool, credentialSlotRef: Option<string>,
    manualReviewId: Option<string>, dataTesterRef: Option<string>,
    execTesterRef: Option<string>, reconciliationRef: Option<string>,
    liveTradingEnabled: bool, executionAuthority: bool, maySubmitOrder: bool,
    instrumentId: Option<string>, clean: bool)

  /** A gate that a profile or a command has to pass, as named in `missing` and `blocked_reasons`. */
  datatype Gate =
    | Enabled | AdapterId | Venue | PaperTradingEnabled | PaperForbids(flag: Gate)
    | AdvisoryOnlyFalse | ManualReviewRequired | ReconciliationRequired
    | LiveTradingEnabled | ExecutionAuthority | MaySubmitOrder
    | RiskProfileId | CredentialSlotRef | ActivatedBy | ActivatedAt | ConfigChecksum | ConfigChecksumSha256
    | ManualReviewId | DataTesterRef | ExecTesterRef | ReconciliationRef
    | PromotionApprovalId | RiskDecisionApproved | OfCommand(gate: Gate)

  const SHA256_LEN := 64

  // ----- the gates of a profile -----

  predicate WantsLiveAuthority(p: Profile) {
    p.liveTradingEnabled || p.executionAuthority || p.maySubmitOrder
  }

  function LiveFields(p: Profile): seq<(Gate, Option<string>)> {
    [(RiskProfileId, p.riskProfileId), (CredentialSlotRef, p.credentialSlotRef), (ActivatedBy, p.activatedBy),
     (ActivatedAt, p.activatedAt), (ConfigChecksum, p.configChecksum), (ManualReviewId, p.manualReviewId),
     (DataTesterRef, p.dataTesterRef), (ExecTesterRef, p.execTesterRef), (ReconciliationRef, p.reconciliationRef)]
  }

  ghost function Elems(gates: seq<Gate>): set<Gate> {
    set g | g in gates
  }

  /** The gates of the fields that are blank. */
  ghost function BlankGates(fields: seq<(Gate, Option<string>)>): set<Gate> {
    set i | 0 <= i < |fields| && !Present(fields[i].1) :: fields[i].0
  }

  method Blanks(fields: seq<(Gate, Option<string>)>) returns (gates: seq<Gate>)
    ensures Elems(gates) == BlankGates(fields)
  {
    hide Present;
    gates := [];
    for i := 0 to |fields|
      invariant Elems(gates) == BlankGates(fields[..i])
    {
      ghost var before := gates;
      assert fields[..i + 1] == fields[..i] + [fields[i]];
      BlankGatesAppend(fields[..i], fields[i]);
      if !Present(fields[i].1) {
        gates := gates + [fields[i].0];
        assert Elems(gates) == Elems(before) + {fields[i].0};
      }
    }
    assert fields[..|fields|] == fields;
  }

  lemma BlankGatesAppend(fields: seq<(Gate, Option<string>)>, f: (Gate, Option<string>))
    ensures BlankGates(fields + [f]) == BlankGates(fields) + if Present(f.1) then {} else {f.0}
  {
    hide Present;
    var all := fields + [f];
    forall g | g in BlankGates(fields) ensures g in BlankGates(all) {
      var i :| 0 <= i < |fields| && !Present(fields[i].1) && fields[i].0 == g;
      assert all[i] == fields[i];
    }
    if !Present(f.1) {
      assert all[|fields|] == f;
    }
  }

  predicate AllPresent(fields: seq<(Gate, Option<string>)>) {
    forall i :: 0 <= i < |fields| ==> Present(fields[i].1)
  }

  /** The property on the profile model: is the profile allowed to carry live authority now? */
  predicate IsLiveEnabled(p: Profile) {
    && p.mode.Live? && p.enabled
    && p.liveTradingEnabled && p.executionAuthority && p.maySubmitOrder
    && !p.advisoryOnly && p.manualReviewRequired && p.reconciliationRequired
    && Present(p.riskProfileId) && Present(p.credentialSlotRef) && Present(p.activatedBy) && Present(p.activatedAt)
    && Present(p.configChecksum) && Present(p.manualReviewId) && Present(p.dataTesterRef)
    && Present(p.execTesterRef) && Present(p.reconciliationRef)
  }

  /** What the profile validator accepts. */
  predicate ProfileValid(p: Profile) {
    && p.clean && p.tenantId != "" && p.projectId != "" && p.profileId != ""
    && (p.enabled ==> Present(p.adapterId) && Present(p.venue))
    && match p.mode {
         case Paper =>
           && !WantsLiveAuthority(p)
           && (p.enabled ==> p.paperTradingEnabled)
           && !p.liveControlsEnabled
         case Live =>
           if WantsLiveAuthority(p)
           then
             && p.enabled && !p.advisoryOnly && p.manualReviewRequired && p.reconciliationRequired
             && p.liveTradingEnabled && p.executionAuthority && p.maySubmitOrder
             && AllPresent(LiveFields(p))
             && (p.configChecksum.Some? ==> |p.configChecksum.value| == SHA256_LEN)
           else !p.liveControlsEnabled
       }
  }

  function Binding(p: Profile): seq<(Gate, Option<string>)> {
    [(AdapterId, p.adapterId), (Venue, p.venue)]
  }

  predicate Unbound(p: Profile) {
    p.enabled && !(Present(p.adapterId) && Present(p.venue))
  }

  predicate ChecksumFits(p: Profile) {
    p.configChecksum.Some? ==> |p.configChecksum.value| == SHA256_LEN
  }

  /** The gates that a rejection names: the blank half of the binding of an enabled profile or, for a bound LIVE
      profile that asks for authority, every gate that fails.  Other rejections name no gate. */
  ghost function MissingGates(p: Profile): set<Gate> {
    if !p.clean then {}
    else if Unbound(p) then BlankGates(Binding(p))
    else if p.mode.Paper? || !WantsLiveAuthority(p) then {}
    else LiveGaps(p)
  }

  /** The gates of a bound and enabled LIVE profile that fail. */
  ghost function LiveGates(p: Profile): set<Gate> {
    Unless(!p.advisoryOnly, AdvisoryOnlyFalse)
    + Unless(p.manualReviewRequired, ManualReviewRequired)
    + Unless(p.reconciliationRequired, ReconciliationRequired)
    + Unless(p.liveTradingEnabled, LiveTradingEnabled)
    + Unless(p.executionAuthority, ExecutionAuthority)
    + Unless(p.maySubmitOrder, MaySubmitOrder)
    + BlankGates(LiveFields(p))
  }

  ghost function LiveGaps(p: Profile): set<Gate> {
    Unless(p.enabled, Enabled) + LiveGates(p) + Unless(ChecksumFits(p), ConfigChecksumSha256)
  }

  predicate NoLiveGap(p: Profile) {
    && p.enabled && !p.advisoryOnly && p.manualReviewRequired && p.reconciliationRequired
    && p.liveTradingEnabled && p.executionAuthority && p.maySubmitOrder
    && AllPresent(LiveFields(p)) && ChecksumFits(p)
  }

  /** The validator as written: it accumulates the missing gates and rejects when there are any. */
  method ValidateProfile(p: Profile) returns (accepted: bool, missing: seq<Gate>)
    requires p.tenantId != "" && p.projectId != "" && p.profileId != ""
    ensures accepted <==> ProfileValid(p)
    ensures Elems(missing) == MissingGates(p)
  {
    hide Present, Elems, LiveFields, LiveGaps, BlankGates;
    missing := [];
    NoElems();
    if !p.clean {
      return false, [];
    }
    if p.enabled {
      var binding := Binding(p);
      missing := Blanks(binding);
      NoBlanks(binding, missing);
      assert AllPresent(binding) <==> Present(binding[0].1) && Present(binding[1].1);
      if missing != [] {
        return false, missing;
      }
    }
    if p.mode.Paper? {
      return !WantsLiveAuthority(p) && (p.enabled ==> p.paperTradingEnabled) && !p.liveControlsEnabled, [];
    }
    if !WantsLiveAuthority(p) {
      return !p.liveControlsEnabled, [];
    }
    missing := CollectLiveGaps(p);
    accepted := missing == [];
  }

  method CollectLiveGaps(p: Profile) returns (missing: seq<Gate>)
    ensures Elems(missing) == LiveGaps(p)
    ensures missing == [] <==> NoLiveGap(p)
  {
    hide Present, AllPresent, Elems, Flag, Join, LiveFields, Unless, BlankGates;
    NoElems();
    missing := Flag(p.enabled, Enabled, []);
    missing := Flag(!p.advisoryOnly, AdvisoryOnlyFalse, missing);
    missing := Flag(p.manualReviewRequired, ManualReviewRequired, missing);
    missing := Flag(p.reconciliationRequired, ReconciliationRequired, missing);
    missing := Flag(p.liveTradingEnabled, LiveTradingEnabled, missing);
    missing := Flag(p.executionAuthority, ExecutionAuthority, missing);
    missing := Flag(p.maySubmitOrder, MaySubmitOrder, missing);
    var blank := Blanks(LiveFields(p));
    NoBlanks(LiveFields(p), blank);
    missing := Join(missing, blank);
    missing := Flag(ChecksumFits(p), ConfigChecksumSha256, missing);
  }

  /** `if not ok: missing.append(gate)` */
  function Flag(ok: bool, gate: Gate, missing: seq<Gate>): (r: seq<Gate>)
    ensures r == [] <==> ok && missing == []
    ensures Elems(r) == Elems(missing) + Unless(ok, gate)
  {
    assert Elems(missing + [gate]) == Elems(missing) + {gate};
    if ok then missing else missing + [gate]
  }

  /** `reasons.extend(more)` */
  function Join(reasons: seq<Gate>, more: seq<Gate>): (r: seq<Gate>)
    ensures r == [] <==> reasons == [] && more == []
    ensures Elems(r) == Elems(reasons) + Elems(more)
  {
    reasons + more
  }

  lemma NoElems()
    ensures Elems([]) == {}
  {
  }

  lemma NoBlanks(fields: seq<(Gate, Option<string>)>, gates: seq<Gate>)
    requires Elems(gates) == BlankGates(fields)
    ensures gates == [] <==> AllPresent(fields)
  {
    hide Present;
    if gates != [] {
      assert gates[0] in BlankGates(fields);
    }
    if !AllPresent(fields) {
      var i :| 0 <= i < |fields| && !Present(fields[i].1);
      assert fields[i].0 in BlankGates(fields);
    }
  }

  // ----- the gates of a command -----

  predicate CommandWantsLive(c: CommandBody) {
    c.liveTradingEnabled || c.executionAuthority || c.maySubmitOrder
  }

  function CommandFields(c: CommandBody): seq<(Gate, Option<string>)> {
    [(PromotionApprovalId, c.promotionApprovalId), (RiskProfileId, c.riskProfileId),
     (CredentialSlotRef, c.credentialSlotRef), (ManualReviewId, c.manualReviewId),
     (DataTesterRef, c.dataTesterRef), (ExecTesterRef, c.execTesterRef), (ReconciliationRef, c.reconciliationRef)]
  }

  /** `str(risk_decision.get("status", "")).lower() == "approved"` */
  predicate RiskApproved(c: CommandBody) {
    c.riskStatus.Some? && Lower(c.riskStatus.value) == "approved"
  }

  /** What the command validator accepts. */
  predicate CommandValid(c: CommandBody) {
    && c.clean && c.tenantId != "" && c.projectId != "" && c.profileId != "" && c.adapterId != "" && c.venue != ""
    && c.tradeActionId != "" && c.sourceEventId != "" && c.idempotencyKey != ""
    && c.lineageId != "" && c.versionId != ""
    && (CommandWantsLive(c) ==>
          && c.mode.Live?
          && c.liveTradingEnabled && c.executionAuthority && c.maySubmitOrder && c.reconciliationRequired
          && AllPresent(CommandFields(c))
          && RiskApproved(c))
  }

  /** The gates that a rejection of a LIVE command names; other rejections name no gate. */
  ghost function MissingCommandGates(c: CommandBody): set<Gate> {
    if !c.clean || c.mode.Paper? || !CommandWantsLive(c) then {}
    else
      Unless(c.liveTradingEnabled, LiveTradingEnabled)
      + Unless(c.executionAuthority, ExecutionAuthority)
      + Unless(c.maySubmitOrder, MaySubmitOrder)
      + Unless(c.reconciliationRequired, ReconciliationRequired)
      + BlankGates(CommandFields(c))
      + Unless(RiskApproved(c), RiskDecisionApproved)
  }

  /** The validator as written, on a command whose required fields are filled. */
  method ValidateCommand(c: CommandBody) returns (accepted: bool, missing: seq<Gate>)
    requires c.tenantId != "" && c.projectId != "" && c.profileId != "" && c.adapterId != "" && c.venue != ""
    requires c.tradeActionId != "" && c.sourceEventId != "" && c.idempotencyKey != "" && c.lineageId != "" && c.versionId != ""
    ensures accepted <==> CommandValid(c)
    ensures Elems(missing) == MissingCommandGates(c)
  {
    hide Present, Elems, Flag, Join, CommandFields, Unless, BlankGates, RiskApproved, AllPresent;
    missing := [];
    NoElems();
    if !c.clean {
      return false, [];
    }
    if c.mode.Paper? {
      return !CommandWantsLive(c), [];
    }
    if !CommandWantsLive(c) {
      return true, [];
    }
    missing := Flag(c.liveTradingEnabled, LiveTradingEnabled, missing);
    missing := Flag(c.executionAuthority, ExecutionAuthority, missing);
    missing := Flag(c.maySubmitOrder, MaySubmitOrder, missing);
    missing := Flag(c.reconciliationRequired, ReconciliationRequired, missing);
    var blank := Blanks(CommandFields(c));
    NoBlanks(CommandFields(c), blank);
    missing := Join(missing, blank);
    missing := Flag(RiskApproved(c), RiskDecisionApproved, missing);
    accepted := missing == [];
  }

  /** What the service demands of a command against the stored profile before it enqueues it. */
  predicate ProfileMatches(p: Profile, c: CommandBody) {
    && p.tenantId == c.tenantId && p.projectId == c.projectId && p.mode == c.mode
    && p.adapterId == Some(c.adapterId) && p.venue == Some(c.venue)
    && (Truthy(p.venueAccountId) && Truthy(c.venueAccountId) ==> p.venueAccountId == c.venueAccountId)
    && (CommandWantsLive(c) ==> IsLiveEnabled(p) && SameEvidence(p, c))
  }

  predicate Truthy(v: Option<string>) {
    v.Some? && v.value != ""
  }

  predicate SameEvidence(p: Profile, c: CommandBody) {
    && p.riskProfileId == c.riskProfileId && p.credentialSlotRef == c.credentialSlotRef
    && p.manualReviewId == c.manualReviewId && p.dataTesterRef == c.dataTesterRef
    && p.execTesterRef == c.execTesterRef && p.reconciliationRef == c.reconciliationRef
  }

  // ----- the runtime plan -----

  datatype Plan = Plan(
    mode: LaneMode, ready: bool, blockedReasons: set<Gate>,
    liveTradingEnabled: bool, executionAuthority: bool, maySubmitOrder: bool,
    credentialSlotRef: Option<string>)

  ghost function Unless(ok: bool, gate: Gate): set<Gate> {
    if ok then {} else {gate}
  }

  ghost function ProfileReasons(p: Profile): set<Gate> {
    Unless(p.enabled, Enabled) + BlankGates(Binding(p)) +
    match p.mode
    case Paper =>
      Unless(p.paperTradingEnabled, PaperTradingEnabled)
      + Unless(!p.liveTradingEnabled, PaperForbids(LiveTradingEnabled))
      + Unless(!p.executionAuthority, PaperForbids(ExecutionAuthority))
      + Unless(!p.maySubmitOrder, PaperForbids(MaySubmitOrder))
    case Live => LiveGates(p)
  }

  function CommandEvidence(c: CommandBody): seq<(Gate, Option<string>)> {
    [(OfCommand(PromotionApprovalId), c.promotionApprovalId), (OfCommand(ManualReviewId), c.manualReviewId),
     (OfCommand(DataTesterRef), c.dataTesterRef), (OfCommand(ExecTesterRef), c.execTesterRef),
     (OfCommand(ReconciliationRef), c.reconciliationRef)]
  }

  ghost function CommandReasons(p: Profile, c: CommandBody): set<Gate> {
    if p.mode.Paper? then {} else
      Unless(c.liveTradingEnabled, OfCommand(LiveTradingEnabled))
      + Unless(c.executionAuthority, OfCommand(ExecutionAuthority))
      + Unless(c.maySubmitOrder, OfCommand(MaySubmitOrder))
      + Unless(c.riskProfileId == p.riskProfileId, OfCommand(RiskProfileId))
      + Unless(c.credentialSlotRef == p.credentialSlotRef, OfCommand(CredentialSlotRef))
      + Unless(c.riskStatus == Some("approved"), OfCommand(RiskDecisionApproved))
      + BlankGates(CommandEvidence(c))
      + Unless(c.manualReviewId == p.manualReviewId, OfCommand(ManualReviewId))
      + Unless(c.dataTesterRef == p.dataTesterRef, OfCommand(DataTesterRef))
      + Unless(c.execTesterRef == p.execTesterRef, OfCommand(ExecTesterRef))
      + Unless(c.reconciliationRef == p.reconciliationRef, OfCommand(ReconciliationRef))
  }

  /** A plan is refused outright when the command belongs to another scope, profile, mode or venue. */
  predicate PlanScopeMatches(p: Profile, c: Option<CommandBody>) {
    c.Some? ==>
      && p.tenantId == c.value.tenantId && p.projectId == c.value.projectId && p.profileId == c.value.profileId
      && p.mode == c.value.mode && p.adapterId == Some(c.value.adapterId) && p.venue == Some(c.value.venue)
  }

  ghost function Reasons(p: Profile, c: Option<CommandBody>): set<Gate> {
    ProfileReasons(p) + if c.Some? then CommandReasons(p, c.value) else {}
  }

  predicate LiveReady(p: Profile, unblocked: bool) {
    p.mode.Live? && unblocked && IsLiveEnabled(p)
  }

  predicate PaperReady(p: Profile, unblocked: bool) {
    p.mode.Paper? && unblocked && p.enabled && p.paperTradingEnabled && p.adapterId.Some? && p.venue.Some?
  }

  function PlanFrom(p: Profile, reasons: set<Gate>): Plan {
    var live := LiveReady(p, reasons == {});
    var ready := live || PaperReady(p, reasons == {});
    Plan(p.mode, ready, reasons,
         live && p.liveTradingEnabled, live && p.executionAuthority, live && p.maySubmitOrder,
         if ready then p.credentialSlotRef else None)
  }

  ghost function PlanOf(p: Profile, c: Option<CommandBody>): Option<Plan> {
    if PlanScopeMatches(p, c) then Some(PlanFrom(p, Reasons(p, c))) else None
  }

  method ProfileBlockedReasons(p: Profile) returns (reasons: seq<Gate>)
    ensures Elems(reasons) == ProfileReasons(p)
  {
    hide Elems;
    hide Flag;
    hide Join;
    hide Unless;
    hide BlankGates;
    hide LiveFields;
    reasons := Flag(p.enabled, Enabled, []);
    NoElems();
    var binding := Blanks(Binding(p));
    reasons := Join(reasons, binding);
    if p.mode.Paper? {
      reasons := Flag(p.paperTradingEnabled, PaperTradingEnabled, reasons);
      reasons := Flag(!p.liveTradingEnabled, PaperForbids(LiveTradingEnabled), reasons);
      reasons := Flag(!p.executionAuthority, PaperForbids(ExecutionAuthority), reasons);
      reasons := Flag(!p.maySubmitOrder, PaperForbids(MaySubmitOrder), reasons);
      return;
    }
    reasons := Flag(!p.advisoryOnly, AdvisoryOnlyFalse, reasons);
    reasons := Flag(p.manualReviewRequired, ManualReviewRequired, reasons);
    reasons := Flag(p.reconciliationRequired, ReconciliationRequired, reasons);
    reasons := Flag(p.liveTradingEnabled, LiveTradingEnabled, reasons);
    reasons := Flag(p.executionAuthority, ExecutionAuthority, reasons);
    reasons := Flag(p.maySubmitOrder, MaySubmitOrder, reasons);
    var blank := Blanks(LiveFields(p));
    reasons := Join(reasons, blank);
  }

  method CommandBlockedReasons(p: Profile, c: CommandBody) returns (reasons: seq<Gate>)
    ensures Elems(reasons) == CommandReasons(p, c)
  {
    hide Elems;
    hide Flag;
    hide Join;
    hide Unless;
    hide BlankGates;
    hide CommandEvidence;
    if p.mode.Paper? {
      NoElems();
      return [];
    }
    NoElems();
    reasons := Flag(c.liveTradingEnabled, OfCommand(LiveTradingEnabled), []);
    reasons := Flag(c.executionAuthority, OfCommand(ExecutionAuthority), reasons);
    reasons := Flag(c.maySubmitOrder, OfCommand(MaySubmitOrder), reasons);
    reasons := Flag(c.riskProfileId == p.riskProfileId, OfCommand(RiskProfileId), reasons);
    reasons := Flag(c.credentialSlotRef == p.credentialSlotRef, OfCommand(CredentialSlotRef), reasons);
    reasons := Flag(c.riskStatus == Some("approved"), OfCommand(RiskDecisionApproved), reasons);
    var blank := Blanks(CommandEvidence(c));
    reasons := Join(reasons, blank);
    reasons := Flag(c.manualReviewId == p.manualReviewId, OfCommand(ManualReviewId), reasons);
    reasons := Flag(c.dataTesterRef == p.dataTesterRef, OfCommand(DataTesterRef), reasons);
    reasons := Flag(c.execTesterRef == p.execTesterRef, OfCommand(ExecTesterRef), reasons);
    reasons := Flag(c.reconciliationRef == p.reconciliationRef, OfCommand(ReconciliationRef), reasons);
  }

  /** Builds the plan, or refuses with None where the code raises. */
  method BuildTradingNodeRuntimePlan(p: Profile, c: Option<CommandBody>) returns (plan: Option<Plan>)
    ensures plan == PlanOf(p, c)
  {
    hide ProfileReasons;
    hide CommandReasons;
    hide IsLiveEnabled;
    if !PlanScopeMatches(p, c) {
      return None;
    }
    var reasons := ProfileBlockedReasons(p);
    if c.Some? {
      var more := CommandBlockedReasons(p, c.value);
      reasons := Join(reasons, more);
    }
    plan := Some(PlanFrom(p, set g | g in reasons));
    assert (set g | g in reasons) == Elems(reasons) == Reasons(p, c);
  }
}
