/** The execution lane as a state machine: what each operation of the service does to its stores. */
module LaneSpec {
  import opened Options
  import opened Dicts
  import opened LaneModels

  /** The fields a derived command id is hashed from. */
  datatype Material = Material(
    tenantId: string, projectId: string, profileId: string, tradeActionId: string,
    sourceEventId: string, idempotencyKey: string, lineageId: string, versionId: string)

  /** A command id is hashed from its material, taken to be injective, or supplied by the caller. */
  datatype CommandId = Derived(material: Material) | Given(id: string)

  datatype Command = Command(
    id: CommandId, body: CommandBody, status: CommandStatus,
    claimedBy: Option<string>, claimedAt: Option<string>)

  /** A supplied id may be any string, also one that some material hashes to. */
  datatype CommandPayload = CommandPayload(commandId: Option<CommandId>, status: CommandStatus, body: CommandBody)

  datatype ReportId =
    | DerivedReport(commandId: CommandId, profileId: string, reportType: string, content: string)
    | GivenReport(id: string)

  /** Every field a caller leaves out is filled in from the command; `clean` says that the payload passed the scan for
      forbidden keys. */
  datatype ReportPayload = ReportPayload(
    reportType: string, content: string, clean: bool,
    reportId: Option<string>, commandId: Option<CommandId>, profileId: Option<string>, tenantId: Option<string>,
    projectId: Option<string>, adapterId: Option<string>, venue: Option<string>, instrumentId: Option<string>)

  datatype Report = Report(
    id: ReportId, commandId: CommandId, profileId: string, tenantId: string, projectId: string,
    adapterId: string, venue: string, instrumentId: string, reportType: string, content: string)

  datatype SessionId = SessionId(tenantId: string, projectId: string, profileId: string, commandId: CommandId, versionId: string)

  datatype SessionStatus = Running | Disposed | Failed | NotFound | StopTimeout

  datatype Session = Session(id: SessionId, commandId: CommandId, profileId: string, projectId: string, status: SessionStatus)

  datatype Lane = Lane(
    profiles: map<string, Profile>,
    commands: Dict<CommandId, Command>,
    index: map<(string, string), CommandId>,
    reports: Dict<ReportId, Report>,
    sessions: Dict<SessionId, Session>,
    maxReports: Option<nat>,
    maxSessions: Option<nat>)

  function Initial(maxReports: Option<nat>, maxSessions: Option<nat>): Lane {
    Lane(map[], Empty(), map[], Empty(), Empty(), maxReports, maxSessions)
  }

  function MaterialOf(b: CommandBody): Material {
    Material(b.tenantId, b.projectId, b.profileId, b.tradeActionId, b.sourceEventId, b.idempotencyKey, b.lineageId, b.versionId)
  }

  predicate SuppliesId(payload: CommandPayload) {
    payload.commandId.Some? && payload.commandId.value != Given("")
  }

  /** The command a payload describes; an absent or empty id is derived. */
  function Build(payload: CommandPayload): Command {
    var id := if SuppliesId(payload) then payload.commandId.value else Derived(MaterialOf(payload.body));
    Command(id, payload.body, payload.status, None, None)
  }

  /** A payload in which the caller supplies neither a command id nor a status. */
  predicate LeavesIdAndStatus(payload: CommandPayload) {
    !SuppliesId(payload) && payload.status.Queued?
  }

  function KeyOf(b: CommandBody): (string, string) {
    (b.profileId, b.idempotencyKey)
  }

  predicate Admissible(s: Lane, b: CommandBody) {
    CommandValid(b) && b.profileId in s.profiles && ProfileMatches(s.profiles[b.profileId], b)
  }

  function Enqueue(s: Lane, payload: CommandPayload): (Lane, Option<Command>) {
    var command := Build(payload);
    var key := KeyOf(command.body);
    if !Admissible(s, command.body) then (s, None)
    else if key in s.index then (s, s.commands.Get(s.index[key]))
    else (s.(commands := s.commands.Put(command.id, command), index := s.index[key := command.id]), Some(command))
  }

  function RegisterProfile(s: Lane, p: Profile, slotAccepted: bool): (Lane, Option<Profile>) {
    if ProfileValid(p) && slotAccepted then (s.(profiles := s.profiles[p.profileId := p]), Some(p)) else (s, None)
  }

  function Claim(s: Lane, id: CommandId, worker: string, now: string): (Lane, Option<Command>) {
    if !s.commands.Has(id) || !s.commands.entries[id].status.Queued? then (s, None)
    else
      var claimed := s.commands.entries[id].(status := Claimed, claimedBy := Some(worker), claimedAt := Some(now));
      (s.(commands := s.commands.Put(claimed.id, claimed)), Some(claimed))
  }

  predicate QueuedFor(s: Lane, id: CommandId, profileId: string) {
    s.commands.Has(id) && s.commands.entries[id].body.profileId == profileId && s.commands.entries[id].status.Queued?
  }

  /** The first queued command of the profile, in insertion order from position i on. */
  function FirstQueued(s: Lane, profileId: string, i: nat): (r: Option<nat>)
    requires i <= |s.commands.keys|
    ensures r.Some? ==> i <= r.value < |s.commands.keys| && QueuedFor(s, s.commands.keys[r.value], profileId)
    ensures r.Some? ==> forall j :: i <= j < r.value ==> !QueuedFor(s, s.commands.keys[j], profileId)
    ensures r.None? ==> forall j :: i <= j < |s.commands.keys| ==> !QueuedFor(s, s.commands.keys[j], profileId)
    decreases |s.commands.keys| - i
  {
    if i == |s.commands.keys| then None
    else if QueuedFor(s, s.commands.keys[i], profileId) then Some(i)
    else FirstQueued(s, profileId, i + 1)
  }

  function ClaimNext(s: Lane, profileId: string, worker: string, now: string): (Lane, Option<Command>) {
    match FirstQueued(s, profileId, 0)
    case None => (s, None)
    case Some(i) => Claim(s, s.commands.entries[s.commands.keys[i]].id, worker, now)
  }

  function Or<T>(given: Option<T>, default: T): T {
    if given.Some? then given.value else default
  }

  /** `order_intent.get("instrument_id", "UNKNOWN")` */
  function InstrumentOf(b: CommandBody): string {
    Or(b.instrumentId, "UNKNOWN")
  }

  function ReportFrom(c: Command, payload: ReportPayload): Report {
    var commandId, profileId := Or(payload.commandId, c.id), Or(payload.profileId, c.body.profileId);
    var id := if Truthy(payload.reportId) then GivenReport(payload.reportId.value)
              else DerivedReport(commandId, profileId, payload.reportType, payload.content);
    Report(id, commandId, profileId, Or(payload.tenantId, c.body.tenantId), Or(payload.projectId, c.body.projectId),
           Or(payload.adapterId, c.body.adapterId), Or(payload.venue, c.body.venue),
           Or(payload.instrumentId, InstrumentOf(c.body)), payload.reportType, payload.content)
  }

  /** What the report model accepts. */
  predicate ReportValid(c: Command, payload: ReportPayload) {
    var r := ReportFrom(c, payload);
    && payload.clean
    && r.commandId != Given("") && r.profileId != "" && r.tenantId != "" && r.projectId != "" && r.adapterId != ""
    && r.venue != "" && r.instrumentId != "" && r.reportType != ""
  }

  function RecordReport(s: Lane, id: CommandId, payload: ReportPayload): (Lane, Option<Report>)
    requires s.reports.Valid()
  {
    if !s.commands.Has(id) || !ReportValid(s.commands.entries[id], payload) then (s, None)
    else
      var command := s.commands.entries[id];
      var report := ReportFrom(command, payload);
      (s.(reports := Evicted(s.reports.Put(report.id, report), s.maxReports),
          commands := s.commands.Put(command.id, command.(status := Reported))), Some(report))
  }

  function RecordSession(s: Lane, session: Session): Lane
    requires s.sessions.Valid()
  {
    s.(sessions := Evicted(s.sessions.Put(session.id, session), s.maxSessions))
  }

  // ----- runs -----

  datatype Op =
    | DoRegister(profile: Profile, slotAccepted: bool)
    | DoEnqueue(payload: CommandPayload)
    | DoClaim(id: CommandId, worker: string, now: string)
    | DoClaimNext(profileId: string, worker: string, now: string)
    | DoReport(id: CommandId, report: ReportPayload)
    | DoSession(session: Session)

  ghost predicate StoresValid(s: Lane) {
    s.commands.Valid() && s.reports.Valid() && s.sessions.Valid()
  }

  function Step(s: Lane, op: Op): (s': Lane)
    requires StoresValid(s)
    ensures StoresValid(s')
  {
    match op
    case DoRegister(p, ok) => RegisterProfile(s, p, ok).0
    case DoEnqueue(payload) => Enqueue(s, payload).0
    case DoClaim(id, worker, now) => Claim(s, id, worker, now).0
    case DoClaimNext(profileId, worker, now) => ClaimNext(s, profileId, worker, now).0
    case DoReport(id, report) => RecordReport(s, id, report).0
    case DoSession(session) => RecordSession(s, session)
  }

  /** The state after a sequence of operations, the last of which was made last. */
  function Run(s: Lane, ops: seq<Op>): (s': Lane)
    requires StoresValid(s)
    ensures StoresValid(s')
  {
    if ops == [] then s else Step(Run(s, ops[..|ops| - 1]), ops[|ops| - 1])
  }
}
