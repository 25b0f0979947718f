/** Backtest jobs: canonical keys, and the service that keeps them in two indexes. */
module BacktestJobs {
  import opened Options

  // ----- payloads and keys -----

  /** The payload fields the services read; a missing key is None. */
  datatype Payload = Payload(
    strategySpecVersionId: Option<string>, strategySpecVersion: Option<string>, strategyVersionId: Option<string>,
    adapterProfileId: Option<string>, adapterId: Option<string>, instrumentId: Option<string>,
    compileHash: Option<string>, validationReportId: Option<string>, compileArtifactId: Option<string>,
    createdBy: Option<string>, dataRange: Option<string>, userId: Option<string>, projectId: Option<string>,
    datasetId: Option<string>, catalogPath: Option<string>, dataType: Option<string>,
    timeframe: Option<string>, marketType: Option<string>)

  /** A canonical payload.  Its sorted JSON is the job key, so keys are equal exactly when all fields are. */
  datatype Key = Key(
    strategySpecVersionId: string, adapterProfileId: string, instrumentId: string, compileHash: string,
    validationReportId: string, compileArtifactId: string, createdBy: string, dataRange: string, userId: string,
    projectId: string, datasetId: string, catalogPath: string, dataType: string, timeframe: string, marketType: string)

  /** The part of a job that never changes; two fields are optional there. */
  datatype JobSpec = JobSpec(
    strategySpecVersionId: string, adapterProfileId: string, instrumentId: string, compileHash: string,
    validationReportId: string, compileArtifactId: Option<string>, createdBy: string, dataRange: string, userId: string,
    projectId: string, datasetId: string, catalogPath: Option<string>, dataType: string, timeframe: string, marketType: string)

  /** A job id is a hash of the key, taken to be injective. */
  datatype JobId = JobId(key: Key)

  datatype Job = Job(
    id: JobId, spec: JobSpec, stage: string, status: string, createdAt: string, updatedAt: string,
    workerId: string, resultRefs: map<string, string>, cancelRequested: bool)

  datatype Context = Context(userId: string, projectId: string)

  datatype Result = Found(job: Job) | NotFound | OutOfScope

  /** `value or fallback` */
  function Or(value: Option<string>, fallback: string): string {
    if value.Some? && value.value != "" then value.value else fallback
  }

  function Canonical(p: Payload): Key {
    Key(Or(p.strategySpecVersionId, Or(p.strategySpecVersion, Or(p.strategyVersionId, ""))),
        Or(p.adapterProfileId, Or(p.adapterId, "")),
        Or(p.instrumentId, ""),
        Or(p.compileHash, Or(p.compileArtifactId, "")),
        Or(p.validationReportId, ""),
        Or(p.compileArtifactId, ""),
        Or(p.createdBy, "builder_api"),
        Or(p.dataRange, "unspecified"),
        Or(p.userId, "system"),
        Or(p.projectId, "default"),
        Or(p.datasetId, "unspecified"),
        Or(p.catalogPath, ""),
        Or(p.dataType, "unspecified"),
        Or(p.timeframe, "unspecified"),
        Or(p.marketType, "unspecified"))
  }

  /** `value or None` */
  function OrNone(value: string): Option<string> {
    if value != "" then Some(value) else None
  }

  function SpecOf(k: Key): JobSpec {
    JobSpec(k.strategySpecVersionId, k.adapterProfileId, k.instrumentId, k.compileHash, k.validationReportId,
            OrNone(k.compileArtifactId), k.createdBy, k.dataRange, k.userId, k.projectId, k.datasetId,
            OrNone(k.catalogPath), k.dataType, k.timeframe, k.marketType)
  }

  function PayloadFromJob(s: JobSpec): Payload {
    Payload(Some(s.strategySpecVersionId), None, None, Some(s.adapterProfileId), None, Some(s.instrumentId),
            Some(s.compileHash), Some(s.validationReportId), Some(Or(s.compileArtifactId, "")),
            Some(s.createdBy), Some(s.dataRange), Some(s.userId), Some(s.projectId), Some(s.datasetId),
            Some(Or(s.catalogPath, "")), Some(s.dataType), Some(s.timeframe), Some(s.marketType))
  }

  /** The scanning service compares the job's payload with the key without canonicalising it again. */
  function RawKey(s: JobSpec): Key {
    Key(s.strategySpecVersionId, s.adapterProfileId, s.instrumentId, s.compileHash, s.validationReportId,
        Or(s.compileArtifactId, ""), s.createdBy, s.dataRange, s.userId, s.projectId, s.datasetId,
        Or(s.catalogPath, ""), s.dataType, s.timeframe, s.marketType)
  }

  /** Re-canonicalising the payload of a job gives back the key it was created under, so does reading it off raw. */
  lemma KeyRoundTrip(p: Payload)
    ensures Canonical(PayloadFromJob(SpecOf(Canonical(p)))) == Canonical(p)
    ensures RawKey(SpecOf(Canonical(p))) == Canonical(p)
  {
    var k := Canonical(p);
    assert k.createdBy != "" && k.dataRange != "" && k.userId != "" && k.projectId != "" && k.datasetId != ""
        && k.dataType != "" && k.timeframe != "" && k.marketType != "" by {
      assert |"builder_api"| > 0 && |"unspecified"| > 0 && |"system"| > 0 && |"default"| > 0;
    }
    assert k.compileHash == "" ==> k.compileArtifactId == "";
  }

  lemma RawKeyInverts(k: Key)
    ensures RawKey(SpecOf(k)) == k
  {
  }

  /** A key that some payload has. */
  ghost predicate IsCanonical(k: Key) {
    Canonical(PayloadFromJob(SpecOf(k))) == k
  }

  // ----- operations on jobs -----

  function NewJob(k: Key, now: string): Job {
    Job(JobId(k), SpecOf(k), "CREATED", "CREATED", now, now, "unassigned", map[], false)
  }

  predicate InScope(j: Job, context: Option<Context>) {
    context.None? || (context.value.userId == j.spec.userId && context.value.projectId == j.spec.projectId)
  }

  function Transitioned(j: Job, stage: string, worker: Option<string>, refs: Option<map<string, string>>, now: string): Job {
    j.(stage := stage, status := stage, updatedAt := now,
       workerId := if worker.Some? then worker.value else j.workerId,
       resultRefs := if refs.Some? then refs.value else j.resultRefs)
  }

  function Cancelled(j: Job, now: string): Job {
    j.(stage := "CANCEL_REQUESTED", status := "CANCEL_REQUESTED", updatedAt := now, cancelRequested := true)
  }

  datatype Op =
    | Create(payload: Payload, now: string)
    | Get(id: JobId, context: Option<Context>)
    | Transition(id: JobId, stage: string, worker: Option<string>, refs: Option<map<string, string>>, context: Option<Context>, now: string)
    | Cancel(id: JobId, context: Option<Context>, now: string)

  function Lookup(jobs: map<JobId, Job>, id: JobId, context: Option<Context>): Result {
    if id !in jobs then NotFound else if InScope(jobs[id], context) then Found(jobs[id]) else OutOfScope
  }

  // ----- the indexed service -----

  datatype Indexed = Indexed(byKey: map<Key, Job>, byId: map<JobId, Job>)

  function Store(s: Indexed, id: JobId, j: Job): Indexed {
    Indexed(s.byKey[Canonical(PayloadFromJob(j.spec)) := j], s.byId[id := j])
  }

  function StepIndexed(s: Indexed, op: Op): (Indexed, Result) {
    match op
    case Create(payload, now) =>
      var k := Canonical(payload);
      if k in s.byKey then (s, Found(s.byKey[k]))
      else (Indexed(s.byKey[k := NewJob(k, now)], s.byId[JobId(k) := NewJob(k, now)]), Found(NewJob(k, now)))
    case Get(id, context) => (s, Lookup(s.byId, id, context))
    case Transition(id, stage, worker, refs, context, now) =>
      var found := Lookup(s.byId, id, context);
      if !found.Found? then (s, found)
      else
        var j := Transitioned(found.job, stage, worker, refs, now);
        (Store(s, id, j), Found(j))
    case Cancel(id, context, now) =>
      var found := Lookup(s.byId, id, context);
      if !found.Found? then (s, found)
      else
        var j := Cancelled(found.job, now);
        (Store(s, id, j), Found(j))
  }

  /** The two indexes hold the same jobs, each under its own id and its creation key. */
  ghost predicate IndexesAgree(s: Indexed) {
    && (forall id :: id in s.byId ==> IdSound(s, id))
    && (forall k :: k in s.byKey ==> JobId(k) in s.byId)
  }

  ghost predicate IdSound(s: Indexed, id: JobId)
    requires id in s.byId
  {
    && s.byId[id].id == id && s.byId[id].spec == SpecOf(id.key) && IsCanonical(id.key)
    && id.key in s.byKey && s.byKey[id.key] == s.byId[id]
  }

  lemma StoreKeepsIndexes(s: Indexed, j: Job)
    requires IndexesAgree(s) && j.id in s.byId && j.spec == s.byId[j.id].spec
    ensures IndexesAgree(Store(s, j.id, j))
  {
    hide SpecOf;
    hide Canonical;
    hide PayloadFromJob;
    assert IdSound(s, j.id);
    var s' := Store(s, j.id, j);
    forall id | id in s'.byId ensures IdSound(s', id) {
      assert IdSound(s, id);
    }
    forall k | k in s'.byKey ensures JobId(k) in s'.byId {
      assert k == j.id.key || k in s.byKey;
    }
  }

  lemma CreateKeepsIndexes(s: Indexed, k: Key, now: string)
    requires IndexesAgree(s) && k !in s.byKey && IsCanonical(k)
    ensures IndexesAgree(Indexed(s.byKey[k := NewJob(k, now)], s.byId[JobId(k) := NewJob(k, now)]))
  {
    hide SpecOf;
    hide IsCanonical;
    var s' := Indexed(s.byKey[k := NewJob(k, now)], s.byId[JobId(k) := NewJob(k, now)]);
    forall id | id in s'.byId ensures IdSound(s', id) {
      assert id != JobId(k) ==> IdSound(s, id);
    }
  }

  lemma StepKeepsIndexes(s: Indexed, op: Op)
    requires IndexesAgree(s)
    ensures IndexesAgree(StepIndexed(s, op).0)
  {
    hide IndexesAgree;
    hide Canonical;
    hide Store;
    match op
    case Create(payload, now) =>
      if Canonical(payload) !in s.byKey {
        KeyRoundTrip(payload);
        CreateKeepsIndexes(s, Canonical(payload), now);
      }
    case Get(_, _) =>
    case Transition(id, stage, worker, refs, context, now) =>
      var found := Lookup(s.byId, id, context);
      if found.Found? {
        StoredId(s, id);
        StoreKeepsIndexes(s, Transitioned(found.job, stage, worker, refs, now));
      }
    case Cancel(id, context, now) =>
      var found := Lookup(s.byId, id, context);
      if found.Found? {
        StoredId(s, id);
        StoreKeepsIndexes(s, Cancelled(found.job, now));
      }
  }

  lemma StoredId(s: Indexed, id: JobId)
    requires IndexesAgree(s) && id in s.byId
    ensures s.byId[id].id == id && IdSound(s, id)
  {
  }

  function RunIndexed(ops: seq<Op>): Indexed {
    if ops == [] then Indexed(map[], map[]) else StepIndexed(RunIndexed(ops[..|ops| - 1]), ops[|ops| - 1]).0
  }

  /** After every sequence of operations the two indexes agree. */
  lemma {:induction false} IndexesAlwaysAgree(ops: seq<Op>)
    ensures IndexesAgree(RunIndexed(ops))
  {
    if ops != [] {
      IndexesAlwaysAgree(ops[..|ops| - 1]);
      hide IndexesAgree;
      hide StepIndexed;
      StepKeepsIndexes(RunIndexed(ops[..|ops| - 1]), ops[|ops| - 1]);
    }
  }

  /** How an operation may change a stored job: it stays, keeps its identity, and a requested cancel stays requested. */
  ghost predicate Continues(before: Job, after: Job) {
    && after.id == before.id && after.spec == before.spec && after.createdAt == before.createdAt
    && (before.cancelRequested ==> after.cancelRequested)
  }

  lemma StepContinues(s: Indexed, op: Op, id: JobId)
    requires IndexesAgree(s) && id in s.byId
    ensures id in StepIndexed(s, op).0.byId && Continues(s.byId[id], StepIndexed(s, op).0.byId[id])
  {
    hide Canonical;
    hide SpecOf;
    hide PayloadFromJob;
    hide IsCanonical;
    StoredId(s, id);
    match op
    case Create(payload, now) =>
    case Get(_, _) =>
    case Transition(other, _, _, _, _, _) =>
      if other in s.byId { StoredId(s, other); }
    case Cancel(other, _, _) =>
      if other in s.byId { StoredId(s, other); }
  }

  lemma {:induction false} JobsContinue(ops: seq<Op>, k: nat, id: JobId)
    requires k <= |ops| && id in RunIndexed(ops[..k]).byId
    ensures id in RunIndexed(ops).byId && Continues(RunIndexed(ops[..k]).byId[id], RunIndexed(ops).byId[id])
  {
    hide StepIndexed;
    hide IndexesAgree;
    if k < |ops| {
      var front := ops[..|ops| - 1];
      assert front[..k] == ops[..k];
      JobsContinue(front, k, id);
      IndexesAlwaysAgree(front);
      StepContinues(RunIndexed(front), ops[|ops| - 1], id);
    } else {
      assert ops[..k] == ops;
    }
  }

  /** Creating a job again with an equivalent payload, however often the job moved in between, changes nothing and
      returns the job as it now stands. */
  lemma CreateIsIdempotent(ops: seq<Op>, k: nat, first: Payload, again: Payload, now: string)
    requires k < |ops| && ops[k].Create? && ops[k].payload == first && Canonical(again) == Canonical(first)
    ensures var s := RunIndexed(ops);
            && JobId(Canonical(first)) in s.byId
            && StepIndexed(s, Create(again, now)) == (s, Found(s.byId[JobId(Canonical(first))]))
  {
    hide Canonical;
    hide IsCanonical;
    hide SpecOf;
    var id := JobId(Canonical(first));
    IndexesAlwaysAgree(ops[..k]);
    assert ops[..k + 1][..k] == ops[..k];
    CreatedIsStored(RunIndexed(ops[..k]), first, ops[k].now);
    assert id in RunIndexed(ops[..k + 1]).byId;
    JobsContinue(ops, k + 1, id);
    IndexesAlwaysAgree(ops);
    StoredId(RunIndexed(ops), id);
  }

  lemma CreatedIsStored(s: Indexed, payload: Payload, now: string)
    requires IndexesAgree(s)
    ensures JobId(Canonical(payload)) in StepIndexed(s, Create(payload, now)).0.byId
  {
    hide Canonical;
    hide IdSound;
  }

  class BacktestJobService {
    var jobsByKey: map<Key, Job>
    var jobsById: map<JobId, Job>

    function State(): Indexed
      reads this
    {
      Indexed(jobsByKey, jobsById)
    }

    constructor ()
      ensures State() == Indexed(map[], map[])
    {
      jobsByKey, jobsById := map[], map[];
    }

    method CreateJob(payload: Payload, now: string) returns (result: Result)
      modifies this
      ensures (State(), result) == StepIndexed(old(State()), Create(payload, now))
    {
      hide Canonical;
      var key := Canonical(payload);
      if key in jobsByKey {
        return Found(jobsByKey[key]);
      }
      var job := NewJob(key, now);
      jobsByKey := jobsByKey[key := job];
      jobsById := jobsById[job.id := job];
      result := Found(job);
    }

    method TransitionJob(id: JobId, stage: string, worker: Option<string>, refs: Option<map<string, string>>,
                         context: Option<Context>, now: string) returns (result: Result)
      modifies this
      ensures (State(), result) == StepIndexed(old(State()), Transition(id, stage, worker, refs, context, now))
    {
      hide Canonical;
      var found := Lookup(jobsById, id, context);
      if !found.Found? {
        return found;
      }
      var updated := Transitioned(found.job, stage, worker, refs, now);
      jobsById := jobsById[id := updated];
      jobsByKey := jobsByKey[Canonical(PayloadFromJob(updated.spec)) := updated];
      result := Found(updated);
    }

    method RequestCancel(id: JobId, context: Option<Context>, now: string) returns (result: Result)
      modifies this
      ensures (State(), result) == StepIndexed(old(State()), Cancel(id, context, now))
    {
      hide Canonical;
      var found := Lookup(jobsById, id, context);
      if !found.Found? {
        return found;
      }
      var updated := Cancelled(found.job, now);
      jobsById := jobsById[id := updated];
      jobsByKey := jobsByKey[Canonical(PayloadFromJob(updated.spec)) := updated];
      result := Found(updated);
    }
  }
}
