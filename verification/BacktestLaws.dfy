/** What a caller can rely on when creating and moving backtest jobs, field by field. */
module BacktestLaws {
  import opened Options
  import opened BacktestJobs
  import opened BacktestWorker

  predicate Given(v: Option<string>) {
    v.Some? && v.value != ""
  }

  /** A field that is given and not empty reaches the job, for all fifteen fields; the first alternative given wins. */
  lemma GivenFieldsReachTheJob(p: Payload)
    ensures var s := SpecOf(Canonical(p));
            && (Given(p.strategySpecVersionId) ==> s.strategySpecVersionId == p.strategySpecVersionId.value)
            && (!Given(p.strategySpecVersionId) && Given(p.strategySpecVersion) ==> s.strategySpecVersionId == p.strategySpecVersion.value)
            && (!Given(p.strategySpecVersionId) && !Given(p.strategySpecVersion) && Given(p.strategyVersionId) ==>
                  s.strategySpecVersionId == p.strategyVersionId.value)
            && (Given(p.adapterProfileId) ==> s.adapterProfileId == p.adapterProfileId.value)
            && (!Given(p.adapterProfileId) && Given(p.adapterId) ==> s.adapterProfileId == p.adapterId.value)
            && (Given(p.instrumentId) ==> s.instrumentId == p.instrumentId.value)
            && (Given(p.compileHash) ==> s.compileHash == p.compileHash.value)
            && (!Given(p.compileHash) && Given(p.compileArtifactId) ==> s.compileHash == p.compileArtifactId.value)
            && (Given(p.validationReportId) ==> s.validationReportId == p.validationReportId.value)
            && (Given(p.compileArtifactId) ==> s.compileArtifactId == p.compileArtifactId)
            && (Given(p.createdBy) ==> s.createdBy == p.createdBy.value)
            && (Given(p.dataRange) ==> s.dataRange == p.dataRange.value)
            && (Given(p.userId) ==> s.userId == p.userId.value)
            && (Given(p.projectId) ==> s.projectId == p.projectId.value)
            && (Given(p.datasetId) ==> s.datasetId == p.datasetId.value)
            && (Given(p.catalogPath) ==> s.catalogPath == p.catalogPath)
            && (Given(p.dataType) ==> s.dataType == p.dataType.value)
            && (Given(p.timeframe) ==> s.timeframe == p.timeframe.value)
            && (Given(p.marketType) ==> s.marketType == p.marketType.value)
  {
  }

  function Nothing(): Payload {
    Payload(None, None, None, None, None, None, None, None, None, None, None, None, None, None, None, None, None, None)
  }

  /** What a job has when nothing is given. */
  lemma Defaults()
    ensures SpecOf(Canonical(Nothing())) ==
            JobSpec("", "", "", "", "", None, "builder_api", "unspecified", "system", "default", "unspecified", None,
                    "unspecified", "unspecified", "unspecified")
  {
  }

  /** The fields that are never empty in a job are filled, and nothing optional is present but empty. */
  predicate Complete(s: JobSpec) {
    && s.createdBy != "" && s.dataRange != "" && s.userId != "" && s.projectId != "" && s.datasetId != ""
    && s.dataType != "" && s.timeframe != "" && s.marketType != ""
    && s.compileArtifactId != Some("") && s.catalogPath != Some("")
    && (s.compileHash == "" ==> s.compileArtifactId.None?)
  }

  /** A complete job description survives being turned into a payload and read back.  Exactly these do. */
  lemma SpecRoundTrip(s: JobSpec)
    ensures SpecOf(Canonical(PayloadFromJob(s))) == s <==> Complete(s)
  {
    assert |"builder_api"| > 0 && |"unspecified"| > 0 && |"system"| > 0 && |"default"| > 0;
  }

  /** Two complete descriptions lead to one job iff all fifteen fields agree. */
  lemma OneJobIff(s: JobSpec, t: JobSpec)
    requires Complete(s) && Complete(t)
    ensures JobId(Canonical(PayloadFromJob(s))) == JobId(Canonical(PayloadFromJob(t))) <==> s == t
  {
    hide SpecOf, Canonical, PayloadFromJob;
    SpecRoundTrip(s);
    SpecRoundTrip(t);
  }

  /** The answer to a creation is a job with the canonical fields of its payload, stored under its own id: a new one in its first
      stage, or the one that was there, untouched. */
  lemma CreateReply(s: Indexed, p: Payload, now: string)
    requires IndexesAgree(s)
    ensures var (after, reply) := StepIndexed(s, Create(p, now));
            var id := JobId(Canonical(p));
            && reply.Found? && id in after.byId && after.byId[id] == reply.job
            && reply.job.id == id && reply.job.spec == SpecOf(Canonical(p))
            && (id in s.byId ==> after == s)
            && (id !in s.byId ==>
                  && reply.job.stage == reply.job.status == "CREATED" && reply.job.createdAt == reply.job.updatedAt == now
                  && reply.job.workerId == "unassigned" && reply.job.resultRefs == map[] && !reply.job.cancelRequested
                  && after.byId.Keys == s.byId.Keys + {id} && forall other :: other in s.byId ==> after.byId[other] == s.byId[other])
  {
    hide Canonical, SpecOf, PayloadFromJob;
    if JobId(Canonical(p)) in s.byId {
      StoredId(s, JobId(Canonical(p)));
    }
  }

  /** Over any run: two creations, whatever happens in between, answer with one job id iff their canonical payloads agree, and
      each answer has the fields of its own payload. */
  lemma CreationsShareAJobIff(ops: seq<Op>, later: seq<Op>, p: Payload, q: Payload, now: string, nextTime: string)
    ensures var first := StepIndexed(RunIndexed(ops), Create(p, now)).1;
            var second := StepIndexed(RunIndexed(ops + [Create(p, now)] + later), Create(q, nextTime)).1;
            && first.Found? && second.Found?
            && (first.job.id == second.job.id <==> Canonical(p) == Canonical(q))
            && first.job.spec == SpecOf(Canonical(p)) && second.job.spec == SpecOf(Canonical(q))
  {
    hide Canonical, SpecOf, StepIndexed, IndexesAgree;
    IndexesAlwaysAgree(ops);
    IndexesAlwaysAgree(ops + [Create(p, now)] + later);
    CreateReply(RunIndexed(ops), p, now);
    CreateReply(RunIndexed(ops + [Create(p, now)] + later), q, nextTime);
  }

  /** Who may see a job. */
  lemma LookupReply(jobs: map<JobId, Job>, id: JobId, context: Option<Context>)
    ensures Lookup(jobs, id, context) == NotFound <==> id !in jobs
    ensures Lookup(jobs, id, context) == OutOfScope <==>
              id in jobs && context.Some? && (context.value.userId != jobs[id].spec.userId || context.value.projectId != jobs[id].spec.projectId)
    ensures Lookup(jobs, id, context).Found? ==> id in jobs && Lookup(jobs, id, context).job == jobs[id]
  {
  }

  /** A transition that is found sets stage, status and time, keeps worker and references unless new ones are given, and changes
      nothing else; one that is not found changes nothing. */
  lemma TransitionReply(s: Indexed, id: JobId, stage: string, worker: Option<string>, refs: Option<map<string, string>>,
                        context: Option<Context>, now: string)
    requires IndexesAgree(s)
    ensures var (after, reply) := StepIndexed(s, Transition(id, stage, worker, refs, context, now));
            var found := Lookup(s.byId, id, context);
            && (!found.Found? ==> after == s && reply == found)
            && (found.Found? ==>
                  && after.byId == s.byId[id := after.byId[id]] && reply == Found(after.byId[id])
                  && after.byId[id].stage == after.byId[id].status == stage && after.byId[id].updatedAt == now
                  && (worker.Some? ==> after.byId[id].workerId == worker.value)
                  && (worker.None? ==> after.byId[id].workerId == s.byId[id].workerId)
                  && (refs.Some? ==> after.byId[id].resultRefs == refs.value)
                  && (refs.None? ==> after.byId[id].resultRefs == s.byId[id].resultRefs)
                  && after.byId[id].spec == s.byId[id].spec && after.byId[id].id == id && after.byId[id].createdAt == s.byId[id].createdAt
                  && after.byId[id].cancelRequested == s.byId[id].cancelRequested)
  {
    hide Canonical, SpecOf, PayloadFromJob;
    if id in s.byId {
      StoredId(s, id);
    }
  }

  /** A cancel that is found sets the flag, the stage, the status and the time, and changes nothing else. */
  lemma CancelReply(s: Indexed, id: JobId, context: Option<Context>, now: string)
    requires IndexesAgree(s)
    ensures var (after, reply) := StepIndexed(s, Cancel(id, context, now));
            var found := Lookup(s.byId, id, context);
            && (!found.Found? ==> after == s && reply == found)
            && (found.Found? ==>
                  && after.byId == s.byId[id := after.byId[id]] && reply == Found(after.byId[id])
                  && after.byId[id].cancelRequested && after.byId[id].updatedAt == now
                  && after.byId[id].stage == after.byId[id].status == "CANCEL_REQUESTED"
                  && after.byId[id].spec == s.byId[id].spec && after.byId[id].id == id && after.byId[id].createdAt == s.byId[id].createdAt
                  && after.byId[id].workerId == s.byId[id].workerId && after.byId[id].resultRefs == s.byId[id].resultRefs)
  {
    hide Canonical, SpecOf, PayloadFromJob;
    if id in s.byId {
      StoredId(s, id);
    }
  }

  /** A worker run that finds an uncancelled job moves it to RUNNING under its own name and, unless the backtest raises, on to SUCCEEDED with
      the references; each move is announced.  A cancelled job is only announced, and one that is not found is left alone. */
  lemma WorkerRunOutcome(s: Indexed, id: JobId, image: string, context: Option<Context>, outcome: Outcome, now: string)
    requires IndexesAgree(s)
    ensures var (after, events) := WorkerRun(s, id, image, context, outcome, now);
            var found := Lookup(s.byId, id, context);
            && (!found.Found? ==> after == s && events == [])
            && (found.Found? && s.byId[id].cancelRequested ==> after == s && events == [Event(id, image, "CANCEL_REQUESTED", 0.0)])
            && (found.Found? && !s.byId[id].cancelRequested ==>
                  && id in after.byId && after.byId[id].workerId == image && after.byId[id].spec == s.byId[id].spec
                  && (outcome.Raises? ==>
                        && after.byId[id].stage == after.byId[id].status == "RUNNING" && after.byId[id].resultRefs == s.byId[id].resultRefs
                        && events == [Event(id, image, "RUNNING", 0.0)])
                  && (outcome.Succeeds? ==>
                        && after.byId[id].stage == after.byId[id].status == "SUCCEEDED" && after.byId[id].resultRefs == outcome.refs
                        && events == [Event(id, image, "RUNNING", 0.0), Event(id, image, "SUCCEEDED", 100.0)]))
  {
    hide StepIndexed, IndexesAgree;
    LookupReply(s.byId, id, context);
    if id in s.byId {
      StoredId(s, id);
    }
    if Lookup(s.byId, id, context).Found? {
      var run := Transition(id, "RUNNING", Some(image), None, context, now);
      TransitionReply(s, id, "RUNNING", Some(image), None, context, now);
      StepKeepsIndexes(s, run);
      var running := StepIndexed(s, run).0;
      LookupReply(running.byId, id, context);
      if outcome.Succeeds? {
        TransitionReply(running, id, "SUCCEEDED", Some(image), Some(outcome.refs), context, now);
      }
    }
  }
}
