/** The worker that runs backtest jobs, and what a cancel request does to it. */
module BacktestWorker {
  import opened Options
  import opened BacktestJobs

  /** How the backtest itself ends: with artifact references, or with an exception. */
  datatype Outcome = Succeeds(refs: map<string, string>) | Raises

  datatype Event = Event(id: JobId, worker: string, stage: string, progressPct: real)

  /** One run of the worker: the service afterwards and the events it appended. */
  function WorkerRun(s: Indexed, id: JobId, image: string, context: Option<Context>, outcome: Outcome, now: string): (Indexed, seq<Event>) {
    var found := Lookup(s.byId, id, context);
    if !found.Found? then (s, [])
    else if found.job.cancelRequested then (s, [Event(found.job.id, image, "CANCEL_REQUESTED", 0.0)])
    else
      var running := StepIndexed(s, Transition(found.job.id, "RUNNING", Some(image), None, context, now)).0;
      if outcome.Raises? then (running, [Event(found.job.id, image, "RUNNING", 0.0)])
      else (StepIndexed(running, Transition(found.job.id, "SUCCEEDED", Some(image), Some(outcome.refs), context, now)).0,
            [Event(found.job.id, image, "RUNNING", 0.0), Event(found.job.id, image, "SUCCEEDED", 100.0)])
  }

  method RunBacktestJob(jobs: BacktestJobService, id: JobId, image: string, context: Option<Context>, outcome: Outcome,
                        now: string) returns (events: seq<Event>)
    modifies jobs
    ensures (jobs.State(), events) == WorkerRun(old(jobs.State()), id, image, context, outcome, now)
  {
    hide StepIndexed;
    events := [];
    var found := Lookup(jobs.jobsById, id, context);
    if !found.Found? {
      return;
    }
    var job := found.job;
    if job.cancelRequested {
      return [Event(job.id, image, "CANCEL_REQUESTED", 0.0)];
    }
    var _ := jobs.TransitionJob(job.id, "RUNNING", Some(image), None, context, now);
    events := [Event(job.id, image, "RUNNING", 0.0)];
    if outcome.Raises? {
      return;
    }
    var _ := jobs.TransitionJob(job.id, "SUCCEEDED", Some(image), Some(outcome.refs), context, now);
    events := events + [Event(job.id, image, "SUCCEEDED", 100.0)];
    assert events == [Event(job.id, image, "RUNNING", 0.0), Event(job.id, image, "SUCCEEDED", 100.0)];
  }

  /** Once a cancel was requested, no worker run that begins later, after whatever operations, moves the job. */
  lemma NoRunAfterCancel(ops: seq<Op>, k: nat, id: JobId, image: string, context: Option<Context>, outcome: Outcome, now: string)
    requires k < |ops| && ops[k].Cancel? && ops[k].id == id
    requires Lookup(RunIndexed(ops[..k]).byId, id, ops[k].context).Found?
    ensures WorkerRun(RunIndexed(ops), id, image, context, outcome, now).0 == RunIndexed(ops)
    ensures id in RunIndexed(ops).byId && RunIndexed(ops).byId[id].cancelRequested
  {
    hide StepIndexed, Store, Transitioned;
    var upTo := ops[..k + 1];
    assert upTo[..|upTo| - 1] == ops[..k] && upTo[|upTo| - 1] == ops[k];
    CancelIsStored(RunIndexed(ops[..k]), id, ops[k].context, ops[k].now);
    JobsContinue(ops, k + 1, id);
  }

  lemma CancelIsStored(s: Indexed, id: JobId, context: Option<Context>, now: string)
    requires Lookup(s.byId, id, context).Found?
    ensures var after := StepIndexed(s, Cancel(id, context, now)).0.byId;
            id in after && after[id].cancelRequested
  {
  }

  /** A run that began before the cancel still finishes: whatever happened since, its last step moves the stage, and the
      request stays on record. */
  lemma FinishAfterCancel(ops: seq<Op>, k: nat, finish: Op)
    requires k < |ops| && ops[k].Cancel? && finish.Transition? && finish.id == ops[k].id
    requires Lookup(RunIndexed(ops[..k]).byId, finish.id, ops[k].context).Found?
    requires Lookup(RunIndexed(ops).byId, finish.id, finish.context).Found?
    ensures var finished := RunIndexed(ops + [finish]).byId;
            && finish.id in finished && finished[finish.id].stage == finish.stage && finished[finish.id].status == finish.stage
            && finished[finish.id].cancelRequested
            && (forall id :: id in RunIndexed(ops).byId && id != finish.id ==> id in finished && finished[id] == RunIndexed(ops).byId[id])
  {
    hide Lookup, Canonical, PayloadFromJob;
    var all, upTo := ops + [finish], ops[..k + 1];
    assert all[..|all| - 1] == ops;
    assert upTo[..|upTo| - 1] == ops[..k] && upTo[|upTo| - 1] == ops[k];
    FinishMoves(RunIndexed(ops), finish);
    CancelIsStored(RunIndexed(ops[..k]), finish.id, ops[k].context, ops[k].now);
    hide StepIndexed;
    JobsContinue(ops, k + 1, finish.id);
    IndexesAlwaysAgree(ops);
    StoredId(RunIndexed(ops), finish.id);
  }

  lemma FinishMoves(s: Indexed, finish: Op)
    requires finish.Transition? && Lookup(s.byId, finish.id, finish.context).Found?
    ensures finish.id in s.byId
    ensures s.byId[finish.id].id == finish.id ==>
              StepIndexed(s, finish).0.byId ==
              s.byId[finish.id := Transitioned(s.byId[finish.id], finish.stage, finish.worker, finish.refs, finish.now)]
  {
    hide Canonical, PayloadFromJob;
  }
}
