/** The workflow service with its repository and streams updated in place. */
module WorkflowObject {
  import opened Options
  import opened WorkflowProjection
  import opened WorkflowService
  import opened WorkflowRestarts

  datatype Reply<T> = Done(value: T) | Failed(error: Error)

  function Saved(s: State, strategy: Strategy, version: Version, job: Job): State {
    s.(strategies := s.strategies[strategy.strategyId := strategy], versions := s.versions[version.versionId := version],
       jobs := s.jobs[job.jobId := job],
       events := s.events + [VersionedEvent(job.projectId, version)], enqueued := s.enqueued + [EnqueuedEvent(job, version)])
  }

  lemma CreationUnfolds(s: State, op: Op)
    requires op.Create?
    ensures var n := s.counter + 1;
            var strategy := Strategy(StrategyNo(n), LineageNo(n), op.displayName);
            var next := Saved(s.(counter := n), strategy, NewVersion(op, n), NewJob(op, n));
            && Step(s, op) == (if Creatable(op) then next else s.(counter := n))
            && JobNo(n) in next.jobs && next.jobs[JobNo(n)] == NewJob(op, n)
  {
    hide StrategyNo, LineageNo, VersionNo, JobNo, VersionedEvent, EnqueuedEvent, Creatable;
  }

  class StrategyTestWorkflowService {
    var counter: nat
    var strategies: map<string, Strategy>
    var versions: map<string, Version>
    var jobs: map<string, Job>
    var results: map<string, Result>
    var suggestions: map<string, Suggestion>
    var events: seq<Event>
    var enqueued: seq<Event>

    ghost function Contents(): State
      reads this
    {
      State(counter, strategies, versions, jobs, results, suggestions, events, enqueued)
    }

    /** A new service on whatever the repository and the streams hold. */
    constructor (found: State)
      ensures Contents() == found.(counter := 0)
    {
      counter := 0;
      strategies, versions, jobs, results, suggestions := found.strategies, found.versions, found.jobs, found.results, found.suggestions;
      events, enqueued := found.events, found.enqueued;
    }

    method CreateVersionAndEnqueueTest(
      projectId: string, displayName: string, params: TestParams, thread: Option<string>, cycle: Option<string>)
      returns (r: Reply<Job>)
      modifies this
      ensures Integrity(old(Contents())) ==> Integrity(Contents())
      ensures LineagesAgree(old(Contents())) ==> LineagesAgree(Contents())
      ensures Contents() == Step(old(Contents()), Create(projectId, displayName, params, thread, cycle))
      ensures r.Done? <==> Creatable(Create(projectId, displayName, params, thread, cycle))
      ensures r.Done? ==> r.value.jobId == JobNo(old(counter) + 1) && r.value.versionId == VersionNo(old(counter) + 1)
      ensures r.Done? ==> r.value.jobId in jobs && jobs[r.value.jobId] == r.value
      ensures r.Done? && Integrity(old(Contents())) ==> r.value.jobId !in old(jobs) && r.value.versionId !in old(versions)
    {
      hide Integrity, LineagesAgree, StrategyNo, LineageNo, VersionNo, JobNo, VersionedEvent, EnqueuedEvent;
      hide Creatable;
      var op := Create(projectId, displayName, params, thread, cycle);
      KeepsBoth(Contents(), op);
      CreationUnfolds(Contents(), op);
      hide Step, Saved;
      if Integrity(Contents()) {
        IntegrityFreesTheNextNumber(Contents());
      }
      counter := counter + 1;
      var n := counter;
      if !Creatable(op) {
        return Failed(Invalid);
      }
      var strategy := Strategy(StrategyNo(n), LineageNo(n), displayName);
      var version := Version(strategy.strategyId, strategy.lineageId, VersionNo(n), thread, cycle);
      var job := Job(JobNo(n), projectId, version.versionId, strategy.lineageId, params.testType, params);
      SaveAndPublish(strategy, version, job);
      r := Done(job);
    }

    /** Saves the three records, then publishes the two events. */
    method SaveAndPublish(strategy: Strategy, version: Version, job: Job)
      modifies this
      ensures Contents() == Saved(old(Contents()), strategy, version, job)
    {
      hide VersionedEvent, EnqueuedEvent;
      strategies := strategies[strategy.strategyId := strategy];
      versions := versions[version.versionId := version];
      jobs := jobs[job.jobId := job];
      events := events + [VersionedEvent(job.projectId, version)];
      enqueued := enqueued + [EnqueuedEvent(job, version)];
    }

    method RecordResultCompleted(jobId: string, resultId: string, content: string) returns (r: Reply<Result>)
      modifies this
      ensures Integrity(old(Contents())) ==> Integrity(Contents())
      ensures LineagesAgree(old(Contents())) ==> LineagesAgree(Contents())
      ensures Contents() == Step(old(Contents()), Complete(jobId, resultId, content))
      ensures r.Failed? && r.error.UnknownJob? <==> jobId !in old(jobs)
      ensures r.Done? <==> jobId in old(jobs) && resultId != ""
      ensures r.Done? && LineagesAgree(old(Contents())) ==> ResultRefers(Contents(), r.value)
      ensures r.Done? ==> resultId in results && results[resultId] == r.value
    {
      hide Integrity, LineagesAgree, CompletedEvent;
      KeepsBoth(Contents(), Complete(jobId, resultId, content));
      if jobId !in jobs {
        return Failed(UnknownJob);
      }
      var job := jobs[jobId];
      if resultId == "" {
        return Failed(Invalid);
      }
      if LineagesAgree(Contents()) {
        JobRefers(Contents(), jobId);
      }
      var result := Result(resultId, jobId, job.projectId, job.lineageId, job.versionId, content);
      results := results[resultId := result];
      events := events + [CompletedEvent(result)];
      r := Done(result);
    }

    /** While lineages agree, as any succession of services keeps them, the version of a stored result is always there, and the
        branch for an unknown version is never taken. */
    method RecordSuggestionCreated(resultId: string, suggestionId: string, suggestionType: string, message: string)
      returns (r: Reply<Suggestion>)
      modifies this
      ensures Integrity(old(Contents())) ==> Integrity(Contents())
      ensures LineagesAgree(old(Contents())) ==> LineagesAgree(Contents())
      ensures Contents() == Step(old(Contents()), Suggest(resultId, suggestionId, suggestionType, message))
      ensures r.Failed? && r.error.UnknownResult? <==> resultId !in old(results)
      ensures r.Done? <==> SuggestionError(old(Contents()), Suggest(resultId, suggestionId, suggestionType, message)).None?
      ensures r.Failed? ==> SuggestionError(old(Contents()), Suggest(resultId, suggestionId, suggestionType, message)) == Some(r.error)
      ensures LineagesAgree(old(Contents())) ==> !(r.Failed? && r.error.UnknownVersion?)
      ensures r.Done? && LineagesAgree(old(Contents())) ==> Refers(versions, r.value.versionId, r.value.lineageId)
      ensures r.Done? ==> suggestionId in suggestions && suggestions[suggestionId] == r.value
    {
      hide Integrity, LineagesAgree, SuggestedEvent;
      KeepsBoth(Contents(), Suggest(resultId, suggestionId, suggestionType, message));
      if resultId !in results {
        return Failed(UnknownResult);
      }
      var result := results[resultId];
      if LineagesAgree(Contents()) {
        ResultNamesAVersion(Contents(), resultId);
      }
      if result.versionId !in versions {
        return Failed(UnknownVersion);
      }
      var version := versions[result.versionId];
      if version.thread.None? {
        return Failed(MissingThread);
      }
      if version.cycle.None? {
        return Failed(MissingCycle);
      }
      if version.thread.value == "" || version.cycle.value == "" || suggestionId == "" || suggestionType == "" || message == "" {
        return Failed(Invalid);
      }
      var suggestion := Suggestion(suggestionId, result.projectId, result.lineageId, result.versionId, result.resultId,
                                   version.thread.value, version.cycle.value, suggestionType, message);
      suggestions := suggestions[suggestionId := suggestion];
      events := events + [SuggestedEvent(suggestion)];
      r := Done(suggestion);
    }
  }

  lemma KeepsBoth(s: State, op: Op)
    ensures Integrity(s) ==> Integrity(Step(s, op))
    ensures LineagesAgree(s) ==> LineagesAgree(Step(s, op))
  {
    hide Integrity, LineagesAgree, Step;
    if Integrity(s) {
      StepKeepsIntegrity(s, op);
    }
    if LineagesAgree(s) {
      StepKeepsLineages(s, op);
    }
  }

  lemma JobRefers(s: State, id: string)
    requires LineagesAgree(s) && id in s.jobs
    ensures Refers(s.versions, s.jobs[id].versionId, s.jobs[id].lineageId)
  {
    hide JobAlike, NumberedAlike;
  }

  lemma ResultNamesAVersion(s: State, id: string)
    requires LineagesAgree(s) && id in s.results
    ensures Refers(s.versions, s.results[id].versionId, s.results[id].lineageId)
  {
    assert ResultLinked(s, id);
  }
}
