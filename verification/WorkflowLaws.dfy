/** What each workflow operation stores, and what the read model shows of it at once. */
module WorkflowLaws {
  import opened Options
  import opened Identifiers
  import opened WorkflowProjection
  import opened WorkflowService
  import opened WorkflowRestarts

  /** The ids in full. */
  lemma IdsInFull(n: nat)
    ensures StrategyNo(n) == "strat_" + Padded(n, 3) && LineageNo(n) == "lineage_" + Padded(n, 3)
    ensures VersionNo(n) == "sv_" + Padded(n, 3) && JobNo(n) == "job_" + Padded(n, 3)
  {
    hide Padded;
    assert "" + "strat_" == "strat_" && "" + "lineage_" == "lineage_" && "" + "sv_" == "sv_" && "" + "job_" == "job_";
  }

  /** What the read model shows of a lineage right after one more event. */
  lemma StatusAfterEvent(events: seq<Event>, e: Event)
    requires e.lineage.Some?
    ensures var status := Find(Fold(events + [e]), e.lineage.value);
            && status.Some? && status.value.latest == e.name
            && (forall f :: f in e.payload ==> f in status.value.fields && status.value.fields[f] == e.payload[f])
            && (e.name == Completed() ==> status.value.completed) && (e.name == Suggested() ==> status.value.suggested)
  {
    hide Completed, Suggested;
    assert (events + [e])[..|events|] == events;
  }

  predicate Shows(status: Option<Status>, f: Field, value: string) {
    status.Some? && f in status.value.fields && status.value.fields[f] == value
  }

  /** An accepted creation stores strategy, version and job under the next number with what the caller gave, announces the version to the
      read model, and enqueues the test. */
  lemma CreationStores(s: State, op: Op)
    requires op.Create? && Creatable(op)
    ensures var s', n := StepCreate(s, op), s.counter + 1;
            && s'.counter == n
            && s'.strategies == s.strategies[StrategyNo(n) := Strategy(StrategyNo(n), LineageNo(n), op.displayName)]
            && s'.versions == s.versions[VersionNo(n) := Version(StrategyNo(n), LineageNo(n), VersionNo(n), op.thread, op.cycle)]
            && s'.jobs == s.jobs[JobNo(n) := Job(JobNo(n), op.projectId, VersionNo(n), LineageNo(n), op.params.testType, op.params)]
            && s'.results == s.results && s'.suggestions == s.suggestions
  {
    hide StrategyNo, LineageNo, VersionNo, JobNo, VersionedEvent, EnqueuedEvent;
  }

  predicate Carries(e: Event, f: Field, value: string) {
    f in e.payload && e.payload[f] == value
  }

  lemma VersionedPayload(projectId: string, v: Version)
    ensures var e := VersionedEvent(projectId, v);
            && e.name == "strategy.versioned" && e.lineage == Some(v.lineageId)
            && Carries(e, ProjectId, projectId) && Carries(e, StrategyId, v.strategyId) && Carries(e, StrategyVersionId, v.versionId)
            && (v.thread.Some? ==> Carries(e, AiThreadId, v.thread.value)) && (v.cycle.Some? ==> Carries(e, ImprovementCycleId, v.cycle.value))
            && (v.thread.None? ==> AiThreadId !in e.payload) && (v.cycle.None? ==> ImprovementCycleId !in e.payload)
  {
  }

  lemma EnqueuedPayload(j: Job, v: Version)
    ensures var e := EnqueuedEvent(j, v);
            && e.name == "test.enqueued" && e.lineage == Some(v.lineageId) && Carries(e, TestJobId, j.jobId)
            && Carries(e, ProjectId, j.projectId) && Carries(e, StrategyId, v.strategyId) && Carries(e, StrategyVersionId, v.versionId)
            && (v.thread.Some? ==> Carries(e, AiThreadId, v.thread.value)) && (v.cycle.Some? ==> Carries(e, ImprovementCycleId, v.cycle.value))
            && (v.thread.None? ==> AiThreadId !in e.payload) && (v.cycle.None? ==> ImprovementCycleId !in e.payload)
  {
  }

  lemma CreationShows(s: State, op: Op)
    requires op.Create? && Creatable(op)
    ensures var s', n := StepCreate(s, op), s.counter + 1;
            var status := Find(Fold(s'.events), LineageNo(n));
            && |s'.events| == |s.events| + 1 && s'.events[..|s.events|] == s.events && s'.events[|s.events|].name == "strategy.versioned"
            && Shows(status, ProjectId, op.projectId) && Shows(status, StrategyId, StrategyNo(n)) && Shows(status, StrategyVersionId, VersionNo(n))
            && (op.thread.Some? ==> Shows(status, AiThreadId, op.thread.value))
            && (op.cycle.Some? ==> Shows(status, ImprovementCycleId, op.cycle.value))
  {
    hide StrategyNo, LineageNo, VersionNo, JobNo, VersionedEvent, EnqueuedEvent, Fold, Creatable, StepCreate, Completed, Suggested;
    var v := NewVersion(op, s.counter + 1);
    CreateAdds(s, op);
    VersionedPayload(op.projectId, v);
    StatusAfterEvent(s.events, VersionedEvent(op.projectId, v));
  }

  /** The enqueued test is announced with job, project, version, strategy and lineage, on its own stream. */
  lemma TestIsEnqueued(s: State, op: Op)
    requires op.Create? && Creatable(op)
    ensures var s', n := StepCreate(s, op), s.counter + 1;
            && |s'.enqueued| == |s.enqueued| + 1 && s'.enqueued[..|s.enqueued|] == s.enqueued
            && var e := s'.enqueued[|s.enqueued|];
               && e.name == "test.enqueued" && e.lineage == Some(LineageNo(n)) && Carries(e, TestJobId, JobNo(n))
               && Carries(e, ProjectId, op.projectId) && Carries(e, StrategyId, StrategyNo(n)) && Carries(e, StrategyVersionId, VersionNo(n))
               && (op.thread.Some? ==> Carries(e, AiThreadId, op.thread.value)) && (op.cycle.Some? ==> Carries(e, ImprovementCycleId, op.cycle.value))
               && (op.thread.None? ==> AiThreadId !in e.payload) && (op.cycle.None? ==> ImprovementCycleId !in e.payload)
  {
    hide StrategyNo, LineageNo, VersionNo, JobNo, VersionedEvent, EnqueuedEvent, Creatable;
    EnqueuedPayload(NewJob(op, s.counter + 1), NewVersion(op, s.counter + 1));
  }

  /** What a creation is refused for. */
  lemma CreatableIff(op: Op)
    requires op.Create?
    ensures Creatable(op) <==>
              !(op.projectId == "" || op.displayName == "" || op.params.testType == "" || op.params.instrument == ""
                || op.params.dataSource == "" || op.params.timeframe == "" || op.params.start == "" || op.params.end == "")
  {
  }

  /** An accepted completion stores the result with its job's project, lineage and version, and the read model shows it at once. */
  lemma CompletionStoresAndShows(s: State, op: Op)
    requires op.Complete? && op.jobId in s.jobs && op.resultId != ""
    ensures var s', j := StepComplete(s, op), s.jobs[op.jobId];
            var status := Find(Fold(s'.events), j.lineageId);
            && s'.results == s.results[op.resultId := Result(op.resultId, op.jobId, j.projectId, j.lineageId, j.versionId, op.content)]
            && s' == s.(results := s'.results, events := s'.events)
            && Shows(status, ProjectId, j.projectId) && Shows(status, StrategyVersionId, j.versionId)
            && Shows(status, TestJobId, op.jobId) && Shows(status, ResultId, op.resultId)
            && status.value.latest == "result.completed" && status.value.completed
  {
    hide Fold;
    StatusAfterEvent(s.events, CompletedEvent(NewResult(s, op)));
  }

  /** Why a suggestion is refused, in this order; an accepted one carries its result's project, lineage and version, and the thread and
      cycle of that version, and the read model shows it at once. */
  lemma SuggestionRefusals(s: State, op: Op)
    requires op.Suggest?
    ensures op.result !in s.results <==> SuggestionError(s, op) == Some(UnknownResult)
    ensures op.result in s.results ==>
              var r := s.results[op.result];
              && (r.versionId !in s.versions <==> SuggestionError(s, op) == Some(UnknownVersion))
              && (r.versionId in s.versions ==>
                    var v := s.versions[r.versionId];
                    && (v.thread.None? <==> SuggestionError(s, op) == Some(MissingThread))
                    && (v.thread.Some? && v.cycle.None? <==> SuggestionError(s, op) == Some(MissingCycle))
                    && (v.thread.Some? && v.cycle.Some? ==>
                          (SuggestionError(s, op).None? <==>
                             && v.thread.value != "" && v.cycle.value != ""
                             && op.suggestionId != "" && op.suggestionType != "" && op.message != "")))
    ensures SuggestionError(s, op).None? ==>
              var s', r := StepSuggest(s, op), s.results[op.result];
              var v := s.versions[r.versionId];
              && s'.suggestions == s.suggestions[op.suggestionId :=
                   Suggestion(op.suggestionId, r.projectId, r.lineageId, r.versionId, r.resultId, v.thread.value, v.cycle.value,
                              op.suggestionType, op.message)]
              && s' == s.(suggestions := s'.suggestions, events := s'.events)
    ensures SuggestionError(s, op).Some? ==> StepSuggest(s, op) == s
  {
    hide SuggestedEvent;
  }

  lemma SuggestionShows(s: State, op: Op)
    requires op.Suggest? && SuggestionError(s, op).None?
    ensures var s', r := StepSuggest(s, op), s.results[op.result];
            var v, status := s.versions[r.versionId], Find(Fold(s'.events), r.lineageId);
            && Shows(status, ProjectId, r.projectId) && Shows(status, StrategyVersionId, r.versionId) && Shows(status, ResultId, r.resultId)
            && Shows(status, AiThreadId, v.thread.value) && Shows(status, ImprovementCycleId, v.cycle.value)
            && status.value.latest == "suggestion.created" && status.value.suggested
  {
    hide Fold;
    StatusAfterEvent(s.events, SuggestedEvent(NewSuggestion(s, op)));
  }
}
