/** The strategy-test workflow: strategies, versions, jobs, results and suggestions, and the events they publish. */
module WorkflowService {
  import opened Options
  import opened Identifiers
  import opened WorkflowProjection

  datatype Strategy = Strategy(strategyId: string, lineageId: string, displayName: string)

  datatype Version = Version(
    strategyId: string, lineageId: string, versionId: string, thread: Option<string>, cycle: Option<string>)

  datatype TestParams = TestParams(
    testType: string, instrument: string, dataSource: string, timeframe: string, start: string, end: string)

  datatype Job = Job(jobId: string, projectId: string, versionId: string, lineageId: string, testType: string, params: TestParams)

  /** `content` stands for metrics, artifact references and the creation time. */
  datatype Result = Result(
    resultId: string, jobId: string, projectId: string, lineageId: string, versionId: string, content: string)

  datatype Suggestion = Suggestion(
    suggestionId: string, projectId: string, lineageId: string, versionId: string, resultId: string,
    thread: string, cycle: string, suggestionType: string, message: string)

  /** The numbers handed out so far, the repository, and the two streams. */
  datatype State = State(
    counter: nat,
    strategies: map<string, Strategy>, versions: map<string, Version>, jobs: map<string, Job>,
    results: map<string, Result>, suggestions: map<string, Suggestion>,
    events: seq<Event>, enqueued: seq<Event>)

  datatype Op =
    | Create(projectId: string, displayName: string, params: TestParams, thread: Option<string>, cycle: Option<string>)
    | Complete(jobId: string, resultId: string, content: string)
    | Suggest(result: string, suggestionId: string, suggestionType: string, message: string)

  datatype Error =
    | Invalid | UnknownJob | UnknownResult | UnknownVersion | MissingThread | MissingCycle

  function Id(prefix: string, n: nat): string {
    Numbered("", prefix, n, 3)
  }

  function StrategyPrefix(): (s: string)
    ensures EndsInNonDigit(s)
  {
    "strat_"
  }

  function LineagePrefix(): (s: string)
    ensures EndsInNonDigit(s)
  {
    "lineage_"
  }

  function VersionPrefix(): (s: string)
    ensures EndsInNonDigit(s)
  {
    "sv_"
  }

  function JobPrefix(): (s: string)
    ensures EndsInNonDigit(s)
  {
    "job_"
  }

  function StrategyNo(n: nat): string {
    Id(StrategyPrefix(), n)
  }

  function LineageNo(n: nat): string {
    Id(LineagePrefix(), n)
  }

  function VersionNo(n: nat): string {
    Id(VersionPrefix(), n)
  }

  function JobNo(n: nat): string {
    Id(JobPrefix(), n)
  }

  lemma NumbersAreDistinct(n: nat, n': nat)
    ensures StrategyNo(n) == StrategyNo(n') <==> n == n'
    ensures LineageNo(n) == LineageNo(n') <==> n == n'
    ensures VersionNo(n) == VersionNo(n') <==> n == n'
    ensures JobNo(n) == JobNo(n') <==> n == n'
  {
    hide Numbered, StrategyPrefix, LineagePrefix, VersionPrefix, JobPrefix;
    NumberedInjective("", n, "", n', StrategyPrefix(), 3);
    NumberedInjective("", n, "", n', LineagePrefix(), 3);
    NumberedInjective("", n, "", n', VersionPrefix(), 3);
    NumberedInjective("", n, "", n', JobPrefix(), 3);
  }

  // ----- the operations -----

  /** The records of a new strategy pass their validation. */
  predicate Creatable(op: Op)
    requires op.Create?
  {
    && op.projectId != "" && op.displayName != ""
    && op.params.testType != "" && op.params.instrument != "" && op.params.dataSource != ""
    && op.params.timeframe != "" && op.params.start != "" && op.params.end != ""
  }

  function Opt(f: Field, v: Option<string>): map<Field, string> {
    if v.Some? then map[f := v.value] else map[]
  }

  function VersionedEvent(projectId: string, v: Version): Event {
    Event("strategy.versioned", Some(v.lineageId),
          map[ProjectId := projectId, StrategyId := v.strategyId, StrategyVersionId := v.versionId]
          + Opt(AiThreadId, v.thread) + Opt(ImprovementCycleId, v.cycle))
  }

  function EnqueuedEvent(j: Job, v: Version): Event {
    Event("test.enqueued", Some(v.lineageId),
          map[ProjectId := j.projectId, StrategyId := v.strategyId, StrategyVersionId := v.versionId, TestJobId := j.jobId]
          + Opt(AiThreadId, v.thread) + Opt(ImprovementCycleId, v.cycle))
  }

  function CompletedEvent(r: Result): Event {
    Event(Completed(), Some(r.lineageId),
          map[ProjectId := r.projectId, StrategyVersionId := r.versionId, TestJobId := r.jobId, ResultId := r.resultId])
  }

  function SuggestedEvent(g: Suggestion): Event {
    Event(Suggested(), Some(g.lineageId),
          map[ProjectId := g.projectId, StrategyVersionId := g.versionId, ResultId := g.resultId,
              AiThreadId := g.thread, ImprovementCycleId := g.cycle])
  }

  function NewVersion(op: Op, n: nat): Version
    requires op.Create?
  {
    Version(StrategyNo(n), LineageNo(n), VersionNo(n), op.thread, op.cycle)
  }

  function NewJob(op: Op, n: nat): Job
    requires op.Create?
  {
    Job(JobNo(n), op.projectId, VersionNo(n), LineageNo(n), op.params.testType, op.params)
  }

  /** The counter advances before anything is validated. */
  function StepCreate(s: State, op: Op): State
    requires op.Create?
  {
    var n := s.counter + 1;
    if !Creatable(op) then s.(counter := n)
    else
      var v, j := NewVersion(op, n), NewJob(op, n);
      s.(counter := n,
         strategies := s.strategies[v.strategyId := Strategy(v.strategyId, v.lineageId, op.displayName)],
         versions := s.versions[v.versionId := v],
         jobs := s.jobs[j.jobId := j],
         events := s.events + [VersionedEvent(op.projectId, v)],
         enqueued := s.enqueued + [EnqueuedEvent(j, v)])
  }

  predicate Completes(s: State, op: Op)
    requires op.Complete?
  {
    op.jobId in s.jobs && op.resultId != ""
  }

  function NewResult(s: State, op: Op): Result
    requires op.Complete? && Completes(s, op)
  {
    var j := s.jobs[op.jobId];
    Result(op.resultId, op.jobId, j.projectId, j.lineageId, j.versionId, op.content)
  }

  function StepComplete(s: State, op: Op): State
    requires op.Complete?
  {
    if !Completes(s, op) then s
    else
      var r := NewResult(s, op);
      s.(results := s.results[r.resultId := r], events := s.events + [CompletedEvent(r)])
  }

  function SuggestionError(s: State, op: Op): Option<Error>
    requires op.Suggest?
  {
    if op.result !in s.results then Some(UnknownResult)
    else
      var r := s.results[op.result];
      if r.versionId !in s.versions then Some(UnknownVersion)
      else
        var v := s.versions[r.versionId];
        if v.thread.None? then Some(MissingThread)
        else if v.cycle.None? then Some(MissingCycle)
        else if v.thread.value == "" || v.cycle.value == "" || op.suggestionId == "" || op.suggestionType == "" || op.message == "" then Some(Invalid)
        else None
  }

  function NewSuggestion(s: State, op: Op): Suggestion
    requires op.Suggest? && SuggestionError(s, op).None?
  {
    var r := s.results[op.result];
    var v := s.versions[r.versionId];
    Suggestion(op.suggestionId, r.projectId, r.lineageId, r.versionId, r.resultId, v.thread.value, v.cycle.value, op.suggestionType, op.message)
  }

  function StepSuggest(s: State, op: Op): State
    requires op.Suggest?
  {
    if SuggestionError(s, op).Some? then s
    else
      var g := NewSuggestion(s, op);
      s.(suggestions := s.suggestions[g.suggestionId := g], events := s.events + [SuggestedEvent(g)])
  }

  function Step(s: State, op: Op): State {
    match op
    case Create(_, _, _, _, _) => StepCreate(s, op)
    case Complete(_, _, _) => StepComplete(s, op)
    case Suggest(_, _, _, _) => StepSuggest(s, op)
  }

  function Init(): State {
    State(0, map[], map[], map[], map[], map[], [], [])
  }

  function Run(ops: seq<Op>): State {
    if ops == [] then Init() else Step(Run(ops[..|ops| - 1]), ops[|ops| - 1])
  }

  // ----- referential integrity -----

  /** The version is stored under this id and has this lineage. */
  predicate Refers(versions: map<string, Version>, versionId: string, lineageId: string) {
    versionId in versions && versions[versionId].lineageId == lineageId
  }

  /** Versions are stored under their own ids, numbered like their lineage and strategy, never beyond the counter. */
  ghost predicate VersionsAreNumbered(s: State) {
    forall id :: id in s.versions ==>
      exists n: nat :: NumberedVersion(s, id, n)
  }

  ghost predicate NumberedVersion(s: State, id: string, n: nat) {
    && 1 <= n <= s.counter && id == VersionNo(n)
    && id in s.versions
    && s.versions[id].versionId == id
    && s.versions[id].lineageId == LineageNo(n)
    && s.versions[id].strategyId == StrategyNo(n)
    && StrategyNo(n) in s.strategies && s.strategies[StrategyNo(n)].lineageId == LineageNo(n)
  }

  ghost predicate JobsRefer(s: State) {
    forall id :: id in s.jobs ==>
      s.jobs[id].jobId == id && Refers(s.versions, s.jobs[id].versionId, s.jobs[id].lineageId)
      && (exists n: nat :: 1 <= n <= s.counter && id == JobNo(n))
  }

  ghost predicate ResultsRefer(s: State) {
    forall id :: id in s.results ==> s.results[id].resultId == id && ResultRefers(s, s.results[id])
  }

  /** A result agrees with its job, and so with the job's version. */
  ghost predicate ResultRefers(s: State, r: Result) {
    && r.jobId in s.jobs
    && s.jobs[r.jobId].projectId == r.projectId
    && s.jobs[r.jobId].versionId == r.versionId
    && s.jobs[r.jobId].lineageId == r.lineageId
    && Refers(s.versions, r.versionId, r.lineageId)
  }

  ghost predicate SuggestionsRefer(s: State) {
    forall id :: id in s.suggestions ==>
      var g := s.suggestions[id];
      && g.suggestionId == id
      && Refers(s.versions, g.versionId, g.lineageId)
      && s.versions[g.versionId].thread == Some(g.thread)
      && s.versions[g.versionId].cycle == Some(g.cycle)
      && g.resultId in s.results
  }

  /** Every published event names a stored version of the lineage it belongs to. */
  ghost predicate EventsRefer(s: State) {
    forall i :: 0 <= i < |s.events| ==> EventRefers(s.versions, s.events[i])
  }

  ghost predicate EventRefers(versions: map<string, Version>, e: Event) {
    && e.lineage.Some?
    && StrategyVersionId in e.payload
    && Refers(versions, e.payload[StrategyVersionId], e.lineage.value)
  }

  ghost predicate Integrity(s: State) {
    && VersionsAreNumbered(s)
    && JobsRefer(s)
    && ResultsRefer(s)
    && SuggestionsRefer(s)
    && EventsRefer(s)
  }

  /** The new number has not been used for a version or a job. */
  lemma NextNumberIsFree(s: State)
    requires VersionsAreNumbered(s) && JobsRefer(s)
    ensures VersionNo(s.counter + 1) !in s.versions && JobNo(s.counter + 1) !in s.jobs
    ensures forall id, n: nat :: NumberedVersion(s, id, n) ==> StrategyNo(n) != StrategyNo(s.counter + 1)
  {
    hide StrategyNo, LineageNo, VersionNo, JobNo;
    var next := s.counter + 1;
    forall n: nat ensures (VersionNo(n) == VersionNo(next) || JobNo(n) == JobNo(next) || StrategyNo(n) == StrategyNo(next)) ==> n == next {
      NumbersAreDistinct(n, next);
    }
  }

  lemma CreateNumbersVersions(s: State, op: Op)
    requires op.Create? && VersionsAreNumbered(s) && JobsRefer(s)
    ensures VersionsAreNumbered(StepCreate(s, op))
  {
    hide StrategyNo, LineageNo, VersionNo, JobNo, VersionedEvent, EnqueuedEvent;
    NextNumberIsFree(s);
    var s' := StepCreate(s, op);
    forall id | id in s'.versions ensures exists n: nat :: NumberedVersion(s', id, n) {
      if id in s.versions {
        var n: nat :| NumberedVersion(s, id, n);
        assert NumberedVersion(s', id, n);
      } else {
        assert NumberedVersion(s', id, s.counter + 1);
      }
    }
  }

  lemma CreateKeepsReferences(s: State, op: Op)
    requires op.Create? && Creatable(op) && Integrity(s)
    ensures var s' := StepCreate(s, op); JobsRefer(s') && ResultsRefer(s') && SuggestionsRefer(s') && EventsRefer(s')
  {
    hide VersionsAreNumbered, JobsRefer, ResultsRefer, SuggestionsRefer, EventsRefer, StepCreate, NewVersion, NewJob, VersionNo, JobNo;
    NextNumberIsFree(s);
    var n := s.counter + 1;
    var v, j := NewVersion(op, n), NewJob(op, n);
    CreateAdds(s, op);
    JobsStay(s, StepCreate(s, op), v, j);
    ResultsStay(s, StepCreate(s, op), v, j);
    SuggestionsStay(s, StepCreate(s, op), v);
    EventsStay(s, StepCreate(s, op), op.projectId, v);
  }

  /** What a creation adds to the repository, and the event it publishes. */
  lemma CreateAdds(s: State, op: Op)
    requires op.Create? && Creatable(op)
    ensures var s', n := StepCreate(s, op), s.counter + 1;
            var v, j := NewVersion(op, n), NewJob(op, n);
            && v.versionId == VersionNo(n) && j.jobId == JobNo(n) && j.versionId == v.versionId && j.lineageId == v.lineageId
            && s'.counter == n && s'.versions == s.versions[v.versionId := v] && s'.jobs == s.jobs[j.jobId := j]
            && s'.results == s.results && s'.suggestions == s.suggestions
            && s'.events == s.events + [VersionedEvent(op.projectId, v)]
  {
    hide StrategyNo, LineageNo, VersionNo, JobNo, VersionedEvent, EnqueuedEvent;
  }

  lemma JobsStay(s: State, s': State, v: Version, j: Job)
    requires JobsRefer(s) && v.versionId !in s.versions
    requires s'.versions == s.versions[v.versionId := v] && s'.jobs == s.jobs[j.jobId := j] && s'.counter == s.counter + 1
    requires j.jobId == JobNo(s'.counter) && j.versionId == v.versionId && j.lineageId == v.lineageId
    ensures JobsRefer(s')
  {
    hide JobNo;
  }

  lemma ResultsStay(s: State, s': State, v: Version, j: Job)
    requires ResultsRefer(s) && v.versionId !in s.versions && j.jobId !in s.jobs
    requires s'.versions == s.versions[v.versionId := v] && s'.jobs == s.jobs[j.jobId := j] && s'.results == s.results
    ensures ResultsRefer(s')
  {
    assert forall r :: ResultRefers(s, r) ==> ResultRefers(s', r);
  }

  lemma SuggestionsStay(s: State, s': State, v: Version)
    requires SuggestionsRefer(s) && v.versionId !in s.versions
    requires s'.versions == s.versions[v.versionId := v] && s'.suggestions == s.suggestions && s'.results == s.results
    ensures SuggestionsRefer(s')
  {
  }

  lemma EventsStay(s: State, s': State, projectId: string, v: Version)
    requires EventsRefer(s) && v.versionId !in s.versions
    requires s'.versions == s.versions[v.versionId := v] && s'.events == s.events + [VersionedEvent(projectId, v)]
    ensures EventsRefer(s')
  {
    hide VersionedEvent, EventRefers;
    forall i | 0 <= i < |s.events| ensures EventRefers(s'.versions, s.events[i]) {
      EventStays(s.versions, s'.versions, s.events[i]);
    }
    VersionedEventRefers(s'.versions, projectId, v);
  }

  lemma EventStays(versions: map<string, Version>, versions': map<string, Version>, e: Event)
    requires EventRefers(versions, e)
    requires forall id, l :: Refers(versions, id, l) ==> Refers(versions', id, l)
    ensures EventRefers(versions', e)
  {
  }

  lemma VersionedEventRefers(versions: map<string, Version>, projectId: string, v: Version)
    requires Refers(versions, v.versionId, v.lineageId)
    ensures EventRefers(versions, VersionedEvent(projectId, v))
  {
  }

  lemma NumberingStays(s: State, s': State)
    requires VersionsAreNumbered(s)
    requires s'.counter == s.counter && s'.versions == s.versions && s'.strategies == s.strategies
    ensures VersionsAreNumbered(s')
  {
    hide StrategyNo, LineageNo, VersionNo, JobNo;
    forall id | id in s'.versions ensures exists n: nat :: NumberedVersion(s', id, n) {
      var n: nat :| NumberedVersion(s, id, n);
      assert NumberedVersion(s', id, n);
    }
  }

  lemma CompleteKeepsIntegrity(s: State, op: Op)
    requires op.Complete? && Integrity(s)
    ensures Integrity(StepComplete(s, op))
  {
    hide StrategyNo, LineageNo, VersionNo, JobNo, Completed, VersionsAreNumbered;
    var s' := StepComplete(s, op);
    NumberingStays(s, s');
    if Completes(s, op) {
      assert EventRefers(s.versions, CompletedEvent(NewResult(s, op)));
      assert ResultRefers(s, NewResult(s, op));
      assert forall r :: ResultRefers(s, r) ==> ResultRefers(s', r);
    }
  }

  lemma SuggestKeepsIntegrity(s: State, op: Op)
    requires op.Suggest? && Integrity(s)
    ensures Integrity(StepSuggest(s, op))
  {
    hide VersionsAreNumbered, JobNo;
    var s' := StepSuggest(s, op);
    NumberingStays(s, s');
    assert forall r :: ResultRefers(s, r) ==> ResultRefers(s', r);
    if SuggestionError(s, op).None? {
      SuggestionAgrees(s, op);
      hide SuggestionError, NewSuggestion, SuggestedEvent, EventRefers, ResultRefers;
    }
  }

  /** A new suggestion and its event agree with the version of the result they are about. */
  lemma SuggestionAgrees(s: State, op: Op)
    requires op.Suggest? && SuggestionError(s, op).None? && ResultsRefer(s)
    ensures var g := NewSuggestion(s, op);
            && g.suggestionId == op.suggestionId && g.resultId in s.results
            && Refers(s.versions, g.versionId, g.lineageId)
            && s.versions[g.versionId].thread == Some(g.thread) && s.versions[g.versionId].cycle == Some(g.cycle)
            && EventRefers(s.versions, SuggestedEvent(g))
  {
    hide Suggested;
    assert ResultRefers(s, s.results[op.result]);
  }

  lemma CounterOnly(s: State, n: nat)
    requires Integrity(s) && n >= s.counter && VersionsAreNumbered(s.(counter := n))
    ensures Integrity(s.(counter := n))
  {
    hide StrategyNo, LineageNo, VersionNo, JobNo, VersionsAreNumbered;
    var s' := s.(counter := n);
    assert forall r :: ResultRefers(s, r) ==> ResultRefers(s', r);
  }

  lemma StepKeepsIntegrity(s: State, op: Op)
    requires Integrity(s)
    ensures Integrity(Step(s, op))
  {
    match op
    case Create(_, _, _, _, _) =>
      hide VersionsAreNumbered, JobsRefer, ResultsRefer, SuggestionsRefer, EventsRefer;
      CreateNumbersVersions(s, op);
      if Creatable(op) {
        CreateKeepsReferences(s, op);
      } else {
        CounterOnly(s, s.counter + 1);
      }
    case Complete(_, _, _) =>
      CompleteKeepsIntegrity(s, op);
    case Suggest(_, _, _, _) =>
      SuggestKeepsIntegrity(s, op);
  }

  /** In every run, jobs, results, suggestions and events agree with a stored version on lineage and version. */
  lemma {:induction false} RunKeepsIntegrity(ops: seq<Op>)
    ensures Integrity(Run(ops))
  {
    if ops != [] {
      hide Integrity;
      RunKeepsIntegrity(ops[..|ops| - 1]);
      StepKeepsIntegrity(Run(ops[..|ops| - 1]), ops[|ops| - 1]);
    }
  }

  lemma IntegrityFreesTheNextNumber(s: State)
    requires Integrity(s)
    ensures VersionNo(s.counter + 1) !in s.versions && JobNo(s.counter + 1) !in s.jobs
  {
    NextNumberIsFree(s);
  }
}
