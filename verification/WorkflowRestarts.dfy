/** Services started one after the other on the same repository: each counts from 1 again and overwrites the records of
    earlier ones.  Lineages and versions still agree everywhere; when project, thread and cycle do is stated exactly. */
module WorkflowRestarts {
  import opened Options
  import opened WorkflowProjection
  import opened WorkflowService

  /** None stands for a new service taking over: its counter starts afresh, the repository and the streams stay. */
  function RunWithRestarts(steps: seq<Option<Op>>): State {
    if steps == [] then Init()
    else
      var before, last := RunWithRestarts(steps[..|steps| - 1]), steps[|steps| - 1];
      if last.None? then before.(counter := 0) else Step(before, last.value)
  }

  /** The version carries the number of its lineage. */
  ghost predicate NumberedAlike(versions: map<string, Version>, id: string, n: nat) {
    id in versions && id == VersionNo(n) && versions[id].lineageId == LineageNo(n)
  }

  ghost predicate AllNumbered(versions: map<string, Version>) {
    forall id :: id in versions ==> exists n: nat :: NumberedAlike(versions, id, n)
  }

  /** The job carries the number of its version and its lineage. */
  ghost predicate JobAlike(jobs: map<string, Job>, id: string, n: nat) {
    && id in jobs && id == JobNo(n)
    && jobs[id].jobId == id && jobs[id].versionId == VersionNo(n) && jobs[id].lineageId == LineageNo(n)
  }

  ghost predicate JobsAgree(s: State) {
    forall id :: id in s.jobs ==>
      && Refers(s.versions, s.jobs[id].versionId, s.jobs[id].lineageId)
      && exists n: nat :: JobAlike(s.jobs, id, n)
  }

  /** A result agrees with its job on everything but, possibly, the project. */
  ghost predicate ResultLinked(s: State, id: string)
    requires id in s.results
  {
    var r := s.results[id];
    && r.resultId == id
    && r.jobId in s.jobs && s.jobs[r.jobId].versionId == r.versionId && s.jobs[r.jobId].lineageId == r.lineageId
    && Refers(s.versions, r.versionId, r.lineageId)
  }

  /** A suggestion agrees with its version on everything but, possibly, thread and cycle. */
  ghost predicate SuggestionLinked(s: State, id: string)
    requires id in s.suggestions
  {
    var g := s.suggestions[id];
    && g.suggestionId == id && g.resultId in s.results
    && Refers(s.versions, g.versionId, g.lineageId)
  }

  /** Jobs, results, suggestions and events name stored records of their lineages. */
  ghost predicate LineagesAgree(s: State) {
    && AllNumbered(s.versions)
    && JobsAgree(s)
    && (forall id :: id in s.results ==> ResultLinked(s, id))
    && (forall id :: id in s.suggestions ==> SuggestionLinked(s, id))
    && EventsRefer(s)
  }

  /** A version that is overwritten keeps its lineage, because both have the same number. */
  lemma OverwritingKeepsLineages(s: State, v: Version, n: nat)
    requires AllNumbered(s.versions)
    requires v.versionId == VersionNo(n) && v.lineageId == LineageNo(n)
    ensures forall id, l :: Refers(s.versions, id, l) ==> Refers(s.versions[v.versionId := v], id, l)
    ensures AllNumbered(s.versions[v.versionId := v])
  {
    hide VersionNo, LineageNo;
    var versions := s.versions[v.versionId := v];
    forall id, l | Refers(s.versions, id, l) ensures Refers(versions, id, l) {
      var m: nat :| NumberedAlike(s.versions, id, m);
      NumbersAreDistinct(m, n);
    }
    forall id | id in versions ensures exists m: nat :: NumberedAlike(versions, id, m) {
      if id == v.versionId {
        assert NumberedAlike(versions, id, n);
      } else {
        var m: nat :| NumberedAlike(s.versions, id, m);
        assert NumberedAlike(versions, id, m);
      }
    }
  }

  lemma CreateKeepsLineages(s: State, op: Op)
    requires op.Create? && LineagesAgree(s)
    ensures LineagesAgree(StepCreate(s, op))
  {
    hide VersionNo, LineageNo, StrategyNo, JobNo, VersionedEvent, EventRefers, NumberedAlike, JobAlike, Refers, StepCreate, EventsRefer,
         ResultLinked, SuggestionLinked, JobsAgree, AllNumbered;
    if Creatable(op) {
      var n := s.counter + 1;
      var v, j := NewVersion(op, n), NewJob(op, n);
      var s' := StepCreate(s, op);
      CreateAdds(s, op);
      OverwritingKeepsLineages(s, v, n);
      NewVersionRefers(s.versions, v);
      OverwritingKeepsJobs(s, s', v, j, n);
      forall id | id in s'.results ensures ResultLinked(s', id) {
        ResultStays(s, s', j, n, id);
      }
      forall id | id in s'.suggestions ensures SuggestionLinked(s', id) {
        SuggestionStays(s, s', id);
      }
      EventsStayOver(s, s', op.projectId, v);
    } else {
      OnlyCounted(s, op);
      SameRecords(s, s.(counter := s.counter + 1));
    }
  }

  /** The new job takes the place of one with the same number, if of any. */
  lemma OverwritingKeepsJobs(s: State, s': State, v: Version, j: Job, n: nat)
    requires JobsAgree(s) && s'.jobs == s.jobs[j.jobId := j]
    requires forall id, l :: Refers(s.versions, id, l) ==> Refers(s'.versions, id, l)
    requires j.jobId == JobNo(n) && j.versionId == VersionNo(n) && j.lineageId == LineageNo(n)
    requires Refers(s'.versions, j.versionId, j.lineageId)
    ensures JobsAgree(s')
  {
    hide VersionNo, LineageNo, JobNo, Refers;
    forall id | id in s'.jobs ensures exists m: nat :: JobAlike(s'.jobs, id, m) {
      if id == j.jobId {
        assert JobAlike(s'.jobs, id, n);
      } else {
        var m: nat :| JobAlike(s.jobs, id, m);
        assert JobAlike(s'.jobs, id, m);
      }
    }
  }

  lemma ResultStays(s: State, s': State, j: Job, n: nat, id: string)
    requires JobsAgree(s) && id in s.results && ResultLinked(s, id)
    requires s'.results == s.results && s'.jobs == s.jobs[j.jobId := j]
    requires forall id, l :: Refers(s.versions, id, l) ==> Refers(s'.versions, id, l)
    requires j.jobId == JobNo(n) && j.versionId == VersionNo(n) && j.lineageId == LineageNo(n)
    ensures ResultLinked(s', id)
  {
    hide VersionNo, LineageNo, JobNo, Refers;
    var m: nat :| JobAlike(s.jobs, s.results[id].jobId, m);
    NumbersAreDistinct(m, n);
  }

  lemma SuggestionStays(s: State, s': State, id: string)
    requires id in s.suggestions && SuggestionLinked(s, id)
    requires s'.suggestions == s.suggestions && s'.results == s.results
    requires forall id, l :: Refers(s.versions, id, l) ==> Refers(s'.versions, id, l)
    ensures SuggestionLinked(s', id)
  {
    hide Refers;
  }

  lemma EventsStayOver(s: State, s': State, projectId: string, v: Version)
    requires EventsRefer(s) && s'.events == s.events + [VersionedEvent(projectId, v)]
    requires forall id, l :: Refers(s.versions, id, l) ==> Refers(s'.versions, id, l)
    requires Refers(s'.versions, v.versionId, v.lineageId)
    ensures EventsRefer(s')
  {
    hide VersionedEvent, EventRefers, Refers;
    forall i | 0 <= i < |s.events| ensures EventRefers(s'.versions, s.events[i]) {
      EventStays(s.versions, s'.versions, s.events[i]);
    }
    VersionedEventRefers(s'.versions, projectId, v);
  }

  lemma SameRecords(s: State, s': State)
    requires LineagesAgree(s) && s' == s.(counter := s'.counter)
    ensures LineagesAgree(s')
  {
    hide NumberedAlike, JobAlike, Refers, EventRefers;
    forall id | id in s'.results ensures ResultLinked(s', id) {
      assert ResultLinked(s, id);
    }
    forall id | id in s'.suggestions ensures SuggestionLinked(s', id) {
      assert SuggestionLinked(s, id);
    }
  }

  lemma NewVersionRefers(versions: map<string, Version>, v: Version)
    ensures Refers(versions[v.versionId := v], v.versionId, v.lineageId)
  {
  }

  lemma OnlyCounted(s: State, op: Op)
    requires op.Create? && !Creatable(op)
    ensures StepCreate(s, op) == s.(counter := s.counter + 1)
  {
  }

  lemma CompleteKeepsLineages(s: State, op: Op)
    requires op.Complete? && LineagesAgree(s)
    ensures LineagesAgree(StepComplete(s, op))
  {
    hide NumberedAlike, JobAlike, Completed, JobNo, VersionNo, LineageNo;
    if Completes(s, op) {
      var s' := StepComplete(s, op);
      assert EventRefers(s.versions, CompletedEvent(NewResult(s, op)));
      CompletedJob(s, op);
      hide EventRefers, Refers, CompletedEvent;
      forall id | id in s'.results ensures ResultLinked(s', id) {
        assert id != op.resultId ==> ResultLinked(s, id);
      }
      forall id | id in s'.suggestions ensures SuggestionLinked(s', id) {
        assert SuggestionLinked(s, id);
      }
    }
  }

  lemma CompletedJob(s: State, op: Op)
    requires op.Complete? && Completes(s, op) && JobsAgree(s)
    ensures Refers(s.versions, NewResult(s, op).versionId, NewResult(s, op).lineageId)
  {
    hide JobAlike;
  }

  lemma SuggestKeepsLineages(s: State, op: Op)
    requires op.Suggest? && LineagesAgree(s)
    ensures LineagesAgree(StepSuggest(s, op))
  {
    hide NumberedAlike, JobAlike, Suggested;
    if SuggestionError(s, op).None? {
      var s' := StepSuggest(s, op);
      assert ResultLinked(s, op.result);
      assert EventRefers(s.versions, SuggestedEvent(NewSuggestion(s, op)));
      hide EventRefers, SuggestedEvent;
      forall id | id in s'.results ensures ResultLinked(s', id) {
        assert ResultLinked(s, id);
      }
      forall id | id in s'.suggestions ensures SuggestionLinked(s', id) {
        assert id != op.suggestionId ==> SuggestionLinked(s, id);
      }
    }
  }

  lemma StepKeepsLineages(s: State, op: Op)
    requires LineagesAgree(s)
    ensures LineagesAgree(Step(s, op))
  {
    hide LineagesAgree, StepCreate, StepComplete, StepSuggest;
    match op
    case Create(_, _, _, _, _) => CreateKeepsLineages(s, op);
    case Complete(_, _, _) => CompleteKeepsLineages(s, op);
    case Suggest(_, _, _, _) => SuggestKeepsLineages(s, op);
  }

  /** However many services took over from each other, each job, result, suggestion and event agrees with a stored version
      on version and lineage. */
  lemma {:induction false} RestartsKeepLineages(steps: seq<Option<Op>>)
    ensures LineagesAgree(RunWithRestarts(steps))
  {
    hide LineagesAgree, Step;
    if steps == [] {
      EmptyAgrees();
    } else {
      var before, last := RunWithRestarts(steps[..|steps| - 1]), steps[|steps| - 1];
      RestartsKeepLineages(steps[..|steps| - 1]);
      if last.None? {
        SameRecords(before, before.(counter := 0));
      } else {
        StepKeepsLineages(before, last.value);
      }
    }
  }

  lemma EmptyAgrees()
    ensures LineagesAgree(Init())
  {
  }

  // ----- what a later service can take over -----

  /** The operation overwrites a job that a result of another project names. */
  ghost predicate TakesOverAResult(s: State, op: Op) {
    && op.Create? && Creatable(op)
    && exists id :: id in s.results && s.results[id].jobId == JobNo(s.counter + 1) && s.results[id].projectId != op.projectId
  }

  /** The operation overwrites a version that a suggestion of another thread or cycle names. */
  ghost predicate TakesOverASuggestion(s: State, op: Op) {
    && op.Create? && Creatable(op)
    && exists id :: id in s.suggestions && s.suggestions[id].versionId == VersionNo(s.counter + 1)
                    && (op.thread != Some(s.suggestions[id].thread) || op.cycle != Some(s.suggestions[id].cycle))
  }

  ghost predicate NoResultTakenOver(steps: seq<Option<Op>>) {
    steps == [] || (var front, last := steps[..|steps| - 1], steps[|steps| - 1];
                    NoResultTakenOver(front) && (last.Some? ==> !TakesOverAResult(RunWithRestarts(front), last.value)))
  }

  ghost predicate NoSuggestionTakenOver(steps: seq<Option<Op>>) {
    steps == [] || (var front, last := steps[..|steps| - 1], steps[|steps| - 1];
                    NoSuggestionTakenOver(front) && (last.Some? ==> !TakesOverASuggestion(RunWithRestarts(front), last.value)))
  }

  ghost predicate ResultsReferThroughout(steps: seq<Option<Op>>) {
    forall k :: 0 <= k <= |steps| ==> ResultsRefer(RunWithRestarts(steps[..k]))
  }

  ghost predicate SuggestionsReferThroughout(steps: seq<Option<Op>>) {
    forall k :: 0 <= k <= |steps| ==> SuggestionsRefer(RunWithRestarts(steps[..k]))
  }

  /** Where versions and lineages agree, results refer to their jobs iff the projects are equal. */
  lemma ResultsReferIff(s: State)
    requires LineagesAgree(s)
    ensures ResultsRefer(s) <==> forall id :: id in s.results ==> ProjectAgrees(s, id)
  {
    hide NumberedAlike, JobAlike, Refers;
    assert forall id :: id in s.results ==> ResultLinked(s, id);
  }

  predicate ProjectAgrees(s: State, id: string) {
    id in s.results && s.results[id].jobId in s.jobs && s.jobs[s.results[id].jobId].projectId == s.results[id].projectId
  }

  lemma SuggestionsReferIff(s: State)
    requires LineagesAgree(s)
    ensures SuggestionsRefer(s) <==> forall id :: id in s.suggestions ==> ThreadAgrees(s, id)
  {
    hide NumberedAlike, JobAlike;
    assert forall id :: id in s.suggestions ==> SuggestionLinked(s, id);
  }

  predicate ThreadAgrees(s: State, id: string) {
    && id in s.suggestions && s.suggestions[id].versionId in s.versions
    && s.versions[s.suggestions[id].versionId].thread == Some(s.suggestions[id].thread)
    && s.versions[s.suggestions[id].versionId].cycle == Some(s.suggestions[id].cycle)
  }

  /** An operation leaves every result in agreement with its job iff it takes none over. */
  lemma ResultsStepIff(s: State, op: Op)
    requires LineagesAgree(s) && ResultsRefer(s)
    ensures ResultsRefer(Step(s, op)) <==> !TakesOverAResult(s, op)
  {
    hide LineagesAgree, ResultsRefer, JobNo, VersionNo, LineageNo, StrategyNo, StepCreate, Completed, Suggested, Opt, SuggestionError, Creatable;
    StepKeepsLineages(s, op);
    ResultsReferIff(s);
    ResultsReferIff(Step(s, op));
    if op.Create? {
      if Creatable(op) {
        CreateAdds(s, op);
        ProjectsAfterCreate(s, op);
      } else {
        OnlyCounted(s, op);
        assert forall id :: ProjectAgrees(s, id) <==> ProjectAgrees(Step(s, op), id);
      }
    } else {
      assert forall id :: id in Step(s, op).results ==> ProjectAgrees(Step(s, op), id) by {
        forall id | id in Step(s, op).results ensures ProjectAgrees(Step(s, op), id) {
          assert id in s.results ==> ProjectAgrees(s, id);
        }
      }
    }
  }

  lemma ProjectsAfterCreate(s: State, op: Op)
    requires op.Create? && Creatable(op)
    requires forall id :: id in s.results ==> ProjectAgrees(s, id)
    ensures (forall id :: id in StepCreate(s, op).results ==> ProjectAgrees(StepCreate(s, op), id)) <==> !TakesOverAResult(s, op)
  {
    hide JobNo, VersionNo, LineageNo, StrategyNo, StepCreate, Creatable;
    CreateAdds(s, op);
    var s' := StepCreate(s, op);
    assert s'.jobs[JobNo(s.counter + 1)].projectId == op.projectId;
    forall id | id in s.results
      ensures ProjectAgrees(s', id) <==> !(s.results[id].jobId == JobNo(s.counter + 1) && s.results[id].projectId != op.projectId)
    {
      assert ProjectAgrees(s, id);
    }
  }

  /** An operation leaves every suggestion in agreement with its version iff it takes none over. */
  lemma SuggestionsStepIff(s: State, op: Op)
    requires LineagesAgree(s) && SuggestionsRefer(s)
    ensures SuggestionsRefer(Step(s, op)) <==> !TakesOverASuggestion(s, op)
  {
    hide LineagesAgree, SuggestionsRefer, JobNo, VersionNo, LineageNo, StrategyNo, StepCreate, Completed, Suggested, Opt, Creatable;
    StepKeepsLineages(s, op);
    SuggestionsReferIff(s);
    SuggestionsReferIff(Step(s, op));
    if op.Create? {
      if Creatable(op) {
        ThreadsAfterCreate(s, op);
      } else {
        OnlyCounted(s, op);
        assert forall id :: ThreadAgrees(s, id) <==> ThreadAgrees(Step(s, op), id);
      }
    } else {
      assert forall id :: id in Step(s, op).suggestions ==> ThreadAgrees(Step(s, op), id) by {
        forall id | id in Step(s, op).suggestions ensures ThreadAgrees(Step(s, op), id) {
          assert id in s.suggestions ==> ThreadAgrees(s, id);
        }
      }
    }
  }

  lemma ThreadsAfterCreate(s: State, op: Op)
    requires op.Create? && Creatable(op)
    requires forall id :: id in s.suggestions ==> ThreadAgrees(s, id)
    ensures (forall id :: id in StepCreate(s, op).suggestions ==> ThreadAgrees(StepCreate(s, op), id)) <==> !TakesOverASuggestion(s, op)
  {
    hide JobNo, VersionNo, LineageNo, StrategyNo, StepCreate, Creatable;
    CreateAdds(s, op);
    var s', v := StepCreate(s, op), NewVersion(op, s.counter + 1);
    forall id | id in s.suggestions
      ensures ThreadAgrees(s', id) <==>
              !(s.suggestions[id].versionId == VersionNo(s.counter + 1)
                && (op.thread != Some(s.suggestions[id].thread) || op.cycle != Some(s.suggestions[id].cycle)))
    {
      assert ThreadAgrees(s, id);
    }
  }

  /** Over any succession of services, every result agrees with its job at every point, project included, iff no service
      created a job over one that a result of another project names. */
  lemma {:induction false} ResultsReferThroughoutIff(steps: seq<Option<Op>>)
    ensures ResultsReferThroughout(steps) <==> NoResultTakenOver(steps)
  {
    hide ResultsRefer, TakesOverAResult, LineagesAgree, Step;
    assert steps[..|steps|] == steps;
    if steps == [] {
      NothingToRefer();
    } else {
      var front, last := steps[..|steps| - 1], steps[|steps| - 1];
      ResultsReferThroughoutIff(front);
      assert front[..|front|] == front;
      assert forall k :: 0 <= k <= |front| ==> front[..k] == steps[..k];
      RestartsKeepLineages(front);
      var before := RunWithRestarts(front);
      if ResultsRefer(before) {
        if last.None? {
          CounterDoesNotMatter(before);
        } else {
          ResultsStepIff(before, last.value);
        }
      }
    }
  }

  /** The same for suggestions and the thread and cycle of their versions. */
  lemma {:induction false} SuggestionsReferThroughoutIff(steps: seq<Option<Op>>)
    ensures SuggestionsReferThroughout(steps) <==> NoSuggestionTakenOver(steps)
  {
    hide SuggestionsRefer, TakesOverASuggestion, LineagesAgree, Step;
    assert steps[..|steps|] == steps;
    if steps == [] {
      NothingToRefer();
    } else {
      var front, last := steps[..|steps| - 1], steps[|steps| - 1];
      SuggestionsReferThroughoutIff(front);
      assert front[..|front|] == front;
      assert forall k :: 0 <= k <= |front| ==> front[..k] == steps[..k];
      RestartsKeepLineages(front);
      var before := RunWithRestarts(front);
      if SuggestionsRefer(before) {
        if last.None? {
          CounterDoesNotMatter(before);
        } else {
          SuggestionsStepIff(before, last.value);
        }
      }
    }
  }

  lemma NothingToRefer()
    ensures ResultsRefer(Init()) && SuggestionsRefer(Init())
  {
  }

  lemma CounterDoesNotMatter(s: State)
    ensures ResultsRefer(s) <==> ResultsRefer(s.(counter := 0))
    ensures SuggestionsRefer(s) <==> SuggestionsRefer(s.(counter := 0))
  {
    assert forall r :: ResultRefers(s, r) <==> ResultRefers(s.(counter := 0), r);
  }

  // ----- when the ids of a creation are unused -----

  /** Step i was an accepted creation with the number n. */
  ghost predicate CreatedAs(steps: seq<Option<Op>>, i: int, n: nat) {
    && 0 <= i < |steps| && steps[i].Some? && steps[i].value.Create? && Creatable(steps[i].value)
    && RunWithRestarts(steps[..i]).counter + 1 == n
  }

  lemma EarlierCreation(steps: seq<Option<Op>>, i: int, n: nat)
    requires steps != [] && i != |steps| - 1
    ensures CreatedAs(steps, i, n) <==> CreatedAs(steps[..|steps| - 1], i, n)
  {
    hide RunWithRestarts, Creatable;
    var front := steps[..|steps| - 1];
    if 0 <= i < |front| {
      assert front[..i] == steps[..i];
    }
  }

  /** Which numbers a step adds. */
  lemma NumbersAfter(s: State, last: Option<Op>, n: nat)
    ensures var after := if last.None? then s.(counter := 0) else Step(s, last.value);
            var added := last.Some? && last.value.Create? && Creatable(last.value) && s.counter + 1 == n;
            && (JobNo(n) in after.jobs <==> JobNo(n) in s.jobs || added)
            && (VersionNo(n) in after.versions <==> VersionNo(n) in s.versions || added)
  {
    hide JobNo, VersionNo, LineageNo, StrategyNo, Completed, Suggested, Opt, SuggestionError, Creatable, StepCreate;
    NumbersAreDistinct(s.counter + 1, n);
    if last.Some? && last.value.Create? {
      if Creatable(last.value) {
        CreateAdds(s, last.value);
      } else {
        OnlyCounted(s, last.value);
      }
    }
  }

  /** A number is in use, by a job and by a version, iff some service accepted a creation at that count.  So the ids a
      creation takes are unused iff no creation was accepted at its count before. */
  lemma {:induction false} NumberUsedIff(steps: seq<Option<Op>>, n: nat)
    ensures JobNo(n) in RunWithRestarts(steps).jobs <==> exists i :: CreatedAs(steps, i, n)
    ensures VersionNo(n) in RunWithRestarts(steps).versions <==> exists i :: CreatedAs(steps, i, n)
  {
    hide Step, JobNo, VersionNo, Creatable;
    if steps != [] {
      var front, last, m := steps[..|steps| - 1], steps[|steps| - 1], |steps| - 1;
      NumberUsedIff(front, n);
      NumbersAfter(RunWithRestarts(front), last, n);
      forall i | i != m ensures CreatedAs(steps, i, n) <==> CreatedAs(front, i, n) {
        EarlierCreation(steps, i, n);
      }
      assert CreatedAs(steps, m, n) <==>
             last.Some? && last.value.Create? && Creatable(last.value) && RunWithRestarts(front).counter + 1 == n;
      hide CreatedAs;
      if i :| CreatedAs(front, i, n) {
        InRange(front, i, n);
        assert CreatedAs(steps, i, n);
      }
    }
  }

  lemma InRange(steps: seq<Option<Op>>, i: int, n: nat)
    requires CreatedAs(steps, i, n)
    ensures 0 <= i < |steps|
  {
  }

  // ----- failing inputs -----

  lemma RunAppends(steps: seq<Option<Op>>, last: Option<Op>)
    ensures RunWithRestarts(steps + [last]) ==
            if last.None? then RunWithRestarts(steps).(counter := 0) else Step(RunWithRestarts(steps), last.value)
  {
    hide Step;
    assert (steps + [last])[..|steps|] == steps;
  }

  /** A second service for another project: the stored result keeps its project, its job gets the new one. */
  lemma SecondServiceTakesAResult(a: Op, b: Op, content: string)
    requires a.Create? && Creatable(a) && b.Create? && Creatable(b) && a.projectId != b.projectId
    ensures var s := RunWithRestarts([] + [Some(a)] + [Some(Complete(JobNo(1), "r", content))] + [None] + [Some(b)]);
            && "r" in s.results && s.results["r"].jobId in s.jobs
            && s.results["r"].projectId == a.projectId && s.jobs[s.results["r"].jobId].projectId == b.projectId
            && !ResultsRefer(s)
  {
    hide RunWithRestarts, JobNo, VersionNo, LineageNo, StrategyNo, StepCreate, Creatable, Completed;
    var complete := Some(Complete(JobNo(1), "r", content));
    RunAppends([], Some(a));
    RunAppends([] + [Some(a)], complete);
    RunAppends([] + [Some(a)] + [complete], None);
    RunAppends([] + [Some(a)] + [complete] + [None], Some(b));
    NoSteps();
    CreateAdds(Init(), a);
    var s := RunWithRestarts([] + [Some(a)] + [complete] + [None]);
    CreateAdds(s, b);
    assert !ResultRefers(Step(s, b), Step(s, b).results["r"]);
  }

  lemma NoSteps()
    ensures RunWithRestarts([]) == Init()
  {
  }

  /** A second service on another thread: the stored suggestion keeps its thread, its version gets the new one. */
  lemma SecondServiceTakesASuggestion(a: Op, b: Op, content: string)
    requires a.Create? && Creatable(a) && b.Create? && Creatable(b) && a.thread != b.thread
    requires a.thread.Some? && a.thread.value != "" && a.cycle.Some? && a.cycle.value != ""
    ensures var s := RunWithRestarts([] + [Some(a)] + [Some(Complete(JobNo(1), "r", content))] + [Some(Suggest("r", "g", "t", "m"))]
                                     + [None] + [Some(b)]);
            && "g" in s.suggestions && s.suggestions["g"].versionId in s.versions
            && Some(s.suggestions["g"].thread) == a.thread && s.versions[s.suggestions["g"].versionId].thread == b.thread
            && !SuggestionsRefer(s)
  {
    hide RunWithRestarts, JobNo, VersionNo, LineageNo, StrategyNo, StepCreate, Creatable, Completed, Suggested;
    var complete, suggest := Some(Complete(JobNo(1), "r", content)), Some(Suggest("r", "g", "t", "m"));
    RunAppends([], Some(a));
    RunAppends([] + [Some(a)], complete);
    RunAppends([] + [Some(a)] + [complete], suggest);
    RunAppends([] + [Some(a)] + [complete] + [suggest], None);
    RunAppends([] + [Some(a)] + [complete] + [suggest] + [None], Some(b));
    NoSteps();
    CreateAdds(Init(), a);
    var s := RunWithRestarts([] + [Some(a)] + [complete] + [suggest] + [None]);
    CreateAdds(s, b);
  }
}
