/** What the workflow read model says about the repository, over whole runs of the workflow service. */
module WorkflowRuns {
  import opened Options
  import opened WorkflowProjection
  import opened WorkflowService

  /** A lineage has one version only. */
  lemma VersionsOfALineage(s: State, id: string, id': string, lineage: string)
    requires VersionsAreNumbered(s)
    requires Refers(s.versions, id, lineage) && Refers(s.versions, id', lineage)
    ensures id == id'
  {
    hide StrategyNo, LineageNo, VersionNo;
    var n: nat :| NumberedVersion(s, id, n);
    var n': nat :| NumberedVersion(s, id', n');
    NumbersAreDistinct(n, n');
  }

  // ----- own events, by position -----

  ghost predicate Belongs(e: Event, lineage: string) {
    e.lineage == Some(lineage)
  }

  /** The own events are the events of the stream that belong. */
  lemma {:induction false} OwnMembers(events: seq<Event>, lineage: string)
    ensures forall k :: 0 <= k < |Own(events, lineage)| ==> Own(events, lineage)[k] in events && Belongs(Own(events, lineage)[k], lineage)
    ensures forall i :: 0 <= i < |events| && Belongs(events[i], lineage) ==> events[i] in Own(events, lineage)
  {
    if events != [] {
      var before, e := events[..|events| - 1], events[|events| - 1];
      OwnMembers(before, lineage);
      assert events == before + [e];
      var earlier := Own(before, lineage);
      assert forall x :: x in earlier ==> x in earlier + [e];
      assert e in earlier + [e] by { assert (earlier + [e])[|earlier|] == e; }
    }
  }

  /** The stream announces a completed result of the lineage. */
  ghost predicate Announced(s: State, lineage: string) {
    exists i :: 0 <= i < |s.events| && Belongs(s.events[i], lineage) && s.events[i].name == Completed()
  }

  ghost predicate ResultStored(s: State, lineage: string) {
    exists id :: id in s.results && s.results[id].lineageId == lineage
  }

  /** `lineage_status(lineage)["result_completed"]` of a read model that was fed the stream. */
  predicate ShowsCompleted(s: State, lineage: string) {
    var status := Find(Fold(s.events), lineage);
    status.Some? && status.value.completed
  }

  lemma ShowsCompletedIffAnnounced(s: State, lineage: string)
    ensures ShowsCompleted(s, lineage) <==> Announced(s, lineage)
  {
    hide Fold, Own, Completed, FieldsAreLast;
    StatusIsFoldOfOwnEvents(s.events, lineage);
    OwnMembers(s.events, lineage);
    var own := Own(s.events, lineage);
    if Announced(s, lineage) {
      var i :| 0 <= i < |s.events| && Belongs(s.events[i], lineage) && s.events[i].name == Completed();
      var k :| 0 <= k < |own| && own[k] == s.events[i];
    }
    if HasEvent(own, Completed()) {
      var k :| 0 <= k < |own| && own[k].name == Completed();
      var i :| 0 <= i < |s.events| && s.events[i] == own[k];
    }
  }

  // ----- the read model covers exactly the stored lineages -----

  ghost predicate VersionsAnnounced(s: State) {
    forall id :: id in s.versions ==> exists i :: 0 <= i < |s.events| && Belongs(s.events[i], s.versions[id].lineageId)
  }

  /** Events are only appended; only a creation adds a version, and it announces it. */
  lemma StepAppends(s: State, op: Op)
    ensures s.events <= Step(s, op).events
    ensures Step(s, op).versions == s.versions
         || (&& Step(s, op).versions.Keys == s.versions.Keys + {VersionNo(s.counter + 1)}
             && (forall id :: id in s.versions && id != VersionNo(s.counter + 1) ==> Step(s, op).versions[id] == s.versions[id])
             && |Step(s, op).events| == |s.events| + 1
             && Belongs(Step(s, op).events[|s.events|], Step(s, op).versions[VersionNo(s.counter + 1)].lineageId))
  {
    hide StrategyNo, LineageNo, VersionNo, JobNo, EnqueuedEvent, SuggestedEvent, CompletedEvent, Opt, SuggestionError, NewSuggestion;
  }

  lemma {:induction false} RunAnnouncesVersions(ops: seq<Op>)
    ensures VersionsAnnounced(Run(ops))
  {
    hide Step, VersionNo;
    if ops != [] {
      var s, op, s' := Run(ops[..|ops| - 1]), ops[|ops| - 1], Run(ops);
      RunAnnouncesVersions(ops[..|ops| - 1]);
      StepAppends(s, op);
      forall id | id in s'.versions ensures exists i :: 0 <= i < |s'.events| && Belongs(s'.events[i], s'.versions[id].lineageId) {
        if id in s.versions && s'.versions[id] == s.versions[id] {
          var i :| 0 <= i < |s.events| && Belongs(s.events[i], s.versions[id].lineageId);
          assert s'.events[i] == s.events[i];
        } else {
          assert Belongs(s'.events[|s.events|], s'.versions[id].lineageId);
        }
      }
    }
  }

  /** In every run the read model knows a lineage iff a version of it is stored, and then names that version. */
  lemma StatusNamesTheStoredVersion(ops: seq<Op>, lineage: string)
    ensures var s := Run(ops);
            var status := Find(Fold(s.events), lineage);
            && (status.Some? <==> exists id :: Refers(s.versions, id, lineage))
            && (status.Some? ==> StrategyVersionId in status.value.fields
                                 && Refers(s.versions, status.value.fields[StrategyVersionId], lineage))
  {
    hide Run, Fold, Own, Completed, Suggested, VersionsAreNumbered, JobsRefer, ResultsRefer, SuggestionsRefer, HasEvent;
    var s := Run(ops);
    RunKeepsIntegrity(ops);
    RunAnnouncesVersions(ops);
    StatusIsFoldOfOwnEvents(s.events, lineage);
    OwnMembers(s.events, lineage);
    var own := Own(s.events, lineage);
    assert forall k :: 0 <= k < |own| ==> EventRefers(s.versions, own[k]);
    if own != [] {
      var last := |own| - 1;
      assert LastSetBy(own, StrategyVersionId, last);
    }
    if id :| Refers(s.versions, id, lineage) {
      var i :| 0 <= i < |s.events| && Belongs(s.events[i], s.versions[id].lineageId);
      assert own != [];
    }
  }

  // ----- completed results -----

  ghost predicate Agrees(s: State) {
    forall lineage :: Announced(s, lineage) <==> ResultStored(s, lineage)
  }

  /** The result id is unused, or overwriting it leaves its old lineage with a result. */
  ghost predicate KeepsEveryLineage(s: State, op: Op)
    requires op.Complete?
  {
    Completes(s, op) && op.resultId in s.results ==>
      || s.results[op.resultId].lineageId == s.jobs[op.jobId].lineageId
      || HasOtherResult(s, op.resultId, s.results[op.resultId].lineageId)
  }

  ghost predicate HasOtherResult(s: State, resultId: string, lineage: string) {
    exists id :: id in s.results && id != resultId && s.results[id].lineageId == lineage
  }

  lemma CompleteAnnounces(s: State, op: Op, lineage: string)
    requires op.Complete?
    ensures Announced(Step(s, op), lineage) <==> Announced(s, lineage) || (Completes(s, op) && s.jobs[op.jobId].lineageId == lineage)
  {
    hide Completed;
    var s' := Step(s, op);
    if Announced(s, lineage) {
      var i :| 0 <= i < |s.events| && Belongs(s.events[i], lineage) && s.events[i].name == Completed();
      assert s'.events[i] == s.events[i];
    }
    if Completes(s, op) {
      assert s'.events[|s.events|] == CompletedEvent(NewResult(s, op));
    }
  }

  lemma CompleteStores(s: State, op: Op, lineage: string)
    requires op.Complete? && Completes(s, op)
    ensures ResultStored(Step(s, op), lineage) <==> s.jobs[op.jobId].lineageId == lineage || HasOtherResult(s, op.resultId, lineage)
  {
    hide Completed;
    var s' := Step(s, op);
    assert s'.results == s.results[op.resultId := NewResult(s, op)];
    assert op.resultId in s'.results;
    if id :| id in s.results && id != op.resultId && s.results[id].lineageId == lineage {
      assert s'.results[id] == s.results[id];
    }
  }

  /** Completing a result keeps the read model and the stored results in agreement iff no lineage loses its last result. */
  lemma AgreementKeptIff(s: State, op: Op)
    requires op.Complete? && Agrees(s)
    ensures Agrees(Step(s, op)) <==> KeepsEveryLineage(s, op)
  {
    hide Announced, ResultStored, Step, HasOtherResult;
    forall l ensures Announced(Step(s, op), l) <==> Announced(s, l) || (Completes(s, op) && s.jobs[op.jobId].lineageId == l) {
      CompleteAnnounces(s, op, l);
    }
    if Completes(s, op) {
      forall l ensures ResultStored(Step(s, op), l) <==> s.jobs[op.jobId].lineageId == l || HasOtherResult(s, op.resultId, l) {
        CompleteStores(s, op, l);
      }
      forall l ensures ResultStored(s, l) <==> HasOtherResult(s, op.resultId, l) || HasLineage(s, op.resultId, l) {
        StoredMeans(s, op.resultId, l);
      }
      if op.resultId in s.results {
        var l := s.results[op.resultId].lineageId;
        assert Announced(Step(s, op), l);
      }
    } else {
      RefusedCompletion(s, op);
    }
  }

  lemma RefusedCompletion(s: State, op: Op)
    requires op.Complete? && !Completes(s, op)
    ensures Step(s, op) == s
  {
  }

  predicate HasLineage(s: State, resultId: string, lineage: string) {
    resultId in s.results && s.results[resultId].lineageId == lineage
  }

  lemma StoredMeans(s: State, resultId: string, lineage: string)
    ensures ResultStored(s, lineage) <==> HasOtherResult(s, resultId, lineage) || HasLineage(s, resultId, lineage)
  {
  }

  lemma OthersAnnounceNothing(s: State, op: Op)
    requires !op.Complete?
    ensures Step(s, op).results == s.results
    ensures s.events <= Step(s, op).events
    ensures forall i :: |s.events| <= i < |Step(s, op).events| ==> Step(s, op).events[i].name != Completed()
  {
    hide StrategyNo, LineageNo, VersionNo, JobNo, Completed, Suggested, Opt;
    NamesDiffer();
  }

  /** Other operations neither announce nor store results. */
  lemma OthersKeepAgreement(s: State, op: Op)
    requires !op.Complete? && Agrees(s)
    ensures Agrees(Step(s, op))
  {
    hide Step, Completed;
    var s' := Step(s, op);
    OthersAnnounceNothing(s, op);
    forall l ensures Announced(s', l) <==> Announced(s, l) {
      if Announced(s, l) {
        var i :| 0 <= i < |s.events| && Belongs(s.events[i], l) && s.events[i].name == Completed();
        assert s'.events[i] == s.events[i];
      }
      if Announced(s', l) {
        var i :| 0 <= i < |s'.events| && Belongs(s'.events[i], l) && s'.events[i].name == Completed();
        assert s'.events[i] == s.events[i];
      }
    }
    assert forall l :: ResultStored(s', l) <==> ResultStored(s, l);
  }

  lemma NamesDiffer()
    ensures Completed() != Suggested() && Completed() != "strategy.versioned"
  {
    assert Completed()[0] == 'r' && Suggested()[0] == 's' && "strategy.versioned"[0] == 's';
  }

  /** In every run whose result ids are unused, or reused without harm, a lineage shows as completed iff a stored result has it. */
  lemma {:induction false} CompletedIffResultStored(ops: seq<Op>, lineage: string)
    requires forall i :: 0 <= i < |ops| && ops[i].Complete? ==> KeepsEveryLineage(Run(ops[..i]), ops[i])
    ensures ShowsCompleted(Run(ops), lineage) <==> ResultStored(Run(ops), lineage)
  {
    hide Run, Announced, ResultStored, KeepsEveryLineage, ShowsCompleted;
    RunAgrees(ops);
    ShowsCompletedIffAnnounced(Run(ops), lineage);
  }

  lemma {:induction false} RunAgrees(ops: seq<Op>)
    requires forall i :: 0 <= i < |ops| && ops[i].Complete? ==> KeepsEveryLineage(Run(ops[..i]), ops[i])
    ensures Agrees(Run(ops))
  {
    if ops != [] {
      hide Agrees, KeepsEveryLineage, Step;
      var before, op := ops[..|ops| - 1], ops[|ops| - 1];
      forall i | 0 <= i < |before| && before[i].Complete? ensures KeepsEveryLineage(Run(before[..i]), before[i]) {
        assert before[..i] == ops[..i];
      }
      RunAgrees(before);
      if op.Complete? {
        AgreementKeptIff(Run(before), op);
      } else {
        OthersKeepAgreement(Run(before), op);
      }
    }
  }

  /** Whatever the ids, a stored result always shows. */
  lemma {:induction false} StoredResultsShow(ops: seq<Op>, lineage: string)
    requires ResultStored(Run(ops), lineage)
    ensures ShowsCompleted(Run(ops), lineage)
  {
    hide ShowsCompleted;
    StoredIsAnnounced(ops, lineage);
    ShowsCompletedIffAnnounced(Run(ops), lineage);
  }

  lemma ResultsComeFromCompletions(s: State, op: Op)
    ensures forall id :: id in Step(s, op).results ==>
              || (id in s.results && Step(s, op).results[id] == s.results[id])
              || (op.Complete? && Completes(s, op) && Step(s, op).results[id].lineageId == s.jobs[op.jobId].lineageId)
  {
    hide StrategyNo, LineageNo, VersionNo, JobNo, Completed, Suggested, Opt;
  }

  lemma {:induction false} StoredIsAnnounced(ops: seq<Op>, lineage: string)
    requires ResultStored(Run(ops), lineage)
    ensures Announced(Run(ops), lineage)
  {
    hide Step, Completed;
    var before, op := ops[..|ops| - 1], ops[|ops| - 1];
    var s, s' := Run(before), Run(ops);
    StepAppends(s, op);
    ResultsComeFromCompletions(s, op);
    if ResultStored(s, lineage) {
      StoredIsAnnounced(before, lineage);
      var i :| 0 <= i < |s.events| && Belongs(s.events[i], lineage) && s.events[i].name == Completed();
      assert s'.events[i] == s.events[i];
    } else {
      var id :| id in s'.results && s'.results[id].lineageId == lineage;
      CompleteAnnounces(s, op, lineage);
    }
  }

  // ----- what the history says -----

  /** Operation i of the run was accepted and completed a test of this lineage under this result id. */
  ghost predicate Completion(ops: seq<Op>, i: int, resultId: string, lineage: string) {
    && 0 <= i < |ops| && ops[i].Complete? && ops[i].resultId == resultId
    && Completes(Run(ops[..i]), ops[i])
    && Run(ops[..i]).jobs[ops[i].jobId].lineageId == lineage
  }

  /** No completion after i used the result id for another lineage. */
  ghost predicate KeptAfter(ops: seq<Op>, i: int, resultId: string, lineage: string) {
    forall j, other :: i < j && Completion(ops, j, resultId, other) ==> other == lineage
  }

  ghost predicate LastCompletion(ops: seq<Op>, i: int, resultId: string, lineage: string) {
    Completion(ops, i, resultId, lineage) && forall j, other :: i < j ==> !Completion(ops, j, resultId, other)
  }

  lemma EarlierCompletion(ops: seq<Op>, i: int, resultId: string, lineage: string)
    requires ops != [] && i != |ops| - 1
    ensures Completion(ops, i, resultId, lineage) <==> Completion(ops[..|ops| - 1], i, resultId, lineage)
  {
    hide Run;
    var front := ops[..|ops| - 1];
    if 0 <= i < |front| {
      assert front[..i] == ops[..i];
    }
  }

  /** A lineage shows as completed iff some accepted completion of the run was for it. */
  lemma ShowsCompletedIffSomeCompletion(ops: seq<Op>, lineage: string)
    ensures ShowsCompleted(Run(ops), lineage) <==> exists i, resultId :: Completion(ops, i, resultId, lineage)
  {
    hide Run, ShowsCompleted, Completion, Announced;
    ShowsCompletedIffAnnounced(Run(ops), lineage);
    AnnouncedIffSomeCompletion(ops, lineage);
  }

  lemma {:induction false} AnnouncedIffSomeCompletion(ops: seq<Op>, lineage: string)
    ensures Announced(Run(ops), lineage) <==> exists i, resultId :: Completion(ops, i, resultId, lineage)
  {
    hide Step, Announced, Completes;
    if ops == [] {
      NothingAnnounced(lineage);
    } else {
      var front, last := ops[..|ops| - 1], ops[|ops| - 1];
      AnnouncedIffSomeCompletion(front, lineage);
      LastAnnounces(Run(front), last, lineage);
      forall i, r | i != |ops| - 1 ensures Completion(ops, i, r, lineage) <==> Completion(front, i, r, lineage) {
        EarlierCompletion(ops, i, r, lineage);
      }
      assert Announces(Run(front), last, lineage) <==> last.Complete? && Completion(ops, |ops| - 1, last.resultId, lineage);
      hide Completion;
      if Announces(Run(front), last, lineage) {
        assert Completion(ops, |ops| - 1, last.resultId, lineage);
      }
    }
  }

  ghost predicate Announces(s: State, op: Op, lineage: string) {
    op.Complete? && Completes(s, op) && s.jobs[op.jobId].lineageId == lineage
  }

  lemma NothingAnnounced(lineage: string)
    ensures !Announced(Init(), lineage)
  {
  }

  lemma LastAnnounces(s: State, op: Op, lineage: string)
    ensures Announced(Step(s, op), lineage) <==> Announced(s, lineage) || Announces(s, op, lineage)
  {
    hide Step, Completed, Completes;
    if op.Complete? {
      CompleteAnnounces(s, op, lineage);
    } else {
      OthersAnnounceNothing(s, op);
      var s' := Step(s, op);
      if Announced(s, lineage) {
        var i :| 0 <= i < |s.events| && Belongs(s.events[i], lineage) && s.events[i].name == Completed();
        assert s'.events[i] == s.events[i];
      }
      if Announced(s', lineage) {
        var i :| 0 <= i < |s'.events| && Belongs(s'.events[i], lineage) && s'.events[i].name == Completed();
        assert s'.events[i] == s.events[i];
      }
    }
  }

  /** What is stored under a result id is the result of the last completion that used it. */
  lemma {:induction false} StoredIsLastCompletion(ops: seq<Op>, resultId: string)
    ensures forall i, lineage :: LastCompletion(ops, i, resultId, lineage) ==> HasLineage(Run(ops), resultId, lineage)
    ensures resultId in Run(ops).results ==> exists i :: LastCompletion(ops, i, resultId, Run(ops).results[resultId].lineageId)
  {
    hide Step;
    if ops != [] {
      var front, last, n := ops[..|ops| - 1], ops[|ops| - 1], |ops| - 1;
      StoredIsLastCompletion(front, resultId);
      forall i, lineage | i != n ensures Completion(ops, i, resultId, lineage) <==> Completion(front, i, resultId, lineage) {
        EarlierCompletion(ops, i, resultId, lineage);
      }
      StoredStep(Run(front), last, resultId);
      if last.Complete? && last.resultId == resultId && Completes(Run(front), last) {
        assert LastCompletion(ops, n, resultId, Run(front).jobs[last.jobId].lineageId);
      } else {
        assert forall lineage :: !Completion(ops, n, resultId, lineage);
        hide Completion;
        assert forall i, lineage :: LastCompletion(ops, i, resultId, lineage) <==> LastCompletion(front, i, resultId, lineage);
      }
    }
  }

  lemma StoredStep(s: State, op: Op, resultId: string)
    ensures if op.Complete? && op.resultId == resultId && Completes(s, op)
            then HasLineage(Step(s, op), resultId, s.jobs[op.jobId].lineageId)
            else (resultId in Step(s, op).results <==> resultId in s.results)
                 && (resultId in s.results ==> Step(s, op).results[resultId] == s.results[resultId])
  {
    hide StrategyNo, LineageNo, VersionNo, JobNo, Completed, Suggested, Opt;
  }

  /** A stored result has the lineage iff some completion for it kept its result id from every other lineage. */
  lemma StoredIffSomeCompletionKept(ops: seq<Op>, lineage: string)
    ensures ResultStored(Run(ops), lineage) <==>
            exists i, resultId :: Completion(ops, i, resultId, lineage) && KeptAfter(ops, i, resultId, lineage)
  {
    hide Run, Completion;
    var s := Run(ops);
    if ResultStored(s, lineage) {
      var r :| r in s.results && s.results[r].lineageId == lineage;
      StoredIsLastCompletion(ops, r);
      var i :| LastCompletion(ops, i, r, lineage);
      assert KeptAfter(ops, i, r, lineage);
    }
    if i, r :| Completion(ops, i, r, lineage) && KeptAfter(ops, i, r, lineage) {
      StoredIsLastCompletion(ops, r);
      forall j, l | |ops| <= j ensures !Completion(ops, j, r, l) {
        CompletionFacts(ops, j, r, l, l);
      }
      CompletionFacts(ops, i, r, lineage, lineage);
      var last, other := SomeLastCompletion(ops, |ops|, i, r, lineage);
      CompletionFacts(ops, last, r, other, lineage);
      assert HasLineage(s, r, lineage);
    }
  }

  lemma CompletionFacts(ops: seq<Op>, i: int, resultId: string, lineage: string, other: string)
    ensures Completion(ops, i, resultId, lineage) ==> 0 <= i < |ops|
    ensures Completion(ops, i, resultId, lineage) && Completion(ops, i, resultId, other) ==> lineage == other
  {
    hide Run;
  }

  /** A result id that was used before n has a last use before n. */
  lemma {:induction false} SomeLastCompletion(ops: seq<Op>, n: nat, i: int, resultId: string, lineage: string) returns (last: int, other: string)
    requires 0 <= i && Completion(ops, i, resultId, lineage)
    requires forall j, l :: n <= j ==> !Completion(ops, j, resultId, l)
    ensures i <= last && LastCompletion(ops, last, resultId, other)
    decreases n
  {
    hide Completion;
    assert i < n;
    var m := n - 1;
    if l :| Completion(ops, m, resultId, l) {
      last, other := m, l;
    } else {
      last, other := SomeLastCompletion(ops, m, i, resultId, lineage);
    }
  }

  /** For every run: the read model and the store agree on a lineage iff it was never completed, or one of its completions
      kept its result id. */
  lemma AgreementIff(ops: seq<Op>, lineage: string)
    ensures (ShowsCompleted(Run(ops), lineage) <==> ResultStored(Run(ops), lineage)) <==>
            ((exists i, resultId :: Completion(ops, i, resultId, lineage)) ==>
             exists i, resultId :: Completion(ops, i, resultId, lineage) && KeptAfter(ops, i, resultId, lineage))
  {
    hide Run, ShowsCompleted, ResultStored, Completion, KeptAfter;
    ShowsCompletedIffSomeCompletion(ops, lineage);
    StoredIffSomeCompletionKept(ops, lineage);
  }

  /** Two tests completed under one result id: the first lineage still shows as completed, but its result is gone. */
  lemma ReusedResultIdLosesAResult(create: Op, content: string)
    requires create.Create? && Creatable(create)
    ensures var s := Run([create, create, Complete(JobNo(1), "r", content), Complete(JobNo(2), "r", content)]);
            ShowsCompleted(s, LineageNo(1)) && !ResultStored(s, LineageNo(1)) && ResultStored(s, LineageNo(2))
  {
    hide ShowsCompleted, StrategyNo, LineageNo, VersionNo, JobNo, VersionedEvent, EnqueuedEvent, Creatable, Step, Announced;
    var first, second := Complete(JobNo(1), "r", content), Complete(JobNo(2), "r", content);
    var s2 := Step(Step(Init(), create), create);
    var s3 := Step(s2, first);
    var s4 := Step(s3, second);
    var ops := [create, create, first, second];
    assert ops[..3] == [create, create, first] && ops[..3][..2] == [create, create] && [create, create][..1] == [create];
    assert Run([]) == Init();
    UnfoldRun([create]);
    UnfoldRun([create, create]);
    UnfoldRun([create, create, first]);
    UnfoldRun(ops);
    NumbersAreDistinct(1, 2);
    TwoJobs(create);
    CompletionResult(s2, first);
    CompletionResult(s3, second);
    assert "r" in s4.results;
    CompleteAnnounces(s2, first, LineageNo(1));
    CompleteAnnounces(s3, second, LineageNo(1));
    ShowsCompletedIffAnnounced(s4, LineageNo(1));
  }

  lemma UnfoldRun(ops: seq<Op>)
    requires ops != []
    ensures Run(ops) == Step(Run(ops[..|ops| - 1]), ops[|ops| - 1])
  {
  }

  lemma TwoJobs(create: Op)
    requires create.Create? && Creatable(create)
    ensures var s := Step(Step(Init(), create), create);
            && s.results == map[]
            && JobNo(1) in s.jobs && s.jobs[JobNo(1)].lineageId == LineageNo(1)
            && JobNo(2) in s.jobs && s.jobs[JobNo(2)].lineageId == LineageNo(2)
  {
    hide StrategyNo, LineageNo, VersionNo, JobNo, VersionedEvent, EnqueuedEvent, Creatable;
    NumbersAreDistinct(1, 2);
  }

  lemma CompletionResult(s: State, op: Op)
    requires op.Complete? && Completes(s, op)
    ensures Step(s, op).jobs == s.jobs && Step(s, op).results == s.results[op.resultId := NewResult(s, op)]
  {
  }
}
