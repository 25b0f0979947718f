/** The in-memory strategy repository: numbered strategies, each with its list of versions. */
module StrategyRepository {
  import opened Options
  import opened Dicts
  import opened Identifiers

  datatype Stage = DraftStage | TestingStage | BetaStage | FinalStage
  datatype Status = Draft | Validated | Backtested | Approved | ExecutionReady
  datatype CreatedFrom = User | AiBuilder | Imported
  datatype Provenance = Provenance(createdBy: CreatedFrom, parentVersionId: Option<string>)

  /** The fields the repository reads or rewrites; `content` stands for all others. */
  datatype Spec = Spec(stage: Stage, status: Status, isFrozen: bool, provenance: Provenance, content: string)

  datatype Context = Context(userId: string, projectId: string)

  datatype Record = Record(
    strategyId: string, lineageId: string, versionId: string, status: Status, spec: Spec, scope: Option<Context>)

  datatype Outcome = Recorded(record: Record) | NoRecord | OutOfScope

  datatype Store = Store(records: Dict<string, seq<Spec>>, scopes: map<string, Context>)

  function VersionSeparator(): (s: string)
    ensures EndsInNonDigit(s)
  {
    "_v"
  }

  function StrategyPrefix(): (s: string)
    ensures EndsInNonDigit(s)
  {
    "strategy_"
  }

  function VersionId(strategyId: string, index: nat): string {
    Numbered(strategyId, VersionSeparator(), index, 3)
  }

  function LineageId(strategyId: string): string {
    "lineage_" + strategyId
  }

  /** The n-th id that `save` can choose. */
  function GeneratedId(n: nat): string {
    Numbered("", StrategyPrefix(), n, 3)
  }

  // ----- the operations on values -----

  predicate ScopeMatches(s: Store, id: string, context: Option<Context>) {
    context.None? || (id in s.scopes && s.scopes[id] == context.value)
  }

  function RecordOf(s: Store, id: string, spec: Spec, index: nat): Record {
    Record(id, LineageId(id), VersionId(id, index), spec.status, spec, if id in s.scopes then Some(s.scopes[id]) else None)
  }

  function Versions(s: Store, id: string): seq<Spec> {
    if id in s.records.entries then s.records.entries[id] else []
  }

  function WithVersions(s: Store, id: string, versions: seq<Spec>, context: Option<Context>): Store {
    Store(s.records.Put(id, versions), if context.Some? then s.scopes[id := context.value] else s.scopes)
  }

  /** The id `save` takes: the number of strategies plus one. */
  function SaveId(s: Store): string {
    GeneratedId(|s.records.keys| + 1)
  }

  function Save(s: Store, spec: Spec, context: Option<Context>): (Store, Outcome) {
    var id := SaveId(s);
    var s' := WithVersions(s, id, Versions(s, id) + [spec], context);
    (s', Recorded(RecordOf(s', id, spec, 1)))
  }

  function ReplaceLast(versions: seq<Spec>, spec: Spec): seq<Spec> {
    if versions == [] then [spec] else versions[..|versions| - 1] + [spec]
  }

  function Promoted(status: Status): Option<Status> {
    match status
    case Backtested => Some(Approved)
    case Approved => Some(ExecutionReady)
    case _ => None
  }

  function Cloned(spec: Spec, id: string): Spec {
    spec.(status := Draft, stage := DraftStage, isFrozen := false, provenance := Provenance(User, Some(id)))
  }

  datatype Op =
    | SaveNew(spec: Spec, context: Option<Context>)
    | SaveExplicit(id: string, spec: Spec, context: Option<Context>)
    | UpdateDraft(id: string, spec: Spec, context: Option<Context>)
    | CreateVersion(id: string, spec: Spec, context: Option<Context>)
    | UpdateStatus(id: string, status: Status, context: Option<Context>)
    | Approve(id: string, context: Option<Context>)
    | Clone(id: string, context: Option<Context>)

  /** The strategy exists and is in scope. */
  predicate Reachable(s: Store, id: string, context: Option<Context>) {
    id in s.records.entries && ScopeMatches(s, id, context)
  }

  function Refusal(s: Store, id: string, context: Option<Context>): Outcome {
    if id in s.records.entries && !ScopeMatches(s, id, context) then OutOfScope else NoRecord
  }

  function Rewritten(s: Store, id: string, versions: seq<Spec>, spec: Spec): (Store, Outcome) {
    var s' := WithVersions(s, id, versions, None);
    (s', Recorded(RecordOf(s', id, spec, |versions|)))
  }

  function Step(s: Store, op: Op): (Store, Outcome) {
    match op
    case SaveNew(spec, context) => Save(s, spec, context)
    case SaveExplicit(id, spec, context) =>
      var s' := WithVersions(s, id, Versions(s, id) + [spec], context);
      (s', Recorded(RecordOf(s', id, spec, |Versions(s', id)|)))
    case UpdateDraft(id, spec, context) =>
      if !Reachable(s, id, context) then (s, Refusal(s, id, context))
      else Rewritten(s, id, ReplaceLast(Versions(s, id), spec), spec)
    case CreateVersion(id, spec, context) =>
      if !Reachable(s, id, context) then (s, Refusal(s, id, context))
      else Rewritten(s, id, Versions(s, id) + [spec], spec)
    case UpdateStatus(id, status, context) =>
      var versions := Versions(s, id);
      if versions == [] then (s, NoRecord)
      else if !Reachable(s, id, context) then (s, OutOfScope)
      else
        var spec := versions[|versions| - 1].(status := status);
        Rewritten(s, id, ReplaceLast(versions, spec), spec)
    case Approve(id, context) =>
      var versions := Versions(s, id);
      if versions == [] then (s, NoRecord)
      else if !Reachable(s, id, context) then (s, OutOfScope)
      else
        var latest := versions[|versions| - 1];
        if Promoted(latest.status).None? then (s, NoRecord)
        else
          var spec := latest.(status := Promoted(latest.status).value);
          Rewritten(s, id, ReplaceLast(versions, spec), spec)
    case Clone(id, context) =>
      var versions := Versions(s, id);
      if versions == [] then (s, NoRecord)
      else if !Reachable(s, id, context) then (s, OutOfScope)
      else Save(s, Cloned(versions[|versions| - 1], id), context)
  }

  function Init(): Store {
    Store(Empty(), map[])
  }

  function Run(ops: seq<Op>): Store {
    if ops == [] then Init() else Step(Run(ops[..|ops| - 1]), ops[|ops| - 1]).0
  }

  // ----- version ids name versions -----

  /** The version id is the one of the k-th version of a strategy in scope. */
  ghost predicate Names(s: Store, context: Option<Context>, versionId: string, id: string, k: nat) {
    && Reachable(s, id, context)
    && 1 <= k <= |s.records.entries[id]|
    && VersionId(id, k) == versionId
  }

  /** What looking a version id up should give: the version it names, or nothing. */
  ghost predicate Resolves(s: Store, context: Option<Context>, versionId: string, r: Option<Spec>) {
    && (forall id, k :: Names(s, context, versionId, id, k) ==> r == Some(s.records.entries[id][k - 1]))
    && (r.Some? ==> exists id, k :: Names(s, context, versionId, id, k))
  }

  /** No version id names two versions. */
  lemma VersionIdsAreUnambiguous(s: Store, context: Option<Context>, versionId: string, id: string, k: nat, id': string, k': nat)
    requires Names(s, context, versionId, id, k) && Names(s, context, versionId, id', k')
    ensures id == id' && k == k'
  {
    hide Numbered;
    NumberedInjective(id, k, id', k', VersionSeparator(), 3);
  }

  lemma NamedResolves(s: Store, context: Option<Context>, id: string, k: nat)
    requires Reachable(s, id, context) && 1 <= k <= |Versions(s, id)|
    ensures Resolves(s, context, VersionId(id, k), Some(Versions(s, id)[k - 1]))
  {
    hide VersionId;
    var vid := VersionId(id, k);
    assert Names(s, context, vid, id, k);
    forall id', k' | Names(s, context, vid, id', k') ensures id' == id && k' == k {
      VersionIdsAreUnambiguous(s, context, vid, id, k, id', k');
    }
  }

  // ----- what every run keeps -----

  ghost predicate WellFormed(s: Store) {
    && s.records.Valid()
    && (forall id :: id in s.records.entries ==> s.records.entries[id] != [])
  }

  /** Strategies stay, and no version but the latest ever changes. */
  ghost predicate Continues(s: Store, s': Store) {
    forall id :: id in s.records.entries ==>
      && id in s'.records.entries
      && |s.records.entries[id]| <= |s'.records.entries[id]|
      && (forall k :: 0 <= k < |s.records.entries[id]| - 1 ==> s'.records.entries[id][k] == s.records.entries[id][k])
  }

  lemma ContinuesItself(s: Store)
    ensures Continues(s, s)
  {
  }

  lemma WithVersionsContinues(s: Store, id: string, versions: seq<Spec>, context: Option<Context>)
    requires WellFormed(s) && versions != []
    requires |Versions(s, id)| <= |versions|
    requires forall k :: 0 <= k < |Versions(s, id)| - 1 ==> versions[k] == Versions(s, id)[k]
    ensures WellFormed(WithVersions(s, id, versions, context))
    ensures Continues(s, WithVersions(s, id, versions, context))
  {
  }

  lemma StepContinues(s: Store, op: Op)
    requires WellFormed(s)
    ensures WellFormed(Step(s, op).0) && Continues(s, Step(s, op).0)
  {
    hide WellFormed, Continues, WithVersions, VersionId, GeneratedId;
    ContinuesItself(s);
    match op
    case SaveNew(spec, context) =>
      WithVersionsContinues(s, SaveId(s), Versions(s, SaveId(s)) + [spec], context);
    case SaveExplicit(id, spec, context) =>
      WithVersionsContinues(s, id, Versions(s, id) + [spec], context);
    case UpdateDraft(id, spec, context) =>
      WithVersionsContinues(s, id, ReplaceLast(Versions(s, id), spec), None);
    case CreateVersion(id, spec, context) =>
      WithVersionsContinues(s, id, Versions(s, id) + [spec], None);
    case UpdateStatus(id, status, context) =>
      var versions := Versions(s, id);
      if versions != [] {
        WithVersionsContinues(s, id, ReplaceLast(versions, versions[|versions| - 1].(status := status)), None);
      }
    case Approve(id, context) =>
      var versions := Versions(s, id);
      if versions != [] && Promoted(versions[|versions| - 1].status).Some? {
        var spec := versions[|versions| - 1].(status := Promoted(versions[|versions| - 1].status).value);
        WithVersionsContinues(s, id, ReplaceLast(versions, spec), None);
      }
    case Clone(id, context) =>
      var versions := Versions(s, id);
      if versions != [] {
        var spec := Cloned(versions[|versions| - 1], id);
        WithVersionsContinues(s, SaveId(s), Versions(s, SaveId(s)) + [spec], context);
      }
  }

  lemma {:induction false} RunIsWellFormed(ops: seq<Op>)
    ensures WellFormed(Run(ops))
  {
    if ops != [] {
      RunIsWellFormed(ops[..|ops| - 1]);
      StepContinues(Run(ops[..|ops| - 1]), ops[|ops| - 1]);
    }
  }

  lemma {:induction false} RunContinues(ops: seq<Op>, later: seq<Op>)
    ensures Continues(Run(ops), Run(ops + later))
    decreases |later|
  {
    hide WellFormed, Step;
    if later == [] {
      assert ops + later == ops;
    } else {
      var all, front := ops + later, later[..|later| - 1];
      RunContinues(ops, front);
      assert all[..|all| - 1] == ops + front && all[|all| - 1] == later[|later| - 1];
      RunIsWellFormed(ops + front);
      StepContinues(Run(ops + front), later[|later| - 1]);
    }
  }

  /** Once a version has a successor, its id names the same spec for ever. */
  lemma EarlierVersionsAreFixed(ops: seq<Op>, later: seq<Op>, id: string, k: nat)
    requires 1 <= k < |Versions(Run(ops), id)|
    ensures Resolves(Run(ops + later), None, VersionId(id, k), Some(Versions(Run(ops), id)[k - 1]))
  {
    hide Run, VersionId, Resolves;
    RunContinues(ops, later);
    NamedResolves(Run(ops + later), None, id, k);
  }

  // ----- the id that save takes -----

  /** The run saved something explicitly under this id. */
  ghost predicate SavedExplicitly(ops: seq<Op>, id: string) {
    exists i :: 0 <= i < |ops| && ops[i].SaveExplicit? && ops[i].id == id
  }

  lemma GeneratedInjective(n: nat, n': nat)
    ensures GeneratedId(n) == GeneratedId(n') <==> n == n'
  {
    hide Numbered;
    NumberedInjective("", n, "", n', StrategyPrefix(), 3);
  }

  /** A step adds at most one strategy: the id named by save_explicit, or the one that save takes. */
  lemma StepKeys(s: Store, op: Op)
    requires WellFormed(s)
    ensures |Step(s, op).0.records.keys| >= |s.records.keys|
    ensures op.SaveExplicit? ==> Step(s, op).0.records.entries.Keys == s.records.entries.Keys + {op.id}
    ensures !op.SaveExplicit? ==>
              || Step(s, op).0.records.entries.Keys == s.records.entries.Keys
              || (&& Step(s, op).0.records.entries.Keys == s.records.entries.Keys + {SaveId(s)}
                  && (SaveId(s) in s.records.entries || |Step(s, op).0.records.keys| == |s.records.keys| + 1))
  {
    hide WellFormed, GeneratedId, VersionId, RecordOf;
    assert forall id :: Versions(s, id) != [] ==> id in s.records.entries;
  }

  /** A generated number beyond the count of strategies was put there by save_explicit. */
  ghost predicate BeyondIsExplicit(ops: seq<Op>) {
    forall n: nat :: GeneratedId(n) in Run(ops).records.entries && n > |Run(ops).records.keys| ==> SavedExplicitly(ops, GeneratedId(n))
  }

  lemma {:induction false} RunBeyondIsExplicit(ops: seq<Op>)
    ensures BeyondIsExplicit(ops)
  {
    if ops != [] {
      hide Step, GeneratedId;
      var before, op := ops[..|ops| - 1], ops[|ops| - 1];
      var s := Run(before);
      RunBeyondIsExplicit(before);
      RunIsWellFormed(before);
      StepKeys(s, op);
      forall n: nat | GeneratedId(n) in Run(ops).records.entries && n > |Run(ops).records.keys|
        ensures SavedExplicitly(ops, GeneratedId(n))
      {
        GeneratedInjective(n, |s.records.keys| + 1);
        if op.SaveExplicit? && op.id == GeneratedId(n) {
          assert ops[|ops| - 1].id == GeneratedId(n);
        } else {
          var i :| 0 <= i < |before| && before[i].SaveExplicit? && before[i].id == GeneratedId(n);
          assert ops[i] == before[i];
        }
      }
    }
  }

  lemma {:induction false} ExplicitIdsAreStored(ops: seq<Op>, id: string)
    requires SavedExplicitly(ops, id)
    ensures id in Run(ops).records.entries
  {
    hide Step;
    var before, op := ops[..|ops| - 1], ops[|ops| - 1];
    RunIsWellFormed(before);
    StepKeys(Run(before), op);
    if !(op.SaveExplicit? && op.id == id) {
      var i :| 0 <= i < |ops| && ops[i].SaveExplicit? && ops[i].id == id;
      assert before[i] == ops[i];
      ExplicitIdsAreStored(before, id);
    }
  }

  /** After any run, the id that save is about to take is taken already iff the run saved explicitly under exactly that id. */
  lemma SaveIsFreshIffNotSavedExplicitly(ops: seq<Op>)
    ensures SaveId(Run(ops)) !in Run(ops).records.entries <==> !SavedExplicitly(ops, SaveId(Run(ops)))
  {
    hide Run, GeneratedId;
    RunBeyondIsExplicit(ops);
    if SavedExplicitly(ops, SaveId(Run(ops))) {
      ExplicitIdsAreStored(ops, SaveId(Run(ops)));
    }
  }

  /** In particular, when explicit ids avoid the generated form, save always takes a fresh id. */
  lemma SaveIsFresh(ops: seq<Op>)
    requires forall i, n: nat :: 0 <= i < |ops| && ops[i].SaveExplicit? ==> ops[i].id != GeneratedId(n)
    ensures SaveId(Run(ops)) !in Run(ops).records.entries
  {
    hide Run, GeneratedId;
    SaveIsFreshIffNotSavedExplicitly(ops);
  }

  // ----- the record an operation returns -----

  predicate TakesSaveId(op: Op) {
    op.SaveNew? || op.Clone?
  }

  lemma RewrittenResolves(s: Store, id: string, versions: seq<Spec>, spec: Spec, context: Option<Context>, given: Option<Context>)
    requires versions != [] && versions[|versions| - 1] == spec
    requires ScopeMatches(WithVersions(s, id, versions, given), id, context)
    ensures Resolves(WithVersions(s, id, versions, given), context, VersionId(id, |versions|), Some(spec))
  {
    hide VersionId, Resolves;
    NamedResolves(WithVersions(s, id, versions, given), context, id, |versions|);
  }

  /** What save returns names the spec it saved iff its id was free, or the strategy there begins with the same spec. */
  lemma SaveReport(s: Store, spec: Spec, context: Option<Context>)
    requires WellFormed(s)
    ensures Save(s, spec, context).1.Recorded?
    ensures Resolves(Save(s, spec, context).0, context, Save(s, spec, context).1.record.versionId, Some(spec))
       <==> SaveId(s) !in s.records.entries || s.records.entries[SaveId(s)][0] == spec
  {
    hide VersionId, GeneratedId, Resolves;
    var id, s' := SaveId(s), Save(s, spec, context).0;
    NamedResolves(s', context, id, 1);
    OneResult(s', context, VersionId(id, 1), Some(spec), Some(Versions(s', id)[0]));
  }

  lemma OneResult(s: Store, context: Option<Context>, versionId: string, r: Option<Spec>, r': Option<Spec>)
    requires Resolves(s, context, versionId, r')
    ensures Resolves(s, context, versionId, r) <==> r == r'
  {
    hide Names;
    if r'.Some? {
      var id, k :| Names(s, context, versionId, id, k);
    }
  }

  /** Every record returned names the spec it carries, unless save or clone hit a taken id. */
  lemma ReportsResolve(s: Store, op: Op)
    requires WellFormed(s) && Step(s, op).1.Recorded?
    requires TakesSaveId(op) ==> SaveId(s) !in s.records.entries
    ensures Resolves(Step(s, op).0, op.context, Step(s, op).1.record.versionId, Some(Step(s, op).1.record.spec))
  {
    hide VersionId, GeneratedId, Resolves, WellFormed;
    match op
    case SaveNew(spec, context) =>
      SaveReport(s, spec, context);
    case SaveExplicit(id, spec, context) =>
      RewrittenResolves(s, id, Versions(s, id) + [spec], spec, context, context);
    case UpdateDraft(id, spec, context) =>
      RewrittenResolves(s, id, ReplaceLast(Versions(s, id), spec), spec, context, None);
    case CreateVersion(id, spec, context) =>
      RewrittenResolves(s, id, Versions(s, id) + [spec], spec, context, None);
    case UpdateStatus(id, status, context) =>
      var versions := Versions(s, id);
      var spec := versions[|versions| - 1].(status := status);
      RewrittenResolves(s, id, ReplaceLast(versions, spec), spec, context, None);
    case Approve(id, context) =>
      var versions := Versions(s, id);
      var spec := versions[|versions| - 1].(status := Promoted(versions[|versions| - 1].status).value);
      RewrittenResolves(s, id, ReplaceLast(versions, spec), spec, context, None);
    case Clone(id, context) =>
      var versions := Versions(s, id);
      SaveReport(s, Cloned(versions[|versions| - 1], id), context);
  }

  /** After `save_explicit("strategy_002", a)`, save(b) lands on the same strategy and returns the version id of a. */
  lemma SaveCollides(a: Spec, b: Spec)
    requires a != b
    ensures var s := Run([SaveExplicit(GeneratedId(2), a, None)]);
            var (s', outcome) := Save(s, b, None);
            && outcome.record.spec == b
            && Resolves(s', None, outcome.record.versionId, Some(a))
            && !Resolves(s', None, outcome.record.versionId, Some(b))
            && |s'.records.keys| == 1
  {
    hide GeneratedId, VersionId, Resolves;
    var op := SaveExplicit(GeneratedId(2), a, None);
    var ops := [op];
    assert ops[..|ops| - 1] == [] && Run([]) == Init();
    var s := Run(ops);
    var s' := Save(s, b, None).0;
    NamedResolves(s', None, GeneratedId(2), 1);
    SaveReport(s, b, None);
  }

  // ----- what each operation does, field by field -----

  /** The record names its strategy and carries its spec and its scope. */
  predicate Describes(s: Store, r: Record, id: string, spec: Spec) {
    && r.strategyId == id && r.lineageId == "lineage_" + id && r.spec == spec && r.status == spec.status
    && r.scope == if id in s.scopes then Some(s.scopes[id]) else None
  }

  /** Only this strategy's versions differ, and the scopes unless a context comes with a save. */
  ghost predicate OnlyVersionsOf(s: Store, s': Store, id: string, versions: seq<Spec>) {
    && id in s'.records.entries && s'.records.entries[id] == versions
    && s'.records.entries.Keys == s.records.entries.Keys + {id}
    && forall other :: other in s.records.entries && other != id ==> s'.records.entries[other] == s.records.entries[other]
  }

  predicate CanReach(s: Store, id: string, context: Option<Context>) {
    id in s.records.entries && (context.None? || (id in s.scopes && s.scopes[id] == context.value))
  }

  /** A save appends to the strategy numbered one beyond the count; an explicit save to the strategy it names.  Both set the scope when
      a context is given. */
  lemma SavesAppend(s: Store, id: string, spec: Spec, context: Option<Context>)
    ensures var (s', outcome) := Step(s, SaveNew(spec, context));
            var next := GeneratedId(|s.records.keys| + 1);
            && outcome.Recorded? && Describes(s', outcome.record, next, spec) && outcome.record.versionId == VersionId(next, 1)
            && OnlyVersionsOf(s, s', next, (if next in s.records.entries then s.records.entries[next] else []) + [spec])
            && s'.scopes == if context.Some? then s.scopes[next := context.value] else s.scopes
    ensures var (s', outcome) := Step(s, SaveExplicit(id, spec, context));
            && outcome.Recorded? && Describes(s', outcome.record, id, spec)
            && OnlyVersionsOf(s, s', id, (if id in s.records.entries then s.records.entries[id] else []) + [spec])
            && outcome.record.versionId == VersionId(id, |s'.records.entries[id]|)
            && s'.scopes == if context.Some? then s.scopes[id := context.value] else s.scopes
  {
    hide GeneratedId, VersionId;
  }

  /** A draft update replaces the latest version, a new version is appended, and neither touches scopes; an unknown strategy gives no
      record and one of another scope is refused, with nothing changed. */
  lemma UpdatesReplaceOrAppend(s: Store, id: string, spec: Spec, context: Option<Context>)
    requires WellFormed(s)
    ensures var (s', outcome) := Step(s, UpdateDraft(id, spec, context));
            if !CanReach(s, id, context) then s' == s && outcome == (if id in s.records.entries then OutOfScope else NoRecord)
            else
              var was := s.records.entries[id];
              && outcome.Recorded? && Describes(s', outcome.record, id, spec) && outcome.record.versionId == VersionId(id, |was|)
              && OnlyVersionsOf(s, s', id, was[|was| - 1 := spec]) && s'.scopes == s.scopes
    ensures var (s', outcome) := Step(s, CreateVersion(id, spec, context));
            if !CanReach(s, id, context) then s' == s && outcome == (if id in s.records.entries then OutOfScope else NoRecord)
            else
              var was := s.records.entries[id];
              && outcome.Recorded? && Describes(s', outcome.record, id, spec) && outcome.record.versionId == VersionId(id, |was| + 1)
              && OnlyVersionsOf(s, s', id, was + [spec]) && s'.scopes == s.scopes
  {
    hide VersionId;
  }

  /** Approving moves a backtested strategy to approved and an approved one to execution-ready, in its latest version only. */
  lemma ApprovalMovesOneStage(s: Store, id: string, context: Option<Context>)
    requires WellFormed(s)
    ensures var (s', outcome) := Step(s, Approve(id, context));
            if !CanReach(s, id, context) then s' == s && outcome == (if id in s.records.entries then OutOfScope else NoRecord)
            else
              var was := s.records.entries[id];
              var latest := was[|was| - 1];
              if latest.status.Backtested? || latest.status.Approved? then
                var spec := latest.(status := if latest.status.Backtested? then Approved else ExecutionReady);
                outcome.Recorded? && Describes(s', outcome.record, id, spec) && OnlyVersionsOf(s, s', id, was[|was| - 1 := spec]) && s'.scopes == s.scopes
              else s' == s && outcome == NoRecord
  {
    hide VersionId;
  }

  /** Setting a status does so in the latest version only. */
  lemma StatusIsSet(s: Store, id: string, status: Status, context: Option<Context>)
    requires WellFormed(s)
    ensures var (s', outcome) := Step(s, UpdateStatus(id, status, context));
            if !CanReach(s, id, context) then s' == s && outcome == (if id in s.records.entries then OutOfScope else NoRecord)
            else
              var was := s.records.entries[id];
              var spec := was[|was| - 1].(status := status);
              outcome.Recorded? && Describes(s', outcome.record, id, spec) && OnlyVersionsOf(s, s', id, was[|was| - 1 := spec]) && s'.scopes == s.scopes
  {
    hide VersionId;
  }

  /** A clone is a draft of the latest version's content that nobody has frozen, made by the user, which names the strategy it came from. */
  lemma ClonesAreDrafts(s: Store, id: string, context: Option<Context>)
    requires WellFormed(s)
    ensures var (s', outcome) := Step(s, Clone(id, context));
            if !CanReach(s, id, context) then s' == s && outcome == (if id in s.records.entries then OutOfScope else NoRecord)
            else
              var latest := s.records.entries[id][|s.records.entries[id]| - 1];
              && outcome.Recorded? && outcome.record.strategyId == GeneratedId(|s.records.keys| + 1)
              && outcome.record.spec.content == latest.content && outcome.record.spec.status.Draft? && outcome.record.spec.stage.DraftStage?
              && !outcome.record.spec.isFrozen && outcome.record.spec.provenance.createdBy.User?
              && outcome.record.spec.provenance.parentVersionId == Some(id)
              && (s', outcome) == Step(s, SaveNew(outcome.record.spec, context))
  {
    hide VersionId, GeneratedId, WithVersions;
  }

  /** The ids in full. */
  lemma IdsInFull(id: string, n: nat)
    ensures VersionId(id, n) == id + "_v" + Padded(n, 3) && GeneratedId(n) == "strategy_" + Padded(n, 3)
    ensures GeneratedId(1) == "strategy_001"
  {
    hide Padded;
    PaddedOne();
    assert "" + "strategy_" == "strategy_";
  }

  lemma PaddedOne()
    ensures Padded(1, 3) == "001"
  {
    assert Decimal(1) == "1";
  }

  // ----- the repository object -----

  class InMemoryStrategyRepository {
    var records: Dict<string, seq<Spec>>
    var scopes: map<string, Context>

    ghost predicate Valid()
      reads this
    {
      WellFormed(State())
    }

    ghost function State(): Store
      reads this
    {
      Store(records, scopes)
    }

    constructor ()
      ensures Valid() && State() == Init()
    {
      records, scopes := Empty(), map[];
    }

    predicate Matches(id: string, context: Option<Context>)
      reads this
    {
      context.None? || (id in scopes && scopes[id] == context.value)
    }

    function MakeRecord(id: string, spec: Spec, index: nat): (r: Record)
      reads this
      ensures r == RecordOf(State(), id, spec, index)
    {
      Record(id, LineageId(id), VersionId(id, index), spec.status, spec, if id in scopes then Some(scopes[id]) else None)
    }

    /** `setdefault(id, []).append(spec)`, then the scope */
    method Append(id: string, spec: Spec, context: Option<Context>)
      requires Valid()
      modifies this
      ensures State() == WithVersions(old(State()), id, Versions(old(State()), id) + [spec], context)
    {
      var versions := if id in records.entries then records.entries[id] else [];
      records := records.Put(id, versions + [spec]);
      if context.Some? {
        scopes := scopes[id := context.value];
      }
    }

    method SaveSpec(spec: Spec, context: Option<Context>) returns (r: Record)
      requires Valid()
      modifies this
      ensures Valid() && (State(), Recorded(r)) == Step(old(State()), SaveNew(spec, context))
      ensures SaveId(old(State())) !in old(records).entries ==> Resolves(State(), context, r.versionId, Some(spec))
    {
      hide Resolves, WellFormed, GeneratedId, VersionId;
      ghost var s := State();
      StepContinues(s, SaveNew(spec, context));
      SaveReport(s, spec, context);
      var id := GeneratedId(|records.keys| + 1);
      Append(id, spec, context);
      r := MakeRecord(id, spec, 1);
    }

    method SaveExplicitly(id: string, spec: Spec, context: Option<Context>) returns (r: Record)
      requires Valid()
      modifies this
      ensures Valid() && (State(), Recorded(r)) == Step(old(State()), SaveExplicit(id, spec, context))
      ensures Resolves(State(), context, r.versionId, Some(spec))
    {
      hide Resolves, WellFormed, VersionId;
      ghost var s := State();
      StepContinues(s, SaveExplicit(id, spec, context));
      ReportsResolve(s, SaveExplicit(id, spec, context));
      Append(id, spec, context);
      r := MakeRecord(id, spec, |records.entries[id]|);
    }

    method UpdateDraftSpec(id: string, spec: Spec, context: Option<Context>) returns (r: Outcome)
      requires Valid()
      modifies this
      ensures Valid() && (State(), r) == Step(old(State()), UpdateDraft(id, spec, context))
      ensures r.Recorded? ==> Resolves(State(), context, r.record.versionId, Some(spec))
    {
      hide Resolves, WellFormed, VersionId;
      ghost var s := State();
      StepContinues(s, UpdateDraft(id, spec, context));
      if Step(s, UpdateDraft(id, spec, context)).1.Recorded? {
        ReportsResolve(s, UpdateDraft(id, spec, context));
      }
      if id !in records.entries {
        return NoRecord;
      }
      if !Matches(id, context) {
        return OutOfScope;
      }
      var versions := records.entries[id];
      versions := if versions == [] then versions + [spec] else versions[|versions| - 1 := spec];
      assert versions == ReplaceLast(records.entries[id], spec);
      records := records.Put(id, versions);
      r := Recorded(MakeRecord(id, spec, |versions|));
    }

    method CreateVersionOf(id: string, spec: Spec, context: Option<Context>) returns (r: Outcome)
      requires Valid()
      modifies this
      ensures Valid() && (State(), r) == Step(old(State()), CreateVersion(id, spec, context))
      ensures r.Recorded? ==> Resolves(State(), context, r.record.versionId, Some(spec))
    {
      hide Resolves, WellFormed, VersionId;
      ghost var s := State();
      StepContinues(s, CreateVersion(id, spec, context));
      if Step(s, CreateVersion(id, spec, context)).1.Recorded? {
        ReportsResolve(s, CreateVersion(id, spec, context));
      }
      if id !in records.entries {
        return NoRecord;
      }
      if !Matches(id, context) {
        return OutOfScope;
      }
      var versions := records.entries[id] + [spec];
      records := records.Put(id, versions);
      r := Recorded(MakeRecord(id, spec, |versions|));
    }

    method SetStatus(id: string, status: Status, context: Option<Context>) returns (r: Outcome)
      requires Valid()
      modifies this
      ensures Valid() && (State(), r) == Step(old(State()), UpdateStatus(id, status, context))
    {
      hide WellFormed, VersionId;
      StepContinues(State(), UpdateStatus(id, status, context));
      if id !in records.entries || records.entries[id] == [] {
        return NoRecord;
      }
      if !Matches(id, context) {
        return OutOfScope;
      }
      var versions := records.entries[id];
      var spec := versions[|versions| - 1].(status := status);
      versions := versions[|versions| - 1 := spec];
      assert versions == ReplaceLast(records.entries[id], spec);
      records := records.Put(id, versions);
      r := Recorded(MakeRecord(id, spec, |versions|));
    }

    method ApproveStrategy(id: string, context: Option<Context>) returns (r: Outcome)
      requires Valid()
      modifies this
      ensures Valid() && (State(), r) == Step(old(State()), Approve(id, context))
    {
      hide WellFormed, VersionId;
      if id !in records.entries || records.entries[id] == [] {
        return NoRecord;
      }
      if !Matches(id, context) {
        return OutOfScope;
      }
      var versions := records.entries[id];
      var promoted := Promoted(versions[|versions| - 1].status);
      if promoted.None? {
        return NoRecord;
      }
      r := SetStatus(id, promoted.value, context);
    }

    method CloneStrategy(id: string, context: Option<Context>) returns (r: Outcome)
      requires Valid()
      modifies this
      ensures Valid() && (State(), r) == Step(old(State()), Clone(id, context))
    {
      hide WellFormed, VersionId, GeneratedId, Resolves;
      if id !in records.entries || records.entries[id] == [] {
        return NoRecord;
      }
      if !Matches(id, context) {
        return OutOfScope;
      }
      var versions := records.entries[id];
      var record := SaveSpec(Cloned(versions[|versions| - 1], id), context);
      r := Recorded(record);
    }

    /** The first match of the two nested loops is the only version the id names. */
    method SpecForVersion(versionId: string, context: Option<Context>) returns (r: Option<Spec>)
      requires Valid()
      ensures Resolves(State(), context, versionId, r)
    {
      hide VersionId;
      ghost var s := State();
      for i := 0 to |records.keys|
        invariant forall h, k :: 0 <= h < i ==> !Names(s, context, versionId, records.keys[h], k)
      {
        var id := records.keys[i];
        if !Matches(id, context) {
          continue;
        }
        var versions := records.entries[id];
        for j := 0 to |versions|
          invariant forall k :: 1 <= k <= j ==> !Names(s, context, versionId, id, k)
        {
          if VersionId(id, j + 1) == versionId {
            NamedResolves(s, context, id, j + 1);
            return Some(versions[j]);
          }
        }
      }
      r := None;
      assert forall id :: id in records.entries ==> id in records.keys;
    }
  }
}
