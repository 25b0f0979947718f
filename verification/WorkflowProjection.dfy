/** The workflow read model: one status per strategy lineage, folded from workflow events. */
module WorkflowProjection {
  import opened Options

  datatype Field = ProjectId | StrategyId | StrategyVersionId | TestJobId | ResultId | AiThreadId | ImprovementCycleId

  /** A workflow event; `payload` holds the fields that are not null. */
  datatype Event = Event(name: string, lineage: Option<string>, payload: map<Field, string>)

  datatype Status = Status(fields: map<Field, string>, latest: string, completed: bool, suggested: bool)

  function Completed(): string {
    "result.completed"
  }

  function Suggested(): string {
    "suggestion.created"
  }

  function Projected(): seq<Field> {
    [ProjectId, StrategyId, StrategyVersionId, TestJobId, ResultId, AiThreadId, ImprovementCycleId]
  }

  function Updated(before: Option<Status>, e: Event): Status {
    Status((if before.Some? then before.value.fields else map[]) + e.payload,
           e.name,
           (before.Some? && before.value.completed) || e.name == Completed(),
           (before.Some? && before.value.suggested) || e.name == Suggested())
  }

  function Find(model: map<string, Status>, lineage: string): Option<Status> {
    if lineage in model then Some(model[lineage]) else None
  }

  /** One event; an event without lineage is refused and changes nothing. */
  function Applied(model: map<string, Status>, e: Event): map<string, Status> {
    if e.lineage.None? then model else model[e.lineage.value := Updated(Find(model, e.lineage.value), e)]
  }

  function Fold(events: seq<Event>): map<string, Status> {
    if events == [] then map[] else Applied(Fold(events[..|events| - 1]), events[|events| - 1])
  }

  // ----- what a status is, without the fold -----

  /** The events of one lineage, in order. */
  function Own(events: seq<Event>, lineage: string): seq<Event> {
    if events == [] then []
    else
      var earlier := Own(events[..|events| - 1], lineage);
      if events[|events| - 1].lineage == Some(lineage) then earlier + [events[|events| - 1]] else earlier
  }

  /** Event i gives the field its final value. */
  ghost predicate LastSetBy(events: seq<Event>, f: Field, i: int) {
    && 0 <= i < |events|
    && f in events[i].payload
    && (forall j :: i < j < |events| ==> f !in events[j].payload)
  }

  ghost predicate HasEvent(events: seq<Event>, name: string) {
    exists i :: 0 <= i < |events| && events[i].name == name
  }

  /** The status of a lineage with these events: every field from the last event that has it, the name of the last
      event, and flags that stay set. */
  ghost predicate Summarises(status: Status, own: seq<Event>) {
    && own != []
    && status.latest == own[|own| - 1].name
    && (status.completed <==> HasEvent(own, Completed()))
    && (status.suggested <==> HasEvent(own, Suggested()))
    && FieldsAreLast(status.fields, own)
  }

  ghost predicate FieldsAreLast(fields: map<Field, string>, own: seq<Event>) {
    && (forall f, i :: LastSetBy(own, f, i) ==> f in fields && fields[f] == own[i].payload[f])
    && (forall f :: f in fields ==> exists i :: LastSetBy(own, f, i))
  }

  lemma FieldsStep(fields: map<Field, string>, own: seq<Event>, e: Event)
    requires FieldsAreLast(fields, own)
    ensures FieldsAreLast(fields + e.payload, own + [e])
  {
    var all, merged := own + [e], fields + e.payload;
    forall f, i | LastSetBy(all, f, i) ensures f in merged && merged[f] == all[i].payload[f] {
      assert all[|own|] == e;
      if i < |own| {
        assert forall j :: i < j < |own| ==> own[j] == all[j];
        assert LastSetBy(own, f, i);
      }
    }
    forall f | f in merged ensures exists i :: LastSetBy(all, f, i) {
      if f in e.payload {
        assert LastSetBy(all, f, |own|);
      } else {
        var i :| LastSetBy(own, f, i);
        assert LastSetBy(all, f, i);
      }
    }
  }

  lemma HasEventStep(own: seq<Event>, e: Event, name: string)
    ensures HasEvent(own + [e], name) <==> HasEvent(own, name) || e.name == name
  {
    var all := own + [e];
    assert all[|own|] == e;
    if HasEvent(own, name) {
      var i :| 0 <= i < |own| && own[i].name == name;
      assert all[i].name == name;
    }
  }

  lemma SummaryStep(before: Option<Status>, own: seq<Event>, e: Event)
    requires before.None? <==> own == []
    requires before.Some? ==> Summarises(before.value, own)
    ensures Summarises(Updated(before, e), own + [e])
  {
    hide FieldsAreLast, HasEvent, Completed, Suggested;
    HasEventStep(own, e, Completed());
    HasEventStep(own, e, Suggested());
    if before.Some? {
      FieldsStep(before.value.fields, own, e);
    } else {
      NothingYet();
      FieldsStep(map[], own, e);
    }
  }

  lemma NothingYet()
    ensures FieldsAreLast(map[], []) && !HasEvent([], Completed()) && !HasEvent([], Suggested())
  {
  }

  /** The read model holds a lineage iff one of its events was applied, and its status is determined by that lineage's events alone. */
  lemma {:induction false} StatusIsFoldOfOwnEvents(events: seq<Event>, lineage: string)
    ensures lineage in Fold(events) <==> Own(events, lineage) != []
    ensures lineage in Fold(events) ==> Summarises(Fold(events)[lineage], Own(events, lineage))
  {
    hide Summarises, Updated;
    if events != [] {
      var before, e := events[..|events| - 1], events[|events| - 1];
      StatusIsFoldOfOwnEvents(before, lineage);
      if e.lineage == Some(lineage) {
        SummaryStep(Find(Fold(before), lineage), Own(before, lineage), e);
      }
    }
  }

  lemma SummaryIsUnique(s: Status, s': Status, own: seq<Event>)
    requires Summarises(s, own) && Summarises(s', own)
    ensures s == s'
  {
    hide HasEvent, Completed, Suggested, LastSetBy;
    forall f | f in s.fields ensures f in s'.fields && s'.fields[f] == s.fields[f] {
      var i :| LastSetBy(own, f, i);
    }
    forall f | f in s'.fields ensures f in s.fields {
      var i :| LastSetBy(own, f, i);
    }
    assert s.fields == s'.fields;
  }

  /** Two streams that agree on a lineage, however differently interleaved, give it the same status. */
  lemma InterleavingDoesNotMatter(events: seq<Event>, events': seq<Event>, lineage: string)
    requires Own(events, lineage) == Own(events', lineage)
    ensures Find(Fold(events), lineage) == Find(Fold(events'), lineage)
  {
    hide Fold, Own, Summarises;
    StatusIsFoldOfOwnEvents(events, lineage);
    StatusIsFoldOfOwnEvents(events', lineage);
    if lineage in Fold(events) {
      SummaryIsUnique(Fold(events)[lineage], Fold(events')[lineage], Own(events, lineage));
    }
  }

  lemma AllProjected()
    ensures forall f :: f in Projected()
  {
    forall f ensures f in Projected() {
      match f
      case ProjectId => assert Projected()[0] == f;
      case StrategyId => assert Projected()[1] == f;
      case StrategyVersionId => assert Projected()[2] == f;
      case TestJobId => assert Projected()[3] == f;
      case ResultId => assert Projected()[4] == f;
      case AiThreadId => assert Projected()[5] == f;
      case ImprovementCycleId => assert Projected()[6] == f;
    }
  }

  /** Copies the projected fields that the payload has. */
  method Merge(fields: map<Field, string>, payload: map<Field, string>) returns (merged: map<Field, string>)
    ensures merged == fields + payload
  {
    hide Projected;
    merged := fields;
    var projected := Projected();
    for i := 0 to |projected|
      invariant forall f :: f in merged <==> f in fields || (f in payload && f in projected[..i])
      invariant forall f :: f in merged ==>
                  merged[f] == if f in payload && f in projected[..i] then payload[f] else fields[f]
    {
      if projected[i] in payload {
        merged := merged[projected[i] := payload[projected[i]]];
      }
    }
    AllProjected();
    assert projected[..|projected|] == projected;
  }

  class WorkflowReadModel {
    var lineages: map<string, Status>
    ghost var applied: seq<Event>

    ghost predicate Valid()
      reads this
    {
      lineages == Fold(applied)
    }

    constructor ()
      ensures Valid() && applied == []
    {
      lineages, applied := map[], [];
    }

    /** False stands for the refusal of an event without lineage. */
    method Apply(e: Event) returns (accepted: bool)
      requires Valid()
      modifies this
      ensures Valid() && applied == old(applied) + [e]
      ensures accepted == e.lineage.Some?
      ensures !accepted ==> lineages == old(lineages)
    {
      hide Completed, Suggested;
      assert (applied + [e])[..|applied|] == applied;
      applied := applied + [e];
      if e.lineage.None? {
        return false;
      }
      var lineage := e.lineage.value;
      var state := if lineage in lineages then lineages[lineage] else Status(map[], "", false, false);
      var fields := Merge(state.fields, e.payload);
      state := Status(fields, e.name, state.completed || e.name == Completed(), state.suggested || e.name == Suggested());
      lineages := lineages[lineage := state];
      accepted := true;
    }

    /** None stands for the KeyError. */
    method LineageStatus(lineage: string) returns (r: Option<Status>)
      requires Valid()
      ensures r.Some? <==> Own(applied, lineage) != []
      ensures r.Some? ==> Summarises(r.value, Own(applied, lineage))
    {
      hide Fold, Own, Summarises;
      StatusIsFoldOfOwnEvents(applied, lineage);
      r := if lineage in lineages then Some(lineages[lineage]) else None;
    }
  }
}
