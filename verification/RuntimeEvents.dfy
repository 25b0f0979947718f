/** Runtime events: each job has a stream, and an event is numbered by its place in it. */
module RuntimeEvents {
  import opened Identifiers

  /** What the caller supplies; `note` stands for actor, stage, level, message and metadata. */
  datatype Request = Request(jobId: string, note: string, progressPct: real, timestamp: string)

  datatype RuntimeEvent = RuntimeEvent(eventId: string, jobId: string, note: string, progressPct: real, timestamp: string)

  type Stream = map<string, seq<RuntimeEvent>>

  function EventSeparator(): (s: string)
    ensures EndsInNonDigit(s)
  {
    "_evt_"
  }

  function EventId(jobId: string, sequence: nat): string {
    Numbered(jobId, EventSeparator(), sequence, 6)
  }

  function Replay(stream: Stream, jobId: string): seq<RuntimeEvent> {
    if jobId in stream then stream[jobId] else []
  }

  function EventOf(q: Request, sequence: nat): RuntimeEvent {
    RuntimeEvent(EventId(q.jobId, sequence), q.jobId, q.note, q.progressPct, q.timestamp)
  }

  function Append(stream: Stream, q: Request): Stream {
    stream[q.jobId := Replay(stream, q.jobId) + [EventOf(q, |Replay(stream, q.jobId)| + 1)]]
  }

  function Run(requests: seq<Request>): Stream {
    if requests == [] then map[] else Append(Run(requests[..|requests| - 1]), requests[|requests| - 1])
  }

  /** The requests made for one job, in order. */
  function RequestsOf(requests: seq<Request>, jobId: string): seq<Request> {
    if requests == [] then []
    else
      var earlier := RequestsOf(requests[..|requests| - 1], jobId);
      if requests[|requests| - 1].jobId == jobId then earlier + [requests[|requests| - 1]] else earlier
  }

  /** Replaying a job gives that job's requests in order, numbered from 1, however the jobs were interleaved. */
  lemma {:induction false} ReplayNumbersTheRequests(requests: seq<Request>, jobId: string)
    ensures var replayed, own := Replay(Run(requests), jobId), RequestsOf(requests, jobId);
            |replayed| == |own| && forall k :: 0 <= k < |own| ==> replayed[k] == EventOf(own[k], k + 1)
    ensures forall k :: 0 <= k < |RequestsOf(requests, jobId)| ==> RequestsOf(requests, jobId)[k].jobId == jobId
  {
    hide EventId;
    if requests != [] {
      ReplayNumbersTheRequests(requests[..|requests| - 1], jobId);
    }
  }

  /** An event carries what its request gave, under the id of its job and its number. */
  lemma EventsCarryTheirRequests(requests: seq<Request>, jobId: string, k: nat)
    requires k < |RequestsOf(requests, jobId)|
    ensures k < |Replay(Run(requests), jobId)|
    ensures var e, q := Replay(Run(requests), jobId)[k], RequestsOf(requests, jobId)[k];
            && e.jobId == jobId && e.eventId == jobId + "_evt_" + Padded(k + 1, 6)
            && e.note == q.note && e.progressPct == q.progressPct && e.timestamp == q.timestamp
  {
    hide Run, RequestsOf, Padded;
    ReplayNumbersTheRequests(requests, jobId);
  }

  /** No two positions of any two jobs share an event id, and later events never renumber earlier ones. */
  lemma EventIdsAreNotShared(requests: seq<Request>, later: seq<Request>, job: string, i: nat, job': string, j: nat)
    requires i < |Replay(Run(requests), job)| && j < |Replay(Run(requests + later), job')|
    ensures Replay(Run(requests), job)[i].eventId == Replay(Run(requests + later), job')[j].eventId <==> job == job' && i == j
  {
    hide Run, RequestsOf, Numbered;
    ReplayNumbersTheRequests(requests, job);
    ReplayNumbersTheRequests(requests + later, job');
    NumberedInjective(job, i + 1, job', j + 1, EventSeparator(), 6);
  }

  class RuntimeEventService {
    var events: map<string, seq<RuntimeEvent>>

    constructor ()
      ensures events == Run([])
    {
      events := map[];
    }

    method AppendEvent(q: Request) returns (event: RuntimeEvent)
      modifies this
      ensures events == Append(old(events), q)
      ensures Replay(events, q.jobId) == Replay(old(events), q.jobId) + [event]
      ensures forall job :: job != q.jobId ==> Replay(events, job) == Replay(old(events), job)
    {
      var stored := if q.jobId in events then events[q.jobId] else [];
      event := EventOf(q, |stored| + 1);
      events := events[q.jobId := stored + [event]];
    }
  }
}
