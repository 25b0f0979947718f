/** The backtest job service that finds jobs by scanning its storage; it refines the indexed one. */
module BacktestScanning {
  import opened Options
  import opened Dicts
  import opened BacktestJobs

  /** The repository rows, and the cache of the service. */
  datatype Scanning = Scanning(repo: map<JobId, Job>, cache: map<JobId, Job>)

  /** A listing names every row once, in whatever order the database returns them. */
  ghost predicate Lists(listing: seq<JobId>, repo: map<JobId, Job>) {
    Distinct(listing) && forall id :: id in listing <==> id in repo
  }

  /** The first listed job, from position i on, whose raw payload has the key. */
  function FirstWithKey(repo: map<JobId, Job>, listing: seq<JobId>, key: Key, i: nat): (r: Option<JobId>)
    requires i <= |listing| && forall id :: id in listing ==> id in repo
    ensures r.Some? ==> r.value in repo && RawKey(repo[r.value].spec) == key
    decreases |listing| - i
  {
    if i == |listing| then None
    else if RawKey(repo[listing[i]].spec) == key then Some(listing[i])
    else FirstWithKey(repo, listing, key, i + 1)
  }

  function StepScanning(s: Scanning, op: Op, listing: seq<JobId>): (Scanning, Result)
    requires forall id :: id in listing ==> id in s.repo
  {
    match op
    case Create(payload, now) =>
      var k := Canonical(payload);
      var found := FirstWithKey(s.repo, listing, k, 0);
      if found.Some? then (s.(cache := s.repo), Found(s.repo[found.value]))
      else (Scanning(s.repo[JobId(k) := NewJob(k, now)], s.repo[JobId(k) := NewJob(k, now)]), Found(NewJob(k, now)))
    case Get(id, context) => Fetch(s, id, context)
    case Transition(id, stage, worker, refs, context, now) =>
      var (fetched, found) := Fetch(s, id, context);
      if !found.Found? then (fetched, found) else Updated(fetched, id, Transitioned(found.job, stage, worker, refs, now))
    case Cancel(id, context, now) =>
      var (fetched, found) := Fetch(s, id, context);
      if !found.Found? then (fetched, found) else Updated(fetched, id, Cancelled(found.job, now))
  }

  function Fetch(s: Scanning, id: JobId, context: Option<Context>): (Scanning, Result) {
    var found := Lookup(s.repo, id, context);
    (if found.Found? then s.(cache := s.cache[id := found.job]) else s, found)
  }

  function Updated(s: Scanning, id: JobId, j: Job): (Scanning, Result) {
    (Scanning(s.repo[id := j], s.cache[id := j]), Found(j))
  }

  class PostgresBacktestJobService {
    var repo: map<JobId, Job>
    var jobsById: map<JobId, Job>

    function State(): Scanning
      reads this
    {
      Scanning(repo, jobsById)
    }

    constructor ()
      ensures State() == Scanning(map[], map[])
    {
      repo, jobsById := map[], map[];
    }

    method CreateJob(payload: Payload, now: string, listing: seq<JobId>) returns (result: Result)
      requires Lists(listing, repo)
      modifies this
      ensures (State(), result) == StepScanning(old(State()), Create(payload, now), listing)
    {
      hide Canonical;
      hide RawKey;
      var key := Canonical(payload);
      jobsById := repo;
      for i := 0 to |listing|
        invariant jobsById == repo == old(repo)
        invariant FirstWithKey(repo, listing, key, 0) == FirstWithKey(repo, listing, key, i)
      {
        var job := jobsById[listing[i]];
        if RawKey(job.spec) == key {
          return Found(job);
        }
      }
      var job := NewJob(key, now);
      repo := repo[job.id := job];
      jobsById := jobsById[job.id := job];
      result := Found(job);
    }

    method GetJob(id: JobId, context: Option<Context>) returns (result: Result)
      modifies this
      ensures (State(), result) == Fetch(old(State()), id, context)
      ensures repo == old(repo)
    {
      result := Lookup(repo, id, context);
      if result.Found? {
        jobsById := jobsById[id := result.job];
      }
    }

    method TransitionJob(id: JobId, stage: string, worker: Option<string>, refs: Option<map<string, string>>,
                         context: Option<Context>, now: string) returns (result: Result)
      modifies this
      ensures (State(), result) == StepScanning(old(State()), Transition(id, stage, worker, refs, context, now), [])
    {
      result := GetJob(id, context);
      if !result.Found? {
        return;
      }
      var updated := Transitioned(result.job, stage, worker, refs, now);
      repo := repo[id := updated];
      jobsById := jobsById[id := updated];
      result := Found(updated);
    }

    method RequestCancel(id: JobId, context: Option<Context>, now: string) returns (result: Result)
      modifies this
      ensures (State(), result) == StepScanning(old(State()), Cancel(id, context, now), [])
    {
      result := GetJob(id, context);
      if !result.Found? {
        return;
      }
      var updated := Cancelled(result.job, now);
      repo := repo[id := updated];
      jobsById := jobsById[id := updated];
      result := Found(updated);
    }
  }

  // ----- refinement -----

  /** The scanning service stores exactly what the indexed one does, and its cache is never stale. */
  ghost predicate Refines(c: Scanning, s: Indexed) {
    && c.repo == s.byId
    && forall id :: id in c.cache ==> id in c.repo && c.cache[id] == c.repo[id]
  }

  lemma {:induction false} ScanMisses(repo: map<JobId, Job>, listing: seq<JobId>, key: Key, i: nat)
    requires i <= |listing| && forall id :: id in listing ==> id in repo && RawKey(repo[id].spec) == id.key
    ensures FirstWithKey(repo, listing, key, i) == if JobId(key) in listing[i..] then Some(JobId(key)) else None
    decreases |listing| - i
  {
    hide RawKey;
    if i < |listing| {
      ScanMisses(repo, listing, key, i + 1);
      assert listing[i..] == [listing[i]] + listing[i + 1..];
      assert RawKey(repo[listing[i]].spec) == listing[i].key;
    }
  }

  /** On jobs stored under their own keys, the scan finds what the key index finds. */
  lemma ScanIsLookup(s: Indexed, listing: seq<JobId>, key: Key)
    requires IndexesAgree(s) && Lists(listing, s.byId)
    ensures FirstWithKey(s.byId, listing, key, 0) == if key in s.byKey then Some(JobId(key)) else None
  {
    hide RawKey;
    hide SpecOf;
    hide IsCanonical;
    forall id | id in listing ensures id in s.byId && RawKey(s.byId[id].spec) == id.key {
      StoredId(s, id);
      RawKeyInverts(id.key);
    }
    ScanMisses(s.byId, listing, key, 0);
    assert listing[0..] == listing;
    if JobId(key) in s.byId {
      StoredId(s, JobId(key));
    }
  }

  lemma StepRefines(c: Scanning, s: Indexed, op: Op, listing: seq<JobId>)
    requires IndexesAgree(s) && Refines(c, s) && Lists(listing, c.repo)
    ensures StepScanning(c, op, listing).1 == StepIndexed(s, op).1
    ensures Refines(StepScanning(c, op, listing).0, StepIndexed(s, op).0)
  {
    hide Canonical;
    hide IndexesAgree;
    hide FirstWithKey;
    hide Lists;
    match op
    case Create(payload, now) =>
      var k := Canonical(payload);
      ScanIsLookup(s, listing, k);
      if k in s.byKey {
        KeyedIsStored(s, k);
      }
    case _ =>
  }

  lemma KeyedIsStored(s: Indexed, k: Key)
    requires IndexesAgree(s) && k in s.byKey
    ensures JobId(k) in s.byId && s.byId[JobId(k)] == s.byKey[k]
  {
    hide SpecOf;
    hide IsCanonical;
    assert IdSound(s, JobId(k));
  }

  /** One listing for each operation, each of the rows stored at that point. */
  ghost predicate ListingsFit(ops: seq<Op>, listings: seq<seq<JobId>>) {
    |ops| == |listings| &&
    (ops == [] ||
     var n := |ops| - 1;
     ListingsFit(ops[..n], listings[..n]) && Lists(listings[n], RunScanning(ops[..n], listings[..n]).repo))
  }

  ghost function RunScanning(ops: seq<Op>, listings: seq<seq<JobId>>): Scanning
    requires |ops| == |listings|
  {
    if ops == [] then Scanning(map[], map[])
    else
      var n := |ops| - 1;
      var before := RunScanning(ops[..n], listings[..n]);
      if forall id :: id in listings[n] ==> id in before.repo then StepScanning(before, ops[n], listings[n]).0 else before
  }

  /** For every sequence of operations and every listing order the scanning service stores the same jobs as the indexed
      one and answers the next operation with the same job. */
  lemma {:induction false} ScanningRefinesIndexed(ops: seq<Op>, listings: seq<seq<JobId>>, next: Op, listing: seq<JobId>)
    requires ListingsFit(ops, listings) && Lists(listing, RunScanning(ops, listings).repo)
    ensures Refines(RunScanning(ops, listings), RunIndexed(ops))
    ensures StepScanning(RunScanning(ops, listings), next, listing).1 == StepIndexed(RunIndexed(ops), next).1
  {
    hide StepScanning;
    hide StepIndexed;
    hide IndexesAgree;
    if ops != [] {
      var n := |ops| - 1;
      ScanningRefinesIndexed(ops[..n], listings[..n], ops[n], listings[n]);
      IndexesAlwaysAgree(ops[..n]);
      StepRefines(RunScanning(ops[..n], listings[..n]), RunIndexed(ops[..n]), ops[n], listings[n]);
    }
    IndexesAlwaysAgree(ops);
    StepRefines(RunScanning(ops, listings), RunIndexed(ops), next, listing);
  }
}
