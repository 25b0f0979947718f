/** The JSON artifact store, and the promotion evidence read from it. */
module ArtifactStore {
  import opened Options
  import opened Artifacts

  datatype Context = Context(userId: string, projectId: string)

  /** The SHA-256 of the canonical payload, taken to be injective. */
  datatype Checksum = Checksum(payload: map<string, string>)

  datatype Artifact = Artifact(
    ref: string, scope: ScopedRef, checksum: Checksum, metadata: map<string, string>, payload: map<string, string>)

  /** File contents by path. */
  type Files = map<seq<string>, Artifact>

  datatype Put = Put(context: Context, artifactType: string, artifactId: string, payload: map<string, string>, metadata: map<string, string>)

  datatype Fetched = Stored(artifact: Artifact) | InvalidRef | OutOfScope | NotFound | Mismatch

  function Target(p: Put): ScopedRef {
    ScopedRef(p.context.projectId, p.context.userId, p.artifactType, p.artifactId)
  }

  function ArtifactOf(p: Put): Artifact {
    Artifact(Print(Target(p)), Target(p), Checksum(p.payload), p.metadata, p.payload)
  }

  function Apply(files: Files, p: Put): Files {
    if SafeRef(Target(p)) then files[PathFor(Target(p)) := ArtifactOf(p)] else files
  }

  function Run(puts: seq<Put>): Files {
    if puts == [] then map[] else Apply(Run(puts[..|puts| - 1]), puts[|puts| - 1])
  }

  predicate SameProject(c: Context, r: ScopedRef) {
    c.userId == r.userId && c.projectId == r.projectId
  }

  function Fetch(files: Files, c: Context, ref: string): Fetched {
    var scoped := Parse(ref);
    if scoped.None? then InvalidRef
    else if !SameProject(c, scoped.value) then OutOfScope
    else if PathFor(scoped.value) !in files then NotFound
    else
      var a := files[PathFor(scoped.value)];
      var recorded := Parse(a.ref);
      if recorded.None? then InvalidRef
      else if !SameProject(c, recorded.value) then OutOfScope
      else if a.checksum != Checksum(a.payload) then Mismatch
      else Stored(a)
  }

  /** The put numbered i is the last one accepted for this reference. */
  ghost predicate LatestPut(puts: seq<Put>, r: ScopedRef, i: int) {
    && 0 <= i < |puts| && Target(puts[i]) == r && SafeRef(r)
    && (forall j :: i < j < |puts| ==> Target(puts[j]) != r)
  }

  lemma {:induction false} FileIsLatestPut(puts: seq<Put>, r: ScopedRef)
    requires SafeRef(r)
    ensures forall i :: LatestPut(puts, r, i) ==> PathFor(r) in Run(puts) && Run(puts)[PathFor(r)] == ArtifactOf(puts[i])
    ensures PathFor(r) in Run(puts) ==> exists i :: LatestPut(puts, r, i)
  {
    hide SafeRef, PathFor, ArtifactOf;
    if puts != [] {
      var before, p := puts[..|puts| - 1], puts[|puts| - 1];
      FileIsLatestPut(before, r);
      PathsAreDistinct(r, Target(p));
      if Target(p) == r {
        assert LatestPut(puts, r, |puts| - 1);
      } else {
        assert forall i :: LatestPut(before, r, i) <==> LatestPut(puts, r, i);
      }
    }
  }

  /** Reading any string at any time gives the latest artifact put under that reference by the same user and project, or exactly
      the error the reference earns; what was put is never reported as corrupt. */
  lemma FetchReturnsLatestPut(puts: seq<Put>, c: Context, ref: string)
    ensures Fetch(Run(puts), c, ref) == InvalidRef <==> forall r :: SafeRef(r) ==> ref != Print(r)
    ensures forall r :: SafeRef(r) && ref == Print(r) ==>
              && (Fetch(Run(puts), c, ref) == OutOfScope <==> !SameProject(c, r))
              && (Fetch(Run(puts), c, ref) == NotFound <==> SameProject(c, r) && forall i :: !LatestPut(puts, r, i))
              && (forall i :: SameProject(c, r) && LatestPut(puts, r, i) ==> Fetch(Run(puts), c, ref) == Stored(ArtifactOf(puts[i])))
    ensures Fetch(Run(puts), c, ref) != Mismatch
  {
    hide SafeRef, Run, PathFor, Print, Parse;
    var scoped := Parse(ref);
    forall r ensures scoped == Some(r) <==> SafeRef(r) && ref == Print(r) {
      ParseInvertsPrint(ref, r);
    }
    if scoped.Some? {
      var r := scoped.value;
      FileIsLatestPut(puts, r);
      ParseInvertsPrint(Print(r), r);
      if PathFor(r) in Run(puts) {
        var i :| LatestPut(puts, r, i);
        assert Run(puts)[PathFor(r)] == ArtifactOf(puts[i]);
      }
    }
  }

  /** A stored artifact says where it belongs and carries the payload and metadata it was put with. */
  lemma StoredFields(p: Put)
    ensures var a := ArtifactOf(p);
            && a.ref == Print(a.scope) && a.scope.projectId == p.context.projectId && a.scope.userId == p.context.userId
            && a.scope.artifactType == p.artifactType && a.scope.artifactId == p.artifactId
            && a.payload == p.payload && a.metadata == p.metadata && a.checksum == Checksum(p.payload)
  {
  }

  class LocalJsonArtifactStore {
    var files: Files

    constructor ()
      ensures files == Run([])
    {
      files := map[];
    }

    /** None stands for the refusal of an unsafe identifier. */
    method PutJson(p: Put) returns (r: Option<Artifact>)
      modifies this
      ensures files == Apply(old(files), p)
      ensures r.Some? <==> SafeRef(Target(p))
      ensures r.Some? ==> Fetch(files, p.context, r.value.ref) == Stored(r.value)
    {
      hide SafeIdentifier, PathFor, Print, Parse;
      if !SafeIdentifier(p.artifactType) || !SafeIdentifier(p.artifactId) {
        return None;
      }
      var target := ScopedRef(p.context.projectId, p.context.userId, p.artifactType, p.artifactId);
      if !SafeIdentifier(target.projectId) || !SafeIdentifier(target.userId) {
        return None;
      }
      var artifact := Artifact(Print(target), target, Checksum(p.payload), p.metadata, p.payload);
      files := files[PathFor(target) := artifact];
      ParseInvertsPrint(artifact.ref, target);
      r := Some(artifact);
    }

    method GetJson(c: Context, ref: string) returns (r: Fetched)
      ensures r == Fetch(files, c, ref)
    {
      var scoped := Parse(ref);
      if scoped.None? {
        return InvalidRef;
      }
      if !SameProject(c, scoped.value) {
        return OutOfScope;
      }
      var path := PathFor(scoped.value);
      if path !in files {
        return NotFound;
      }
      var artifact := files[path];
      var recorded := Parse(artifact.ref);
      if recorded.None? {
        return InvalidRef;
      }
      if !SameProject(c, recorded.value) {
        return OutOfScope;
      }
      if Checksum(artifact.payload) != artifact.checksum {
        return Mismatch;
      }
      r := Stored(artifact);
    }
  }
}

/** Promotion evidence: every reference must name a stored artifact of its kind, bound to the same strategy version and compile hash. */
module Promotions {
  import opened Options
  import opened Artifacts
  import opened ArtifactStore

  function EvidenceKeys(): seq<string> {
    ["validation_report", "backtest_result", "no_lookahead_report", "gate_compatibility_report", "runtime_boundary_report", "risk_review"]
  }

  function Lookup(m: map<string, string>, key: string): Option<string> {
    if key in m then Some(m[key]) else None
  }

  /** Metadata first, then the payload. */
  function BindingValue(a: Artifact, key: string): Option<string> {
    if key in a.metadata then Some(a.metadata[key]) else Lookup(a.payload, key)
  }

  predicate Binds(a: Artifact, version: string, hash: string) {
    && BindingValue(a, "compile_hash") == Some(hash)
    && (BindingValue(a, "strategy_version") == Some(version)
        || (BindingValue(a, "strategy_version").None? && BindingValue(a, "strategy_version_id") == Some(version)))
  }

  /** Evidence is bound when metadata or, without it, the payload names the compile hash, and the strategy version under either name. */
  lemma BindsIff(a: Artifact, version: string, hash: string)
    ensures Binds(a, version, hash) <==>
              && ("compile_hash" in a.metadata ==> a.metadata["compile_hash"] == hash)
              && ("compile_hash" !in a.metadata ==> "compile_hash" in a.payload && a.payload["compile_hash"] == hash)
              && (if "strategy_version" in a.metadata then a.metadata["strategy_version"] == version
                  else if "strategy_version" in a.payload then a.payload["strategy_version"] == version
                  else if "strategy_version_id" in a.metadata then a.metadata["strategy_version_id"] == version
                  else "strategy_version_id" in a.payload && a.payload["strategy_version_id"] == version)
  {
  }

  /** The six kinds of evidence. */
  lemma KindsOfEvidence(key: string)
    ensures key in EvidenceKeys() <==>
              || key == "validation_report" || key == "backtest_result" || key == "no_lookahead_report"
              || key == "gate_compatibility_report" || key == "runtime_boundary_report" || key == "risk_review"
  {
    var k := EvidenceKeys();
    assert k[0] == "validation_report" && k[1] == "backtest_result" && k[2] == "no_lookahead_report"
        && k[3] == "gate_compatibility_report" && k[4] == "runtime_boundary_report" && k[5] == "risk_review";
  }

  /** The evidence under this key is in order: fetched, of the type the key names, and bound. */
  predicate EvidenceHolds(files: Files, c: Context, key: string, ref: string, version: string, hash: string) {
    var r := Fetch(files, c, ref);
    r.Stored? && r.artifact.scope.artifactType == key && Binds(r.artifact, version, hash)
  }

  /** Exactly the six references are given, none of them empty. */
  predicate Complete(refs: map<string, string>) {
    && refs.Keys == set key | key in EvidenceKeys()
    && forall key :: key in refs ==> refs[key] != ""
  }

  /** All evidence was fetched from the store and holds. */
  predicate Verified(files: Option<Files>, c: Option<Context>, refs: map<string, string>, version: string, hash: string) {
    && files.Some? && c.Some?
    && forall key :: key in refs ==> EvidenceHolds(files.value, c.value, key, refs[key], version, hash)
  }

  /** Without a store or a context, complete references are taken as they are. */
  predicate Accepts(files: Option<Files>, c: Option<Context>, refs: map<string, string>, version: string, hash: string) {
    Complete(refs) && (files.Some? && c.Some? ==> Verified(files, c, refs, version, hash))
  }

  /** Accepted evidence is always verified iff both a store and a context are configured. */
  lemma AcceptedIsVerifiedIff(files: Option<Files>, c: Option<Context>, version: string, hash: string)
    ensures (forall refs :: Accepts(files, c, refs, version, hash) ==> Verified(files, c, refs, version, hash)) <==> files.Some? && c.Some?
  {
    hide EvidenceHolds, EvidenceKeys;
    if files.None? || c.None? {
      var refs := map key | key in EvidenceKeys() :: "x";
      assert Complete(refs);
      assert Accepts(files, c, refs, version, hash) && !Verified(files, c, refs, version, hash);
    }
  }

  /** The checksums of the evidence that was checked; None stands for the error. */
  method ValidateEvidence(store: Option<LocalJsonArtifactStore>, c: Option<Context>, refs: map<string, string>, version: string, hash: string)
    returns (r: Option<map<string, Checksum>>)
    ensures var files := if store.Some? then Some(store.value.files) else None;
            r.Some? <==> Accepts(files, c, refs, version, hash)
    ensures r.Some? && (store.None? || c.None?) ==> r.value == map[]
    ensures r.Some? && store.Some? && c.Some? ==>
              && r.value.Keys == refs.Keys
              && forall key :: key in refs ==> r.value[key] == Fetch(store.value.files, c.value, refs[key]).artifact.checksum
  {
    hide EvidenceKeys, Fetch, EvidenceHolds;
    if !Complete(refs) {
      return None;
    }
    if store.None? || c.None? {
      return Some(map[]);
    }
    r := CheckEvidence(store.value, c.value, refs, version, hash);
  }

  /** Checks the evidence item by item and collects the checksums. */
  method CheckEvidence(store: LocalJsonArtifactStore, c: Context, refs: map<string, string>, version: string, hash: string)
    returns (r: Option<map<string, Checksum>>)
    requires Complete(refs)
    ensures r.Some? <==> forall key :: key in refs ==> EvidenceHolds(store.files, c, key, refs[key], version, hash)
    ensures r.Some? ==> r.value.Keys == refs.Keys
    ensures r.Some? ==> forall key :: key in refs ==> r.value[key] == Fetch(store.files, c, refs[key]).artifact.checksum
  {
    hide EvidenceKeys, Fetch, EvidenceHolds;
    var keys := EvidenceKeys();
    var checksums: map<string, Checksum> := map[];
    for i := 0 to |keys|
      invariant forall key :: key in checksums <==> key in keys[..i]
      invariant forall key :: key in checksums ==>
                  && EvidenceHolds(store.files, c, key, refs[key], version, hash)
                  && Fetch(store.files, c, refs[key]).Stored?
                  && checksums[key] == Fetch(store.files, c, refs[key]).artifact.checksum
    {
      var checksum := CheckItem(store, c, keys[i], refs[keys[i]], version, hash);
      if checksum.None? {
        return None;
      }
      checksums := checksums[keys[i] := checksum.value];
    }
    assert keys[..|keys|] == keys;
    assert forall key :: key in refs ==> key in keys;
    r := Some(checksums);
  }

  method CheckItem(store: LocalJsonArtifactStore, c: Context, key: string, ref: string, version: string, hash: string)
    returns (r: Option<Checksum>)
    ensures r.Some? <==> EvidenceHolds(store.files, c, key, ref, version, hash)
    ensures r.Some? ==> Fetch(store.files, c, ref).Stored? && r.value == Fetch(store.files, c, ref).artifact.checksum
  {
    hide Fetch, Prefix, Binds;
    FetchedHasPrefix(store.files, c, ref);
    if |ref| <= |Prefix()| || ref[..|Prefix()| + 1] != Prefix() + "/" {
      return None;
    }
    var fetched := store.GetJson(c, ref);
    if !fetched.Stored? || fetched.artifact.scope.artifactType != key || !Binds(fetched.artifact, version, hash) {
      return None;
    }
    r := Some(fetched.artifact.checksum);
  }

  lemma FetchedHasPrefix(files: Files, c: Context, ref: string)
    ensures Fetch(files, c, ref).Stored? ==> |ref| > |Prefix()| && ref[..|Prefix()| + 1] == Prefix() + "/"
  {
    hide Prefix, Parse, SafeRef;
    if Fetch(files, c, ref).Stored? {
      ParseInvertsPrint(ref, Parse(ref).value);
    }
  }

  /** Evidence accepted after any history of the store is the latest artifact that the same user and project put under that
      reference, of the right kind, and its own payload and metadata name the promoted version and hash. */
  lemma AcceptedEvidenceWasPut(puts: seq<Put>, c: Context, key: string, ref: string, version: string, hash: string)
    requires EvidenceHolds(Run(puts), c, key, ref, version, hash)
    ensures exists r, i ::
              && LatestPut(puts, r, i)
              && ref == Print(r)
              && puts[i].context == c && puts[i].artifactType == key
              && Binds(ArtifactOf(puts[i]), version, hash)
  {
    hide Run, Parse, Print, SafeRef, Binds;
    FetchReturnsLatestPut(puts, c, ref);
    var r :| SafeRef(r) && ref == Print(r);
    var i :| LatestPut(puts, r, i);
    assert Target(puts[i]) == r;
  }
}
