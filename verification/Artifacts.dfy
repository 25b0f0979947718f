/** Artifact references: printing, parsing, and the path each one addresses. */
module Artifacts {
  import opened Options
  import opened Identifiers

  // ----- split and join on '/' -----

  function Split(s: string): (parts: seq<string>)
    ensures parts != []
  {
    if s == "" then [""]
    else
      var parts, c := Split(s[..|s| - 1]), s[|s| - 1];
      if c == '/' then parts + [""] else parts[|parts| - 1 := parts[|parts| - 1] + [c]]
  }

  function Join(parts: seq<string>): string
    requires parts != []
  {
    if |parts| == 1 then parts[0] else Join(parts[..|parts| - 1]) + "/" + parts[|parts| - 1]
  }

  predicate NoSlash(s: string) {
    forall i :: 0 <= i < |s| ==> s[i] != '/'
  }

  lemma JoinExtends(parts: seq<string>, c: char)
    requires parts != []
    ensures Join(parts[|parts| - 1 := parts[|parts| - 1] + [c]]) == Join(parts) + [c]
  {
    var longer := parts[|parts| - 1 := parts[|parts| - 1] + [c]];
    assert longer[..|parts| - 1] == parts[..|parts| - 1];
  }

  lemma {:induction false} JoinInvertsSplit(s: string)
    ensures Join(Split(s)) == s
  {
    if s != "" {
      var front, c := s[..|s| - 1], s[|s| - 1];
      var parts := Split(front);
      JoinInvertsSplit(front);
      if c == '/' {
        assert (parts + [""])[..|parts|] == parts;
      } else {
        JoinExtends(parts, c);
      }
      assert front + [c] == s;
    }
  }

  lemma {:induction false} SplitWhole(s: string)
    requires NoSlash(s)
    ensures Split(s) == [s]
  {
    if s != "" {
      SplitWhole(s[..|s| - 1]);
      assert s[..|s| - 1] + [s[|s| - 1]] == s;
    }
  }

  lemma {:induction false} SplitLast(a: string, b: string)
    requires NoSlash(b)
    ensures Split(a + "/" + b) == Split(a) + [b]
  {
    var s := a + "/" + b;
    if b == "" {
      assert s[..|s| - 1] == a;
    } else {
      var front, c := b[..|b| - 1], b[|b| - 1];
      SplitLast(a, front);
      assert s[..|s| - 1] == a + "/" + front;
      assert front + [c] == b;
      assert (Split(a) + [front])[|Split(a)| := b] == Split(a) + [b];
    }
  }

  lemma {:induction false} SplitInvertsJoin(parts: seq<string>)
    requires parts != [] && forall i :: 0 <= i < |parts| ==> NoSlash(parts[i])
    ensures Split(Join(parts)) == parts
  {
    var front, last := parts[..|parts| - 1], parts[|parts| - 1];
    assert parts == front + [last];
    if front == [] {
      SplitWhole(last);
    } else {
      SplitInvertsJoin(front);
      SplitLast(Join(front), last);
    }
  }

  // ----- references -----

  datatype ScopedRef = ScopedRef(projectId: string, userId: string, artifactType: string, artifactId: string)

  predicate IsAlphanumeric(c: char) {
    'A' <= c <= 'Z' || 'a' <= c <= 'z' || IsDigit(c)
  }

  predicate SafeIdentifier(s: string) {
    && s != "" && IsAlphanumeric(s[0])
    && (forall i :: 0 <= i < |s| ==> IsAlphanumeric(s[i]) || s[i] in "_.:-")
  }

  predicate SafeRef(r: ScopedRef) {
    SafeIdentifier(r.projectId) && SafeIdentifier(r.userId) && SafeIdentifier(r.artifactType) && SafeIdentifier(r.artifactId)
  }

  function Scheme(): string { "artifact:" }
  function Host(): string { "builder" }

  function Prefix(): string {
    Scheme() + "/" + "" + "/" + Host()
  }

  function Print(r: ScopedRef): string {
    Prefix() + "/" + r.projectId + "/" + r.userId + "/" + r.artifactType + "/" + r.artifactId
  }

  /** None stands for the ValueError. */
  function Parse(ref: string): Option<ScopedRef> {
    var parts := Split(ref);
    if |parts| != 7 || Join(parts[..3]) != Prefix() then None
    else
      var r := ScopedRef(parts[3], parts[4], parts[5], parts[6]);
      if SafeRef(r) then Some(r) else None
  }

  function Parts(r: ScopedRef): seq<string> {
    [Scheme(), "", Host(), r.projectId, r.userId, r.artifactType, r.artifactId]
  }

  lemma JoinSeven(p: seq<string>)
    requires |p| == 7
    ensures Join(p) == Join(p[..3]) + "/" + p[3] + "/" + p[4] + "/" + p[5] + "/" + p[6]
    ensures Join(p[..3]) == p[0] + "/" + p[1] + "/" + p[2]
  {
    assert p[..6][..5] == p[..5] && p[..5][..4] == p[..4] && p[..4][..3] == p[..3] && p[..3][..2] == p[..2];
    JoinOneMore(p, 6);
    JoinOneMore(p, 5);
    JoinOneMore(p, 4);
    JoinOneMore(p, 3);
    JoinOneMore(p, 2);
    JoinOneMore(p, 1);
  }

  lemma JoinOneMore(p: seq<string>, n: nat)
    requires 0 < n < |p|
    ensures Join(p[..n + 1]) == Join(p[..n]) + "/" + p[n]
    ensures Join(p[..1]) == p[0]
    ensures n == |p| - 1 ==> p[..n + 1] == p
  {
    assert p[..n + 1][..n] == p[..n];
  }

  lemma SafeHasNoSlash(r: ScopedRef)
    requires SafeRef(r)
    ensures forall i :: 0 <= i < 7 ==> NoSlash(Parts(r)[i])
  {
    assert forall s :: SafeIdentifier(s) ==> NoSlash(s) by {
      assert '/' !in "_.:-";
    }
    assert NoSlash(Scheme()) && NoSlash(Host()) && NoSlash("");
    var p := Parts(r);
    assert p[0] == Scheme() && p[1] == "" && p[2] == Host() && p[3] == r.projectId && p[4] == r.userId
        && p[5] == r.artifactType && p[6] == r.artifactId;
  }

  /** Parsing accepts exactly the printed forms of safe references, and gives back the reference printed. */
  lemma ParseInvertsPrint(ref: string, r: ScopedRef)
    ensures Parse(ref) == Some(r) <==> SafeRef(r) && ref == Print(r)
  {
    hide SafeIdentifier, Split, Join, Scheme, Host, NoSlash;
    if SafeRef(r) && ref == Print(r) {
      var p := Parts(r);
      SafeHasNoSlash(r);
      SplitInvertsJoin(p);
      JoinSeven(p);
      assert Join(p) == ref;
    }
    if Parse(ref) == Some(r) {
      JoinInvertsSplit(ref);
      JoinSeven(Split(ref));
    }
  }

  /** The path below the store's root. */
  function PathFor(r: ScopedRef): seq<string> {
    [r.projectId, r.userId, r.artifactType, r.artifactId + ".json"]
  }

  lemma PathsAreDistinct(r: ScopedRef, r': ScopedRef)
    ensures PathFor(r) == PathFor(r') <==> r == r'
  {
    if PathFor(r) == PathFor(r') {
      var p, p' := PathFor(r), PathFor(r');
      assert p[0] == p'[0] && p[1] == p'[1] && p[2] == p'[2] && p[3] == p'[3];
      assert r.artifactId == p[3][..|p[3]| - 5] && r'.artifactId == p'[3][..|p'[3]| - 5];
    }
  }

  /** A string is a safe identifier iff it starts with a letter or digit and goes on with letters, digits, '_', '.', ':' or '-'. */
  lemma SafeByCharacter(s: string, c: char)
    ensures !SafeIdentifier("")
    ensures SafeIdentifier([c]) <==> 'A' <= c <= 'Z' || 'a' <= c <= 'z' || '0' <= c <= '9'
    ensures s != "" ==> (SafeIdentifier(s + [c]) <==>
              SafeIdentifier(s) && ('A' <= c <= 'Z' || 'a' <= c <= 'z' || '0' <= c <= '9' || c == '_' || c == '.' || c == ':' || c == '-'))
  {
    var t := s + [c];
    assert forall i :: 0 <= i < |s| ==> t[i] == s[i];
    assert t[|s|] == c && [c][0] == c;
    assert c in "_.:-" <==> c == '_' || c == '.' || c == ':' || c == '-' by {
      var others := "_.:-";
      assert others[0] == '_' && others[1] == '.' && others[2] == ':' && others[3] == '-';
    }
  }

  /** The printed form in full, and the file it addresses. */
  lemma PrintedInFull(r: ScopedRef)
    ensures Print(r) == "artifact://builder" + "/" + r.projectId + "/" + r.userId + "/" + r.artifactType + "/" + r.artifactId
    ensures PathFor(r) == [r.projectId, r.userId, r.artifactType, r.artifactId + ".json"]
  {
    assert Prefix() == "artifact://builder";
  }
}
