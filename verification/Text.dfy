/** The string operations that the services rely on. */
module Text {
  import opened Options

  /** The characters that `str.strip` removes. */
  predicate IsSpace(c: char) {
    || '\t' <= c <= '\r'
    || '\U{1C}' <= c <= ' '
    || c == '\U{85}' || c == '\U{A0}' || c == '\U{1680}'
    || '\U{2000}' <= c <= '\U{200A}'
    || c == '\U{2028}' || c == '\U{2029}' || c == '\U{202F}' || c == '\U{205F}' || c == '\U{3000}'
  }

  function StripLeft(s: string): string {
    if s != "" && IsSpace(s[0]) then StripLeft(s[1..]) else s
  }

  function StripRight(s: string): string {
    if s != "" && IsSpace(s[|s| - 1]) then StripRight(s[..|s| - 1]) else s
  }

  function Strip(s: string): string {
    StripRight(StripLeft(s))
  }

  /** `value is not None and value.strip() != ""` */
  predicate Present(value: Option<string>) {
    value.Some? && Strip(value.value) != ""
  }

  function LowerChar(c: char): char {
    if 'A' <= c <= 'Z' then c - 'A' + 'a' else c
  }

  /** `str.lower` on the ASCII letters; no other character becomes one of them under lower-casing
      except the Kelvin sign and the dotted capital I, which no word compared here contains. */
  function Lower(s: string): string {
    seq(|s|, i requires 0 <= i < |s| => LowerChar(s[i]))
  }

  // ----- what stripping does -----

  lemma {:induction false} StripLeftFacts(s: string) returns (k: nat)
    ensures k <= |s| && StripLeft(s) == s[k..]
    ensures forall i :: 0 <= i < k ==> IsSpace(s[i])
    ensures k < |s| ==> !IsSpace(s[k])
  {
    hide IsSpace;
    k := 0;
    if s != "" && IsSpace(s[0]) {
      var rest := s[1..];
      var n := StripLeftFacts(rest);
      k := n + 1;
      assert rest[n..] == s[k..];
      assert forall i :: 1 <= i < |s| ==> s[i] == rest[i - 1];
    }
  }

  lemma {:induction false} StripRightFacts(s: string) returns (k: nat)
    ensures k <= |s| && StripRight(s) == s[..k]
    ensures forall i :: k <= i < |s| ==> IsSpace(s[i])
    ensures k > 0 ==> !IsSpace(s[k - 1])
  {
    hide IsSpace;
    k := |s|;
    if s != "" && IsSpace(s[|s| - 1]) {
      var front := s[..|s| - 1];
      k := StripRightFacts(front);
      assert front[..k] == s[..k];
      assert forall i :: 0 <= i < |front| ==> s[i] == front[i];
    }
  }

  /** Between which positions a string keeps its characters when it is stripped. */
  ghost predicate StrippedTo(s: string, from: int, to: int) {
    && 0 <= from <= to <= |s|
    && (forall i :: 0 <= i < |s| && (i < from || to <= i) ==> IsSpace(s[i]))
    && (from < to ==> !IsSpace(s[from]) && !IsSpace(s[to - 1]))
  }

  /** Stripping removes exactly the white space at both ends. */
  lemma StripTrims(s: string)
    ensures exists from, to :: StrippedTo(s, from, to) && Strip(s) == s[from..to]
  {
    hide IsSpace, StripLeft, StripRight;
    var k := StripLeftFacts(s);
    var t := s[k..];
    var n := StripRightFacts(t);
    assert t[..n] == s[k..k + n];
    assert forall i :: k <= i < |s| ==> s[i] == t[i - k];
    assert StrippedTo(s, k, k + n);
  }

  /** A value is present iff it has a character that is not white space. */
  lemma PresentIff(value: Option<string>)
    ensures Present(value) <==> value.Some? && exists i :: 0 <= i < |value.value| && !IsSpace(value.value[i])
  {
    hide IsSpace, Strip;
    if value.Some? {
      var s := value.value;
      StripTrims(s);
      var from, to :| StrippedTo(s, from, to) && Strip(s) == s[from..to];
      if from < to {
        assert !IsSpace(s[from]);
      }
    }
  }

  /** Lower-casing changes the capital letters, one by one, and nothing else. */
  lemma LowerLetters(s: string)
    ensures |Lower(s)| == |s|
    ensures forall i :: 0 <= i < |s| ==>
              if 'A' <= s[i] <= 'Z' then Lower(s)[i] as int == s[i] as int + 32 else Lower(s)[i] == s[i]
  {
  }
}
