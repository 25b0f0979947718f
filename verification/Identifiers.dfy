/** Numbered identifiers: a prefix followed by a zero-padded decimal number. */
module Identifiers {

  predicate IsDigit(c: char) {
    '0' <= c <= '9'
  }

  predicate AllDigits(s: string) {
    forall i :: 0 <= i < |s| ==> IsDigit(s[i])
  }

  function Decimal(n: nat): (s: string)
    ensures s != "" && AllDigits(s)
  {
    if n < 10 then ['0' + n as char] else Decimal(n / 10) + ['0' + (n % 10) as char]
  }

  function Zeros(k: nat): (s: string)
    ensures |s| == k && forall i :: 0 <= i < k ==> s[i] == '0'
  {
    seq(k, i => '0')
  }

  /** `f"{n:0{width}d}"` */
  function Padded(n: nat, width: nat): (s: string)
    ensures |s| >= width && s != "" && AllDigits(s)
  {
    var digits := Decimal(n);
    if |digits| >= width then digits else Zeros(width - |digits|) + digits
  }

  /** The number a digit string denotes. */
  function Value(s: string): nat
    requires AllDigits(s)
  {
    if s == "" then 0 else 10 * Value(s[..|s| - 1]) + (s[|s| - 1] - '0') as nat
  }

  lemma {:induction false} ValueOfDecimal(n: nat)
    ensures Value(Decimal(n)) == n
  {
    if n >= 10 {
      ValueOfDecimal(n / 10);
      assert Decimal(n)[..|Decimal(n)| - 1] == Decimal(n / 10);
    }
  }

  lemma {:induction false} LeadingZeros(k: nat, s: string)
    requires AllDigits(s)
    ensures AllDigits(Zeros(k) + s) && Value(Zeros(k) + s) == Value(s)
    decreases |s|, k
  {
    var t := Zeros(k) + s;
    if s != "" {
      LeadingZeros(k, s[..|s| - 1]);
      assert t[..|t| - 1] == Zeros(k) + s[..|s| - 1];
    } else if k > 0 {
      LeadingZeros(k - 1, s);
      assert t[..|t| - 1] == Zeros(k - 1) + s;
    }
  }

  /** Reading a padded number back gives the number, whatever the width. */
  lemma PaddedRoundTrip(n: nat, width: nat)
    ensures Value(Padded(n, width)) == n
  {
    hide Value, Decimal, Zeros;
    ValueOfDecimal(n);
    if |Decimal(n)| < width {
      LeadingZeros(width - |Decimal(n)|, Decimal(n));
    }
  }

  predicate EndsInNonDigit(s: string) {
    s != "" && !IsDigit(s[|s| - 1])
  }

  /** The digits at the end of a string can be taken off in one way only. */
  lemma DigitsSplitUniquely(a: string, p: string, b: string, q: string)
    requires EndsInNonDigit(a) && EndsInNonDigit(b) && AllDigits(p) && AllDigits(q)
    requires a + p == b + q
    ensures a == b && p == q
  {
    var s := a + p;
    assert s[|a| - 1] == a[|a| - 1] && s[|b| - 1] == b[|b| - 1];
    assert forall i :: |a| <= i < |s| ==> IsDigit(s[i]);
    assert forall i :: |b| <= i < |s| ==> IsDigit((b + q)[i]);
    assert |a| == |b|;
    assert a == s[..|a|] && b == (b + q)[..|b|];
    assert p == s[|a|..] && q == (b + q)[|b|..];
  }

  /** An owner, a separator and a number printed to some width. */
  function Numbered(owner: string, separator: string, n: nat, width: nat): string {
    owner + separator + Padded(n, width)
  }

  /** Numbered identifiers are injective in the owner and the number, for every owner and every number. */
  lemma NumberedInjective(owner: string, n: nat, owner': string, n': nat, separator: string, width: nat)
    requires EndsInNonDigit(separator)
    ensures Numbered(owner, separator, n, width) == Numbered(owner', separator, n', width) <==> owner == owner' && n == n'
  {
    hide Value, Padded;
    if Numbered(owner, separator, n, width) == Numbered(owner', separator, n', width) {
      DigitsSplitUniquely(owner + separator, Padded(n, width), owner' + separator, Padded(n', width));
      PaddedRoundTrip(n, width);
      PaddedRoundTrip(n', width);
      assert owner == (owner + separator)[..|owner + separator| - |separator|];
      assert owner' == (owner' + separator)[..|owner' + separator| - |separator|];
    }
  }
}
