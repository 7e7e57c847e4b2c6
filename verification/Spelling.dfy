/** Spellings: which names the renaming pass never touches, which names can come
    from source text, and how a minted name is spelled. */
module Spelling {

  /** The path keywords that the pass maps to themselves. */
  predicate IsKeyword(name: string) {
    name == "self" || name == "super" || name == "package" || name == "Self"
  }

  predicate IsAlpha(c: char) {
    'a' <= c <= 'z' || 'A' <= c <= 'Z'
  }

  predicate IsDigit(c: char) {
    '0' <= c <= '9'
  }

  predicate IsWordChar(c: char) {
    IsAlpha(c) || IsDigit(c) || c == '_'
  }

  /** What the lexer can make a name of. */
  predicate IsWord(name: string) {
    name != "" && forall c <- name :: IsWordChar(c)
  }

  /** Identifiers are letters, digits and underscores, so source text cannot
      spell the separator of a minted name. */
  predicate IsSource(name: string) {
    '$' !in name
  }

  function Digit(d: nat): char
    requires d < 10
  {
    "0123456789"[d]
  }

  function Decimal(n: nat): (s: string)
    ensures s != []
  {
    if n < 10 then [Digit(n)] else Decimal(n / 10) + [Digit(n % 10)]
  }

  function Minted(orig: string, n: nat): (s: string)
    ensures !IsSource(s)
  {
    assert (orig + "$" + Decimal(n))[|orig|] == '$';
    orig + "$" + Decimal(n)
  }

  lemma DigitInjective(d: nat, e: nat)
    requires d < 10 && e < 10 && Digit(d) == Digit(e)
    ensures d == e
  {
    var digits := "0123456789";
    assert forall i, j :: 0 <= i < j < 10 ==> digits[i] != digits[j];
  }

  lemma {:induction false} DecimalInjective(m: nat, n: nat)
    requires Decimal(m) == Decimal(n)
    ensures m == n
  {
    if m < 10 && n < 10 {
      DigitInjective(m, n);
    } else if m < 10 || n < 10 {
      assert false;
    } else {
      var s, t := Decimal(m), Decimal(n);
      assert s[..|s| - 1] == Decimal(m / 10) && t[..|t| - 1] == Decimal(n / 10);
      DecimalInjective(m / 10, n / 10);
      assert s[|s| - 1] == Digit(m % 10) && t[|t| - 1] == Digit(n % 10);
      DigitInjective(m % 10, n % 10);
    }
  }

  lemma SeparatorAt(a: string, n: nat)
    requires IsSource(a)
    ensures |Minted(a, n)| > |a| && Minted(a, n)[|a|] == '$'
    ensures forall k :: 0 <= k < |a| ==> Minted(a, n)[k] == a[k] != '$'
  {
  }

  /** Two minted names agree only when both the name and the number agree. */
  lemma MintedInjective(a: string, m: nat, b: string, n: nat)
    requires IsSource(a) && IsSource(b)
    requires Minted(a, m) == Minted(b, n)
    ensures a == b && m == n
  {
    SeparatorAt(a, m);
    SeparatorAt(b, n);
    var s := Minted(a, m);
    assert |a| == |b|;
    assert a == s[..|a|] == b;
    assert s[|a| + 1..] == Decimal(m) && s[|a| + 1..] == Decimal(n);
    DecimalInjective(m, n);
  }
}
