/**
 * A supply of auxiliary-variable names. The Java code derives these names
 * from object identity strings; the model threads a counter instead and
 * builds `prefix + decimal(counter)`.
 */
module FreshNames {

  predicate IsDigit(c: char) {
    '0' <= c <= '9'
  }

  function DigitChar(d: nat): (c: char)
    requires d < 10
    ensures IsDigit(c)
  {
    "0123456789"[d]
  }

  /** Decimal rendering of a natural number. */
  function Digits(n: nat): (s: string)
    ensures |s| > 0 && forall i :: 0 <= i < |s| ==> IsDigit(s[i])
    decreases n
  {
    if n < 10 then [DigitChar(n)] else Digits(n / 10) + [DigitChar(n % 10)]
  }

  /** The name of the auxiliary variable of family `prefix` drawn at counter value `n`. */
  function FreshName(prefix: string, n: nat): (s: string)
    ensures |s| > |prefix| && s[..|prefix|] == prefix
  {
    prefix + Digits(n)
  }

  /** Two families whose prefixes differ at a common position never share a name. */
  lemma FamiliesDisjoint(p: string, q: string, n: nat, m: nat, k: nat)
    requires k < |p| && k < |q| && p[k] != q[k]
    ensures FreshName(p, n) != FreshName(q, m)
  {
    assert FreshName(p, n)[k] == p[k];
    assert FreshName(q, m)[k] == q[k];
  }

  /**
   * A family whose prefix extends another's by a non-digit never meets it:
   * at that position one name has a digit and the other does not.
   */
  lemma ExtendedFamilyDisjoint(p: string, q: string, n: nat, m: nat)
    requires |q| > 0 && !IsDigit(q[0])
    ensures FreshName(p, n) != FreshName(p + q, m)
  {
    assert FreshName(p, n)[|p|] == Digits(n)[0];
    assert FreshName(p + q, m)[|p|] == q[0];
  }
}
