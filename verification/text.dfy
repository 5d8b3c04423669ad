/** Substring tests on the status message, as Rust's `str::contains` does them. */
module Text {

  /** `sub` occurs in `s` starting at index `i`. */
  predicate OccursAt(s: string, sub: string, i: nat)
  {
    i + |sub| <= |s| && s[i..i + |sub|] == sub
  }

  /** `sub` occurs somewhere in `s` (the empty string occurs in every string). */
  predicate Contains(s: string, sub: string)
  {
    exists i: nat :: i <= |s| - |sub| && OccursAt(s, sub, i)
  }

  /** A string contains each of its prefixes. */
  lemma PrefixContained(p: string, rest: string)
    ensures Contains(p + rest, p)
  {
    assert OccursAt(p + rest, p, 0);
  }

  /** If some character of `sub` never appears in `s`, then `sub` does not occur in `s`. */
  lemma MissingCharNotContained(s: string, sub: string, k: nat)
    requires k < |sub| && sub[k] !in s
    ensures !Contains(s, sub)
  {
  }

  /** Occurrence is transitive: a string that contains `mid` contains everything `mid` contains. */
  lemma ContainsTransitive(s: string, mid: string, sub: string)
    requires Contains(s, mid) && Contains(mid, sub)
    ensures Contains(s, sub)
  {
    var i: nat :| i <= |s| - |mid| && OccursAt(s, mid, i);
    var j: nat :| j <= |mid| - |sub| && OccursAt(mid, sub, j);
    assert s[i..i + |mid|] == mid;
    forall k | 0 <= k < |sub|
      ensures s[i + j..i + j + |sub|][k] == sub[k]
    {
      assert mid[j..j + |sub|][k] == mid[j + k];
      assert s[i..i + |mid|][j + k] == s[i + j + k];
    }
    assert OccursAt(s, sub, i + j);
  }

  /**
   * An occurrence in `a + b` lies in `a`, in `b`, or straddles the seam; when the first character
   * of `sub` is absent from `a`, it can only lie in `b`.
   */
  lemma ContainsSplit(a: string, b: string, sub: string)
    requires |sub| > 0 && sub[0] !in a
    requires Contains(a + b, sub)
    ensures Contains(b, sub)
  {
    var i: nat :| i <= |a + b| - |sub| && OccursAt(a + b, sub, i);
    assert (a + b)[i] == sub[0];
    assert i >= |a|;
    var j: nat := i - |a|;
    assert (a + b)[i..i + |sub|] == b[j..j + |sub|];
    assert OccursAt(b, sub, j);
  }

  /** The character of a decimal digit. */
  function DigitChar(d: nat): (c: char)
    requires d < 10
    ensures '0' <= c <= '9'
    ensures DigitValue(c) == d
  {
    ('0' as int + d) as char
  }

  /** The digit a decimal character stands for (0 for any other character). */
  function DigitValue(c: char): nat
  {
    if '0' <= c <= '9' then c as int - '0' as int else 0
  }

  /** Every character is a decimal digit, and there is at least one. */
  predicate IsDecimal(s: string)
  {
    |s| > 0 && forall i :: 0 <= i < |s| ==> '0' <= s[i] <= '9'
  }

  /** The number a string of decimal digits denotes, most significant digit first. */
  function DecimalValue(s: string): nat
  {
    if s == [] then 0 else DecimalValue(s[..|s| - 1]) * 10 + DigitValue(s[|s| - 1])
  }

  /** Decimal rendering of a natural number: only zero itself starts with '0'. */
  function NatString(n: nat): (s: string)
    ensures IsDecimal(s)
    ensures (s[0] == '0') == (n == 0)
  {
    if n < 10 then [DigitChar(n)] else NatString(n / 10) + [DigitChar(n % 10)]
  }

  /** The digits `NatString` writes denote the number they render. */
  lemma {:induction false} NatStringValue(n: nat)
    ensures DecimalValue(NatString(n)) == n
  {
    var s := NatString(n);
    if n < 10 {
      assert s[..|s| - 1] == [];
    } else {
      assert s[..|s| - 1] == NatString(n / 10);
      NatStringValue(n / 10);
    }
  }

  /** Decimal rendering of an integer, as `{}` formats an `i32`: a minus sign for negatives, then the magnitude's digits. */
  function IntString(n: int): (s: string)
    ensures |s| > 0
    ensures (s[0] == '-') == (n < 0)
    ensures n >= 0 ==> IsDecimal(s) && DecimalValue(s) == n
    ensures n < 0 ==> IsDecimal(s[1..]) && DecimalValue(s[1..]) == -n
  {
    var digits := if n < 0 then NatString(-n) else NatString(n);
    NatStringValue(if n < 0 then -n else n);
    if n < 0 then
      assert ("-" + digits)[1..] == digits;
      "-" + digits
    else digits
  }
}
