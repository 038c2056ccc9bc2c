/** The bits of .NET string handling the editor relies on. */
module Strings {

  /** The digit character for d. */
  function Digit(d: nat): (c: char)
    requires d < 10
    ensures '0' <= c <= '9'
  {
    "0123456789"[d]
  }

  /** Distinct digits are distinct characters. */
  lemma DigitInjective(d: nat, e: nat)
    requires d < 10 && e < 10 && Digit(d) == Digit(e)
    ensures d == e
  {
  }

  /** n.ToString(): the decimal digits of n, most significant first, without leading zeros. */
  function DecimalString(n: nat): (s: string)
    ensures |s| >= 1
    ensures n < 10 <==> |s| == 1
    ensures forall i :: 0 <= i < |s| ==> '0' <= s[i] <= '9'
  {
    if n < 10 then [Digit(n)] else DecimalString(n / 10) + [Digit(n % 10)]
  }

  /** Different numbers print differently. */
  lemma {:induction false} DecimalStringInjective(n: nat, m: nat)
    requires DecimalString(n) == DecimalString(m)
    ensures n == m
  {
    var s, t := DecimalString(n), DecimalString(m);
    if n < 10 || m < 10 {
      assert n < 10 && m < 10;
      DigitInjective(n, m);
    } else {
      assert s[..|s| - 1] == DecimalString(n / 10);
      assert t[..|t| - 1] == DecimalString(m / 10);
      DecimalStringInjective(n / 10, m / 10);
      DigitInjective(n % 10, m % 10);
    }
  }

  /** `needle` occurs in `s` starting at position i. */
  predicate OccursAt(s: string, needle: string, i: int) {
    0 <= i <= |s| - |needle| && s[i..i + |needle|] == needle
  }

  /** String.Contains: `needle` occurs in `s` at some position (the empty string occurs everywhere). */
  predicate Contains(s: string, needle: string) {
    exists i :: 0 <= i <= |s| - |needle| && OccursAt(s, needle, i)
  }

  /** A string contains each of its prefixes. */
  lemma ContainsPrefix(prefix: string, rest: string)
    ensures Contains(prefix + rest, prefix)
  {
    assert OccursAt(prefix + rest, prefix, 0);
  }
}
