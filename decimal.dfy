/**
 * How JavaScript prints an integer: `String(k)` and the `${n}` template
 * substitution used for button captions, the problem text, the right answer
 * and the score. Printing is paired with a reader that inverts it, so that
 * the app's habit of keying disabled answers by `String(answer)` can be shown
 * to identify integers exactly.
 */
module Decimal {
  import opened Wrappers

  predicate IsDigit(c: char) {
    '0' <= c <= '9'
  }

  predicate AllDigits(s: string) {
    forall i :: 0 <= i < |s| ==> IsDigit(s[i])
  }

  /** A numeral without a superfluous leading zero. */
  predicate Canonical(s: string) {
    |s| >= 1 && AllDigits(s) && (s[0] == '0' ==> |s| == 1)
  }

  function DigitValue(c: char): (d: nat)
    requires IsDigit(c)
    ensures d < 10
  {
    c as int - '0' as int
  }

  function Digit(d: nat): (c: char)
    requires d < 10
    ensures IsDigit(c) && DigitValue(c) == d
  {
    (d + '0' as int) as char
  }

  /** The decimal numeral of a non-negative integer, most significant digit first. */
  function NatString(n: nat): (r: string)
    ensures Canonical(r)
    ensures r[0] == '0' <==> n == 0
  {
    if n < 10 then [Digit(n)] else NatString(n / 10) + [Digit(n % 10)]
  }

  /** The value of a string of digits. */
  function ParseNat(s: string): nat
    requires AllDigits(s)
  {
    if s == [] then 0 else 10 * ParseNat(s[..|s| - 1]) + DigitValue(s[|s| - 1])
  }

  /** `String(i)` for an integer `i` (magnitudes below 10^21, where JavaScript switches to exponent form). */
  function Show(i: int): (r: string)
    ensures |r| >= 1
    ensures r[0] == '-' <==> i < 0
  {
    if i < 0 then "-" + NatString(-i) else NatString(i)
  }

  /** Reads back exactly the strings Show prints: an optional minus sign and a canonical numeral. */
  function Parse(s: string): Option<int> {
    if |s| >= 2 && s[0] == '-' && Canonical(s[1..]) && s[1] != '0' then Some(0 - ParseNat(s[1..]) as int)
    else if Canonical(s) then Some(ParseNat(s))
    else None
  }

  lemma {:induction false} ParseNatString(n: nat)
    ensures ParseNat(NatString(n)) == n
  {
    if n >= 10 {
      var r := NatString(n);
      ParseNatString(n / 10);
      assert r[..|r| - 1] == NatString(n / 10);
    }
  }

  lemma {:induction false} ParseNatPositive(s: string)
    requires |s| >= 1 && AllDigits(s) && s[0] != '0'
    ensures ParseNat(s) > 0
  {
    if |s| > 1 {
      var p := s[..|s| - 1];
      assert p[0] == s[0];
      ParseNatPositive(p);
    }
  }

  lemma {:induction false} NatStringParse(s: string)
    requires Canonical(s)
    ensures NatString(ParseNat(s)) == s
  {
    if |s| > 1 {
      var p := s[..|s| - 1];
      assert p[0] == s[0] && Canonical(p);
      ParseNatPositive(p);
      NatStringParse(p);
      var n := ParseNat(s);
      assert n / 10 == ParseNat(p) && n % 10 == DigitValue(s[|s| - 1]);
      assert s == p + [s[|s| - 1]];
    }
  }

  /** Every integer Show prints is read back as itself. */
  lemma ParseShow(i: int)
    ensures Parse(Show(i)) == Some(i)
  {
    if i < 0 {
      var r := Show(i);
      assert r[1..] == NatString(-i);
      ParseNatString(-i);
    } else {
      ParseNatString(i);
    }
  }

  /** Every string Parse accepts is exactly what Show prints for the value read. */
  lemma ShowParse(s: string)
    ensures Parse(s).Some? ==> Show(Parse(s).value) == s
  {
    if |s| >= 2 && s[0] == '-' && Canonical(s[1..]) && s[1] != '0' {
      ParseNatPositive(s[1..]);
      NatStringParse(s[1..]);
      assert s == "-" + s[1..];
    } else if Canonical(s) {
      NatStringParse(s);
    }
  }

  /** Distinct integers print as distinct strings, so a string-keyed table of integers is a set of integers. */
  lemma ShowInjective(i: int, j: int)
    ensures Show(i) == Show(j) <==> i == j
  {
    ParseShow(i);
    ParseShow(j);
  }
}
