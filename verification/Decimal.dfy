/** Decimal numerals, as printed in array types and read back by the parser. */
module Decimal {
  predicate IsDigit(c: char)
  {
    '0' <= c <= '9'
  }

  function Digit(n: nat): (c: char)
    requires n < 10
    ensures IsDigit(c) && DigitValue(c) == n
  {
    '0' + n as char
  }

  function DigitValue(c: char): (n: nat)
    requires IsDigit(c)
    ensures n < 10
  {
    c as nat - '0' as nat
  }

  predicate AllDigits(s: string)
  {
    forall i | 0 <= i < |s| :: IsDigit(s[i])
  }

  function Show(n: nat): (s: string)
    ensures AllDigits(s) && s != ""
  {
    if n < 10 then [Digit(n)] else Show(n / 10) + [Digit(n % 10)]
  }

  function Read(s: string): nat
    requires AllDigits(s)
  {
    if s == "" then 0 else Read(s[..|s| - 1]) * 10 + DigitValue(s[|s| - 1])
  }

  /** The number of leading digits. */
  function Leading(s: string): (k: nat)
    ensures k <= |s| && AllDigits(s[..k]) && (k < |s| ==> !IsDigit(s[k]))
  {
    if s == "" || !IsDigit(s[0]) then 0 else
      var k := 1 + Leading(s[1..]);
      assert s[..k] == [s[0]] + s[1..][..k - 1];
      k
  }

  /** The number a numeral starts with; a suffix is ignored. */
  function ReadLeading(s: string): nat
  {
    Read(s[..Leading(s)])
  }

  lemma {:induction false} ReadShow(n: nat)
    ensures Read(Show(n)) == n
  {
    if n >= 10 {
      ReadShow(n / 10);
      assert Show(n)[..|Show(n)| - 1] == Show(n / 10);
    }
  }

  /** A numeral followed by something else is read off unambiguously. */
  lemma {:induction false} LeadingShow(s: string, r: string)
    requires AllDigits(s) && (r == "" || !IsDigit(r[0]))
    ensures Leading(s + r) == |s|
  {
    if s != "" {
      assert (s + r)[1..] == s[1..] + r;
      LeadingShow(s[1..], r);
    } else {
      assert s + r == r;
    }
  }

  lemma ShowUnambiguous(m: nat, n: nat, r: string, q: string)
    requires Show(m) + r == Show(n) + q
    requires r == "" || !IsDigit(r[0])
    requires q == "" || !IsDigit(q[0])
    ensures m == n && r == q
  {
    LeadingShow(Show(m), r);
    LeadingShow(Show(n), q);
    assert Show(m) == (Show(m) + r)[..|Show(m)|] == Show(n);
    assert r == (Show(m) + r)[|Show(m)|..] == q;
    ReadShow(m);
    ReadShow(n);
  }
}
