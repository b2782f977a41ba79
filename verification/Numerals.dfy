/** Reading numerals: the last character of a text is never taken for a further digit. */
module Numerals {
  import opened Wrappers
  import opened Tokens
  import opened Decimal
  import opened Lexing

  /** The text goes on with something that is no part of a number. */
  predicate EndsNumber(r: string)
  {
    r == "" || !(IsAlpha(r[0]) || IsDigit(r[0]) || r[0] == '.')
  }

  lemma {:induction false} DigitsLenOf(w: string, r: string)
    requires AllDigits(w) && w != "" && EndsNumber(r)
    ensures DigitsLen(w + r) == if r == "" && |w| > 1 then |w| - 1 else |w|
    decreases |w|
  {
    var s := w + r;
    if |s| > 2 && |w| > 1 {
      assert s[1..] == w[1..] + r;
      DigitsLenOf(w[1..], r);
    }
  }

  /** A numeral is read as one token if and only if something follows it or it has one digit. */
  lemma NumeralReadIff(w: string, r: string)
    requires AllDigits(w) && w != "" && EndsNumber(r)
    ensures Step(w + r) == (Some(Token(Num, w)), |w|) <==> r != "" || |w| == 1
    ensures r == "" && |w| > 1 ==> Step(w + r) == (Some(Token(Num, w[..|w| - 1])), |w| - 1)
  {
    var s, n := w + r, if r == "" && |w| > 1 then |w| - 1 else |w|;
    DigitsLenOf(w, r);
    assert IsDigit(s[0]) && NumberLen(s) == n;
    assert s[..n] == w[..n] && w[..|w|] == w;
  }

  lemma LexFirst(s: string, w: string, r: string)
    requires s == w + r && w != "" && Step(s).0 == Some(Token(Num, w)) && Step(s).1 == |w|
    ensures Lex(s) == [Token(Num, w)] + Lex(r)
  {
    ScanStep(STEP, s);
    assert s[|w|..] == r;
  }

  /** A number printed in front of some text is read back as one token, before the text's own, if and only if
      there is such a text or the number has one digit. */
  lemma NumeralLexIff(n: nat, r: string)
    requires EndsNumber(r)
    ensures Lex(Show(n) + r) == [Token(Num, Show(n))] + Lex(r) <==> r != "" || n < 10
  {
    var w := Show(n);
    NumeralReadIff(w, r);
    ShowLength(n);
    if r != "" || n < 10 {
      LexFirst(w + r, w, r);
    } else {
      LastDigitIsCut(n);
      assert w + r == w && Lex(r) == [];
    }
  }

  lemma ShowLength(n: nat)
    ensures |Show(n)| == 1 <==> n < 10
  {
  }

  /** At the very end of a text the last digit of a number becomes a number of its own. */
  lemma LastDigitIsCut(n: nat)
    requires n >= 10
    ensures Lex(Show(n)) == [Token(Num, Show(n / 10)), Token(Num, [Digit(n % 10)])]
  {
    var w, last := Show(n / 10), [Digit(n % 10)];
    assert Show(n) == w + last && Show(n) + "" == Show(n) && last + "" == last;
    ShowLength(n);
    NumeralReadIff(Show(n), "");
    assert Show(n)[..|Show(n)| - 1] == w;
    LexFirst(Show(n), w, last);
    NumeralReadIff(last, "");
    LexFirst(last, last, "");
    assert Lex("") == [];
  }

  /** The whole text is one number's: it is read back if and only if it has one digit. */
  lemma NumeralAloneIff(n: nat)
    ensures Lex(Show(n)) == [Token(Num, Show(n))] <==> n < 10
  {
    NumeralLexIff(n, "");
    assert Show(n) + "" == Show(n) && Lex("") == [] && [Token(Num, Show(n))] + [] == [Token(Num, Show(n))];
  }
}
