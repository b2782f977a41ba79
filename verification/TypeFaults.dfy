/** The errors the type parser reports.  They are counted at once, so that taking a speculation back does not
    take its errors back. */
module TypeFaults {
  import opened Wrappers
  import opened Tokens
  import opened TypeExprs
  import opened TypeGrammar

  // ---------- How many errors are reported ----------

  function TypeErrors(ts: seq<Token>): nat
    decreases |ts|, 1
  {
    match Peek(ts)
    case Tick => if Peek(ts[1..]) == Ptr then PointerErrors(ts[1..], true) else 1
    case Ptr => PointerErrors(ts, false)
    case LeftBracket => ArrayErrors(ts[1..])
    case LeftParen => ParensErrors(ts[1..])
    case Id => NameErrors(ts)
    case _ => 0
  }

  function PointerErrors(ts: seq<Token>, linear: bool): nat
    requires Peek(ts) == Ptr
    decreases |ts|, 0
  {
    if Peek(ts[1..]) != Less then 1
    else TypeErrors(ts[2..]) + if ParsePointer(ts, linear).0.None? then 1 else 0
  }

  function ArrayErrors(ts: seq<Token>): nat
    decreases |ts|, 0
  {
    if Peek(ts) != Num || Peek(ts[1..]) != RightBracket then 1
    else TypeErrors(ts[2..]) + if ParseType(ts[2..]).0.None? then 1 else 0
  }

  function ParensErrors(ts: seq<Token>): nat
    decreases |ts|, 3
  {
    if Peek(ts) == RightParen then AfterListErrors([], ts)
    else
      var (types, ok, rest) := ParseList(ts);
      ListErrors(ts) + if ok then AfterListErrors(types, rest) else 1
  }

  function AfterListErrors(types: seq<TypeExpr>, ts: seq<Token>): nat
    decreases |ts|, 0
  {
    if Peek(ts) != RightParen then 1
    else if Peek(ts[1..]) == Arrow then TypeErrors(ts[2..]) + if ParseType(ts[2..]).0.None? then 1 else 0
    else if |types| >= 2 then 0
    else 1
  }

  /** A name reports nothing itself, whether or not its type arguments are taken back. */
  function NameErrors(ts: seq<Token>): nat
    requires Peek(ts) == Id
    decreases |ts|, 0
  {
    var rest := NameTail([ts[0].lexeme], ts[1..]).1;
    if Peek(rest) == Less then ListErrors(rest[1..]) else 0
  }

  function ListErrors(ts: seq<Token>): nat
    decreases |ts|, 2
  {
    var (first, rest) := ParseType(ts);
    TypeErrors(ts) + if first.None? then 0 else TailErrors(rest)
  }

  function TailErrors(ts: seq<Token>): nat
    decreases |ts|, 0
  {
    if Peek(ts) != Comma then 0
    else
      var (next, rest) := ParseType(ts[1..]);
      TypeErrors(ts[1..]) + if next.None? then 0 else TailErrors(rest)
  }

  // ---------- Where the parser tries to read a type ----------

  function TypeTries(ts: seq<Token>): (r: set<seq<Token>>)
    ensures ts in r
    decreases |ts|, 1
  {
    {ts} +
    match Peek(ts)
    case Tick => if Peek(ts[1..]) == Ptr then PointerTries(ts[1..]) else {}
    case Ptr => PointerTries(ts)
    case LeftBracket => ArrayTries(ts[1..])
    case LeftParen => ParensTries(ts[1..])
    case Id => NameTries(ts)
    case _ => {}
  }

  function PointerTries(ts: seq<Token>): set<seq<Token>>
    requires Peek(ts) == Ptr
    decreases |ts|, 0
  {
    if Peek(ts[1..]) != Less then {} else TypeTries(ts[2..])
  }

  function ArrayTries(ts: seq<Token>): set<seq<Token>>
    decreases |ts|, 0
  {
    if Peek(ts) != Num || Peek(ts[1..]) != RightBracket then {} else TypeTries(ts[2..])
  }

  function ParensTries(ts: seq<Token>): set<seq<Token>>
    decreases |ts|, 3
  {
    if Peek(ts) == RightParen then AfterListTries(ts)
    else
      var (types, ok, rest) := ParseList(ts);
      ListTries(ts) + if ok then AfterListTries(rest) else {}
  }

  function AfterListTries(ts: seq<Token>): set<seq<Token>>
    decreases |ts|, 0
  {
    if Peek(ts) == RightParen && Peek(ts[1..]) == Arrow then TypeTries(ts[2..]) else {}
  }

  function NameTries(ts: seq<Token>): set<seq<Token>>
    requires Peek(ts) == Id
    decreases |ts|, 0
  {
    var rest := NameTail([ts[0].lexeme], ts[1..]).1;
    if Peek(rest) == Less then ListTries(rest[1..]) else {}
  }

  function ListTries(ts: seq<Token>): set<seq<Token>>
    decreases |ts|, 2
  {
    var (first, rest) := ParseType(ts);
    TypeTries(ts) + if first.None? then {} else TailTries(rest)
  }

  function TailTries(ts: seq<Token>): set<seq<Token>>
    decreases |ts|, 0
  {
    if Peek(ts) != Comma then {}
    else
      var (next, rest) := ParseType(ts[1..]);
      TypeTries(ts[1..]) + if next.None? then {} else TailTries(rest)
  }

  // ---------- An error for each type given up halfway ----------

  /** Reading a type fails after at least one of its tokens. */
  predicate FailsHalfway(ts: seq<Token>)
  {
    ParseType(ts).0.None? && |ParseType(ts).1| < |ts|
  }

  predicate SomeHalfway(tries: set<seq<Token>>)
  {
    exists ts | ts in tries :: FailsHalfway(ts)
  }

  lemma HalfwayUnion(a: set<seq<Token>>, b: set<seq<Token>>)
    ensures SomeHalfway(a + b) <==> SomeHalfway(a) || SomeHalfway(b)
  {
    if SomeHalfway(a) {
      var ts :| ts in a && FailsHalfway(ts);
      assert ts in a + b;
    }
    if SomeHalfway(b) {
      var ts :| ts in b && FailsHalfway(ts);
      assert ts in a + b;
    }
  }

  /** Reading a type leaves an error behind if and only if it, or one of the types read on the way, in speculation or
      not, fails after at least one token; whether the type itself is read does not matter. */
  lemma {:induction false} TypeErrorsIff(ts: seq<Token>)
    ensures TypeErrors(ts) > 0 <==> SomeHalfway(TypeTries(ts))
    decreases |ts|, 2
  {
    match Peek(ts)
    case Tick =>
      if Peek(ts[1..]) == Ptr {
        PointerErrorsIff(ts[1..], true);
        HalfwayUnion({ts}, PointerTries(ts[1..]));
      } else {
        assert FailsHalfway(ts);
      }
    case Ptr =>
      PointerErrorsIff(ts, false);
      HalfwayUnion({ts}, PointerTries(ts));
    case LeftBracket =>
      ArrayErrorsIff(ts[1..]);
      HalfwayUnion({ts}, ArrayTries(ts[1..]));
    case LeftParen =>
      ParensErrorsIff(ts[1..]);
      HalfwayUnion({ts}, ParensTries(ts[1..]));
    case Id =>
      NameErrorsIff(ts);
      HalfwayUnion({ts}, NameTries(ts));
    case _ =>
  }

  lemma {:induction false} PointerErrorsIff(ts: seq<Token>, linear: bool)
    requires Peek(ts) == Ptr
    ensures PointerErrors(ts, linear) > 0 <==> ParsePointer(ts, linear).0.None? || SomeHalfway(PointerTries(ts))
    decreases |ts|, 1
  {
    if Peek(ts[1..]) == Less {
      TypeErrorsIff(ts[2..]);
    }
  }

  lemma {:induction false} ArrayErrorsIff(ts: seq<Token>)
    ensures ArrayErrors(ts) > 0 <==> ParseArray(ts).0.None? || SomeHalfway(ArrayTries(ts))
    decreases |ts|, 1
  {
    if Peek(ts) == Num && Peek(ts[1..]) == RightBracket {
      TypeErrorsIff(ts[2..]);
    }
  }

  lemma {:induction false} ParensErrorsIff(ts: seq<Token>)
    ensures ParensErrors(ts) > 0 <==> ParseParens(ts).0.None? || SomeHalfway(ParensTries(ts))
    decreases |ts|, 4
  {
    if Peek(ts) == RightParen {
      AfterListErrorsIff([], ts);
    } else {
      var (types, ok, rest) := ParseList(ts);
      ListErrorsIff(ts);
      if ok {
        AfterListErrorsIff(types, rest);
        HalfwayUnion(ListTries(ts), AfterListTries(rest));
      }
    }
  }

  lemma {:induction false} AfterListErrorsIff(types: seq<TypeExpr>, ts: seq<Token>)
    ensures AfterListErrors(types, ts) > 0 <==> ParseAfterList(types, ts).0.None? || SomeHalfway(AfterListTries(ts))
    decreases |ts|, 0
  {
    if Peek(ts) == RightParen && Peek(ts[1..]) == Arrow {
      TypeErrorsIff(ts[2..]);
    }
  }

  /** A speculation that is taken back leaves an error exactly if a type in it failed after at least one token. */
  lemma {:induction false} NameErrorsIff(ts: seq<Token>)
    requires Peek(ts) == Id
    ensures NameErrors(ts) > 0 <==> SomeHalfway(NameTries(ts))
    decreases |ts|, 1
  {
    var rest := NameTail([ts[0].lexeme], ts[1..]).1;
    if Peek(rest) == Less {
      ListErrorsIff(rest[1..]);
    }
  }

  lemma {:induction false} ListErrorsIff(ts: seq<Token>)
    ensures ListErrors(ts) > 0 <==> SomeHalfway(ListTries(ts))
    decreases |ts|, 3
  {
    var (first, rest) := ParseType(ts);
    TypeErrorsIff(ts);
    if first.Some? {
      TailErrorsIff(rest);
      HalfwayUnion(TypeTries(ts), TailTries(rest));
    }
  }

  lemma {:induction false} TailErrorsIff(ts: seq<Token>)
    ensures TailErrors(ts) > 0 <==> SomeHalfway(TailTries(ts))
    decreases |ts|, 0
  {
    if Peek(ts) == Comma {
      var (next, rest) := ParseType(ts[1..]);
      TypeErrorsIff(ts[1..]);
      if next.Some? {
        TailErrorsIff(rest);
        HalfwayUnion(TypeTries(ts[1..]), TailTries(rest));
      }
    }
  }

  /** `n < (m)`: the type `n` is read and the rest taken back, but an error stays. */
  lemma LessLeavesError(n: Token, less: Token, open: Token, m: Token, close: Token)
    requires n.kind == m.kind == Id && less.kind == Less && open.kind == LeftParen && close.kind == RightParen
    ensures var ts := [n, less, open, m, close];
            ParseType(ts) == (Some(Named([n.lexeme], None)), ts[1..]) && TypeErrors(ts) == 1
  {
    var ts, rest := [n, less, open, m, close], [open] + [m, close];
    assert ts[1..] == [less] + rest && ts[1..][1..] == rest;
    OneInParens(open, m, close);
    NoList(rest);
    TakenBack(ts);
  }

  /** A name and a `<` with nothing that can be a type after it. */
  lemma TakenBack(ts: seq<Token>)
    requires Peek(ts) == Id && Peek(ts[1..]) == Less
    requires ParseList(ts[1..][1..]) == ([], false, []) && ListErrors(ts[1..][1..]) == 1
    ensures ParseType(ts) == (Some(Named([ts[0].lexeme], None)), ts[1..]) && TypeErrors(ts) == 1
  {
    assert NameTail([ts[0].lexeme], ts[1..]) == ([ts[0].lexeme], ts[1..]);
    assert ParseName(ts) == (Some(Named([ts[0].lexeme], None)), ts[1..]) && NameErrors(ts) == 1;
  }

  lemma NoList(ts: seq<Token>)
    requires ParseType(ts) == (None, []) && TypeErrors(ts) == 1
    ensures ParseList(ts) == ([], false, []) && ListErrors(ts) == 1
  {
  }

  lemma OneInParens(open: Token, m: Token, close: Token)
    requires m.kind == Id && open.kind == LeftParen && close.kind == RightParen
    ensures ParseType([open] + [m, close]) == (None, []) && TypeErrors([open] + [m, close]) == 1
  {
    var inner := [m, close];
    assert ([open] + inner)[1..] == inner && inner[1..] == [close] && [close][1..] == [];
    assert ParseType(inner) == (Some(Named([m.lexeme], None)), [close]) && TypeErrors(inner) == 0;
    assert ParseList(inner) == ([Named([m.lexeme], None)], true, [close]) && ListErrors(inner) == 0;
    assert ParseParens(inner) == (None, []) && ParensErrors(inner) == 1;
  }
}
