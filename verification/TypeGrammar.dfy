/** What the type parser computes from the tokens that are left, and why it reads back what is printed. */
module TypeGrammar {
  import opened Wrappers
  import opened Tokens
  import opened TypeExprs
  import Decimal

  /** The kind of the next token; the end-of-file token itself is left out of `rest`. */
  function Peek(rest: seq<Token>): TokenType
  {
    if rest == [] then Eof else rest[0].kind
  }

  // ---------- Glued closing brackets ----------

  const GREATER := Token(Greater, ">")
  const ASSIGN := Token(Assign, "=")

  /** The lexer glues a `>` to a following `>` or `=`; this takes such tokens apart. */
  function UnglueToken(t: Token): seq<Token>
  {
    if t.kind == Shr then [GREATER, GREATER]
    else if t.kind == GreaterEqual then [GREATER, ASSIGN]
    else [t]
  }

  function Unglue(ts: seq<Token>): (r: seq<Token>)
    ensures |r| >= |ts|
  {
    if ts == [] then [] else UnglueToken(ts[0]) + Unglue(ts[1..])
  }

  /** Consume one `>`, splitting the token it is glued into. */
  function Close(rest: seq<Token>): (r: Option<seq<Token>>)
    ensures r.Some? ==> |r.value| <= |rest|
  {
    match Peek(rest)
    case Greater => Some(rest[1..])
    case Shr => Some([GREATER] + rest[1..])
    case GreaterEqual => Some([ASSIGN] + rest[1..])
    case _ => None
  }

  // ---------- Parsing ----------

  /** The remaining parts of a qualified name; a `::` without a name after it is left alone. */
  function NameTail(parts: seq<string>, rest: seq<Token>): (r: (seq<string>, seq<Token>))
    ensures |r.1| <= |rest|
    decreases |rest|
  {
    if Peek(rest) == DoubleColon && Peek(rest[1..]) == Id then
      NameTail(parts + [rest[1].lexeme], rest[2..])
    else (parts, rest)
  }

  /** Parse a type; the second component is what is left, also after a failure. */
  function ParseType(rest: seq<Token>): (r: (Option<TypeExpr>, seq<Token>))
    ensures |r.1| <= |rest|
    ensures r.0.Some? ==> |r.1| < |rest|
    decreases |rest|, 1
  {
    match Peek(rest)
    case Tick => if Peek(rest[1..]) == Ptr then ParsePointer(rest[1..], true) else (None, rest[1..])
    case Ptr => ParsePointer(rest, false)
    case LeftBracket => ParseArray(rest[1..])
    case LeftParen => ParseParens(rest[1..])
    case Id => ParseName(rest)
    case _ => (None, rest)
  }

  function ParseParens(rest: seq<Token>): (r: (Option<TypeExpr>, seq<Token>))
    ensures |r.1| <= |rest|
    decreases |rest|, 3
  {
    if Peek(rest) == RightParen then ParseAfterList([], rest)
    else
      var (types, ok, rest1) := ParseList(rest);
      if ok then ParseAfterList(types, rest1) else (None, rest1)
  }

  /** A name; a `<` after it opens type arguments, unless they cannot be read. */
  function ParseName(rest: seq<Token>): (r: (Option<TypeExpr>, seq<Token>))
    requires Peek(rest) == Id
    ensures |r.1| < |rest|
    decreases |rest|, 0
  {
    var (parts, rest1) := NameTail([rest[0].lexeme], rest[1..]);
    if Peek(rest1) != Less then (Some(Named(parts, None)), rest1)
    else
      var (args, ok, rest2) := ParseList(rest1[1..]);
      if ok && Close(rest2).Some? then (Some(Applied(parts, args)), Close(rest2).value)
      else (Some(Named(parts, None)), rest1)
  }

  function ParsePointer(rest: seq<Token>, linear: bool): (r: (Option<TypeExpr>, seq<Token>))
    requires Peek(rest) == Ptr
    ensures |r.1| < |rest|
    decreases |rest|, 0
  {
    if Peek(rest[1..]) != Less then (None, rest[1..])
    else
      var (inner, rest1) := ParseType(rest[2..]);
      if inner.None? || Close(rest1).None? then (None, rest1)
      else (Some(PointerTo(inner.value, linear)), Close(rest1).value)
  }

  function ParseArray(rest: seq<Token>): (r: (Option<TypeExpr>, seq<Token>))
    ensures |r.1| <= |rest|
    decreases |rest|, 0
  {
    if Peek(rest) != Num then (None, rest)
    else if Peek(rest[1..]) != RightBracket then (None, rest[1..])
    else
      var (element, rest1) := ParseType(rest[2..]);
      if element.None? then (None, rest1)
      else (Some(ArrayOf(element.value, Decimal.ReadLeading(rest[0].lexeme))), rest1)
  }

  /** After the types in parentheses: an arrow makes a function, two or more types make a tuple. */
  function ParseAfterList(types: seq<TypeExpr>, rest: seq<Token>): (r: (Option<TypeExpr>, seq<Token>))
    ensures |r.1| <= |rest|
    decreases |rest|, 0
  {
    if Peek(rest) != RightParen then (None, rest)
    else if Peek(rest[1..]) == Arrow then
      var (result, rest1) := ParseType(rest[2..]);
      if result.None? then (None, rest1) else (Some(FunctionOf(types, result.value)), rest1)
    else if |types| >= 2 then (Some(TupleOf(types)), rest[1..])
    else (None, rest[1..])
  }

  function ParseList(rest: seq<Token>): (r: (seq<TypeExpr>, bool, seq<Token>))
    ensures |r.2| <= |rest|
    ensures r.1 ==> |r.2| < |rest| && r.0 != []
    decreases |rest|, 2
  {
    var (first, rest1) := ParseType(rest);
    if first.None? then ([], false, rest1) else ParseListTail([first.value], rest1)
  }

  function ParseListTail(types: seq<TypeExpr>, rest: seq<Token>): (r: (seq<TypeExpr>, bool, seq<Token>))
    ensures |r.2| <= |rest|
    ensures types != [] ==> r.0 != []
    decreases |rest|, 0
  {
    if Peek(rest) != Comma then (types, true, rest)
    else
      var (next, rest1) := ParseType(rest[1..]);
      if next.None? then (types, false, rest1) else ParseListTail(types + [next.value], rest1)
  }

  // ---------- Gluing makes no difference ----------

  lemma UnglueCons(t: Token, ts: seq<Token>)
    ensures Unglue([t] + ts) == UnglueToken(t) + Unglue(ts)
  {
    assert ([t] + ts)[1..] == ts;
  }

  /** A token other than a glued one is still there after ungluing. */
  lemma PeekUnglue(ts: seq<Token>)
    ensures Peek(Unglue(ts)) == (if Peek(ts) == Shr || Peek(ts) == GreaterEqual then Greater else Peek(ts))
    ensures ts != [] && Peek(ts) != Shr && Peek(ts) != GreaterEqual ==>
              Unglue(ts)[0] == ts[0] && Unglue(ts)[1..] == Unglue(ts[1..])
  {
  }

  lemma SecondUnglue(ts: seq<Token>)
    requires |ts| >= 2 && forall i | 0 <= i < 2 :: ts[i].kind != Shr && ts[i].kind != GreaterEqual
    ensures |Unglue(ts)| >= 2 && Unglue(ts)[2..] == Unglue(ts[2..]) && Unglue(ts)[1] == ts[1] && Unglue(ts)[0] == ts[0]
  {
    PeekUnglue(ts);
    PeekUnglue(ts[1..]);
    assert ts[1..][1..] == ts[2..] && Unglue(ts)[1..][1..] == Unglue(ts)[2..];
  }

  lemma UnglueGlued(ts: seq<Token>, second: Token)
    requires ts != [] && UnglueToken(ts[0]) == [GREATER, second] && UnglueToken(second) == [second]
    ensures Unglue([second] + ts[1..]) == Unglue(ts)[1..]
  {
    UnglueCons(second, ts[1..]);
    assert ([GREATER, second] + Unglue(ts[1..]))[1..] == [second] + Unglue(ts[1..]);
  }

  lemma CloseUnglue(ts: seq<Token>)
    ensures Close(ts).None? <==> Close(Unglue(ts)).None?
    ensures Close(ts).Some? ==> Unglue(Close(ts).value) == Close(Unglue(ts)).value
  {
    PeekUnglue(ts);
    if Peek(ts) == Shr {
      UnglueGlued(ts, GREATER);
    } else if Peek(ts) == GreaterEqual {
      UnglueGlued(ts, ASSIGN);
    }
  }

  lemma {:induction false} NameTailUnglue(parts: seq<string>, ts: seq<Token>)
    ensures NameTail(parts, Unglue(ts)) == (NameTail(parts, ts).0, Unglue(NameTail(parts, ts).1))
    decreases |ts|
  {
    PeekUnglue(ts);
    if Peek(ts) == DoubleColon {
      PeekUnglue(ts[1..]);
      if Peek(ts[1..]) == Id {
        assert ts[1..][1..] == ts[2..] && Unglue(ts)[1..][1..] == Unglue(ts)[2..];
        NameTailUnglue(parts + [ts[1].lexeme], ts[2..]);
      }
    }
  }

  lemma OtherUnglue(ts: seq<Token>)
    requires Peek(ts) !in {Tick, Ptr, LeftBracket, LeftParen, Id}
    ensures ParseType(Unglue(ts)) == (None, Unglue(ts)) && ParseType(ts) == (None, ts)
  {
    PeekUnglue(ts);
  }

  /** Parsing glued tokens gives the same type as parsing them taken apart, and leaves the same tokens
      taken apart. */
  lemma {:induction false} ParseTypeUnglue(ts: seq<Token>)
    ensures ParseType(Unglue(ts)) == (ParseType(ts).0, Unglue(ParseType(ts).1))
    decreases |ts|, 2
  {
    match Peek(ts)
    case Tick => ParseTickUnglue(ts);
    case Ptr => ParseWordUnglue(ts);
    case LeftBracket => ParseBracketUnglue(ts);
    case LeftParen => ParseBracketUnglue(ts);
    case Id => ParseWordUnglue(ts);
    case _ => OtherUnglue(ts);
  }

  lemma {:induction false} ParseWordUnglue(ts: seq<Token>)
    requires Peek(ts) == Ptr || Peek(ts) == Id
    ensures ParseType(Unglue(ts)) == (ParseType(ts).0, Unglue(ParseType(ts).1))
    decreases |ts|, 1
  {
    if Peek(ts) == Ptr {
      ParsePointerUnglue(ts, false);
    } else {
      ParseNameUnglue(ts);
    }
    WordParses(ts);
    WordParses(Unglue(ts));
  }

  lemma WordParses(ts: seq<Token>)
    requires Peek(ts) == Ptr || Peek(ts) == Id
    ensures ParseType(ts) == if Peek(ts) == Ptr then ParsePointer(ts, false) else ParseName(ts)
  {
  }

  lemma {:induction false} ParseBracketUnglue(ts: seq<Token>)
    requires Peek(ts) == LeftBracket || Peek(ts) == LeftParen
    ensures ParseType(Unglue(ts)) == (ParseType(ts).0, Unglue(ParseType(ts).1))
    decreases |ts|, 0
  {
    PeekUnglue(ts);
    if Peek(ts) == LeftBracket {
      ParseArrayUnglue(ts[1..]);
    } else {
      ParseParensUnglue(ts[1..]);
    }
  }

  lemma {:induction false} ParseTickUnglue(ts: seq<Token>)
    requires Peek(ts) == Tick
    ensures ParseType(Unglue(ts)) == (ParseType(ts).0, Unglue(ParseType(ts).1))
    decreases |ts|, 0
  {
    PeekUnglue(ts);
    PeekUnglue(ts[1..]);
    TickParses(ts);
    TickParses(Unglue(ts));
    if Peek(ts[1..]) == Ptr {
      ParsePointerUnglue(ts[1..], true);
    }
  }

  lemma TickParses(ts: seq<Token>)
    requires Peek(ts) == Tick
    ensures ParseType(ts) == if Peek(ts[1..]) == Ptr then ParsePointer(ts[1..], true) else (None, ts[1..])
  {
  }

  lemma {:induction false} ParseParensUnglue(ts: seq<Token>)
    ensures ParseParens(Unglue(ts)) == (ParseParens(ts).0, Unglue(ParseParens(ts).1))
    decreases |ts|, 4
  {
    PeekUnglue(ts);
    if Peek(ts) == RightParen {
      ParseAfterListUnglue([], ts);
    } else {
      ParseListUnglue(ts);
      var (types, ok, rest) := ParseList(ts);
      if ok {
        ParseAfterListUnglue(types, rest);
      }
    }
  }

  lemma {:induction false} ParseNameUnglue(ts: seq<Token>)
    requires Peek(ts) == Id
    ensures Peek(Unglue(ts)) == Id && ParseName(Unglue(ts)) == (ParseName(ts).0, Unglue(ParseName(ts).1))
    decreases |ts|, 0
  {
    PeekUnglue(ts);
    NameTailUnglue([ts[0].lexeme], ts[1..]);
    ParseArgumentsUnglue(NameTail([ts[0].lexeme], ts[1..]).1);
  }

  lemma {:induction false} ParseArgumentsUnglue(ts: seq<Token>)
    ensures Peek(Unglue(ts)) == Less <==> Peek(ts) == Less
    ensures Peek(ts) == Less ==>
              var (args, ok, rest) := ParseList(ts[1..]);
              && ParseList(Unglue(ts)[1..]) == (args, ok, Unglue(rest))
              && (Close(rest).None? <==> Close(Unglue(rest)).None?)
              && (Close(rest).Some? ==> Unglue(Close(rest).value) == Close(Unglue(rest)).value)
    decreases |ts|, 4
  {
    PeekUnglue(ts);
    if Peek(ts) == Less {
      ParseListUnglue(ts[1..]);
      CloseUnglue(ParseList(ts[1..]).2);
    }
  }

  lemma {:induction false} ParsePointerUnglue(ts: seq<Token>, linear: bool)
    requires Peek(ts) == Ptr
    ensures Peek(Unglue(ts)) == Ptr
    ensures ParsePointer(Unglue(ts), linear) == (ParsePointer(ts, linear).0, Unglue(ParsePointer(ts, linear).1))
    decreases |ts|, 0
  {
    PeekUnglue(ts);
    PeekUnglue(ts[1..]);
    if Peek(ts[1..]) == Less {
      SecondUnglue(ts);
      ParseTypeUnglue(ts[2..]);
      CloseUnglue(ParseType(ts[2..]).1);
    }
  }

  lemma {:induction false} ParseSecondUnglue(ts: seq<Token>)
    requires |ts| >= 2 && forall i | 0 <= i < 2 :: ts[i].kind != Shr && ts[i].kind != GreaterEqual
    ensures |Unglue(ts)| >= 2 && Unglue(ts)[0] == ts[0] && Unglue(ts)[1] == ts[1]
    ensures ParseType(Unglue(ts)[2..]) == (ParseType(ts[2..]).0, Unglue(ParseType(ts[2..]).1))
    decreases |ts|, 0
  {
    SecondUnglue(ts);
    ParseTypeUnglue(ts[2..]);
  }

  lemma {:induction false} ParseArrayUnglue(ts: seq<Token>)
    ensures ParseArray(Unglue(ts)) == (ParseArray(ts).0, Unglue(ParseArray(ts).1))
    decreases |ts|, 1
  {
    PeekUnglue(ts);
    if Peek(ts) == Num {
      PeekUnglue(ts[1..]);
      if Peek(ts[1..]) == RightBracket {
        ParseSecondUnglue(ts);
      }
    }
  }

  lemma {:induction false} ParseAfterListUnglue(types: seq<TypeExpr>, ts: seq<Token>)
    ensures ParseAfterList(types, Unglue(ts)) == (ParseAfterList(types, ts).0, Unglue(ParseAfterList(types, ts).1))
    decreases |ts|, 0
  {
    PeekUnglue(ts);
    if Peek(ts) == RightParen {
      PeekUnglue(ts[1..]);
      if Peek(ts[1..]) == Arrow {
        SecondUnglue(ts);
        ParseTypeUnglue(ts[2..]);
      }
    }
  }

  lemma {:induction false} ParseListUnglue(ts: seq<Token>)
    ensures var (types, ok, rest) := ParseList(ts); ParseList(Unglue(ts)) == (types, ok, Unglue(rest))
    decreases |ts|, 3
  {
    ParseTypeUnglue(ts);
    var (first, rest) := ParseType(ts);
    if first.Some? {
      ParseListTailUnglue([first.value], rest);
    }
  }

  lemma {:induction false} ParseListTailUnglue(types: seq<TypeExpr>, ts: seq<Token>)
    ensures var (r, ok, rest) := ParseListTail(types, ts); ParseListTail(types, Unglue(ts)) == (r, ok, Unglue(rest))
    decreases |ts|, 0
  {
    PeekUnglue(ts);
    if Peek(ts) == Comma {
      ParseTypeUnglue(ts[1..]);
      var (next, rest) := ParseType(ts[1..]);
      if next.Some? {
        ParseListTailUnglue(types + [next.value], rest);
      }
    }
  }
}
