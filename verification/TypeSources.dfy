/** What the type parser accepts: whatever is read as a type is made of that type's tokens. */
module TypeSources {
  import opened Wrappers
  import opened Tokens
  import opened TypeExprs
  import opened TypeGrammar
  import opened TypeRoundTrip
  import Decimal

  // ---------- Tokens that say the same ----------

  /** The parser looks at kinds, at the spelling of names, and at the value of numerals. */
  predicate Alike(t: Token, u: Token)
  {
    && t.kind == u.kind
    && (t.kind == Id ==> t.lexeme == u.lexeme)
    && (t.kind == Num ==> Decimal.ReadLeading(t.lexeme) == Decimal.ReadLeading(u.lexeme))
  }

  predicate AllAlike(ts: seq<Token>, us: seq<Token>)
  {
    |ts| == |us| && forall i | 0 <= i < |ts| :: Alike(ts[i], us[i])
  }

  /** No closing bracket is glued to anything. */
  predicate Unglued(ts: seq<Token>)
  {
    forall i | 0 <= i < |ts| :: ts[i].kind != Shr && ts[i].kind != GreaterEqual
  }

  /** The tokens begin like `toks`, and go on with `rest`. */
  predicate Reads(ts: seq<Token>, toks: seq<Token>, rest: seq<Token>)
  {
    |rest| <= |ts| && ts[|ts| - |rest|..] == rest && AllAlike(ts[..|ts| - |rest|], toks)
  }

  lemma ReadsNothing(ts: seq<Token>)
    ensures Reads(ts, [], ts)
  {
  }

  lemma ReadsFirst(ts: seq<Token>, t: Token)
    requires ts != [] && Alike(ts[0], t)
    ensures Reads(ts, [t], ts[1..])
  {
  }

  lemma ReadsOn(ts: seq<Token>, a: seq<Token>, us: seq<Token>, b: seq<Token>, rest: seq<Token>)
    requires Reads(ts, a, us) && Reads(us, b, rest)
    ensures Reads(ts, a + b, rest)
  {
    var m, n := |ts| - |us|, |us| - |rest|;
    assert ts[..m + n] == ts[..m] + us[..n];
    forall i | 0 <= i < m + n ensures Alike(ts[i], (a + b)[i]) {
      assert i < m ==> ts[..m][i] == ts[i];
      assert i >= m ==> us[..n][i - m] == ts[i];
    }
    assert ts[m + n..] == us[n..];
  }

  /** What is left over from unglued tokens is unglued. */
  lemma RestUnglued(ts: seq<Token>, toks: seq<Token>, rest: seq<Token>)
    requires Reads(ts, toks, rest) && Unglued(ts)
    ensures Unglued(rest)
  {
    forall i | 0 <= i < |rest| ensures rest[i].kind != Shr && rest[i].kind != GreaterEqual {
      assert rest[i] == ts[|ts| - |rest| + i];
    }
  }

  lemma {:induction false} UnglueUnglued(ts: seq<Token>)
    ensures Unglued(Unglue(ts))
  {
    if ts != [] {
      UnglueUnglued(ts[1..]);
    }
  }

  // ---------- The converse of the round trip ----------

  /** One more part of a name. */
  lemma PartReads(ts: seq<Token>, toks: seq<Token>, rest: seq<Token>)
    requires Peek(ts) == DoubleColon && Peek(ts[1..]) == Id && Reads(ts[2..], toks, rest)
    ensures Reads(ts, [COLONS, Token(Id, ts[1].lexeme)] + toks, rest)
  {
    var name := Token(Id, ts[1].lexeme);
    ReadsFirst(ts, COLONS);
    ReadsFirst(ts[1..], name);
    ReadsOn(ts, [COLONS], ts[1..], [name], ts[2..]);
    assert [COLONS] + [name] == [COLONS, name];
    ReadsOn(ts, [COLONS, name], ts[2..], toks, rest);
  }

  lemma {:induction false} TailReads(parts: seq<string>, ts: seq<Token>) returns (more: seq<string>)
    ensures NameTail(parts, ts).0 == parts + more && Reads(ts, TailToks(more), NameTail(parts, ts).1)
    decreases |ts|
  {
    if Peek(ts) == DoubleColon && Peek(ts[1..]) == Id {
      var name, rest := ts[1].lexeme, NameTail(parts, ts).1;
      var others := TailReads(parts + [name], ts[2..]);
      more := [name] + others;
      assert parts + [name] + others == parts + more && more[1..] == others;
      PartReads(ts, TailToks(others), rest);
    } else {
      more := [];
      assert parts + more == parts;
      ReadsNothing(ts);
    }
  }

  /** Whatever is read as a type is one the parser can produce, and its tokens were what was read. */
  lemma {:induction false} TypeReads(ts: seq<Token>)
    requires Unglued(ts) && ParseType(ts).0.Some?
    ensures var (e, rest) := ParseType(ts); Parsable(e.value) && Reads(ts, Toks(e.value), rest)
    decreases |ts|, 2
  {
    match Peek(ts)
    case Tick =>
      PointerReads(ts[1..], true);
      TickReads(ts, ParseType(ts).0.value, ParseType(ts).1);
    case Ptr =>
      PointerReads(ts, false);
      PlainToks(ParseType(ts).0.value);
    case LeftBracket => ArrayReads(ts);
    case LeftParen => ParensRead(ts);
    case Id => NameReads(ts);
  }

  lemma {:induction false} PointerReads(ts: seq<Token>, linear: bool)
    requires Unglued(ts) && Peek(ts) == Ptr && ParsePointer(ts, linear).0.Some?
    ensures var (e, rest) := ParsePointer(ts, linear);
            && e.value.PointerTo? && e.value.linear == linear && Parsable(e.value)
            && Reads(ts, [PTR, LESS] + Toks(e.value.pointee) + [GREATER], rest)
    decreases |ts|, 0
  {
    var (inner, rest1) := ParseType(ts[2..]);
    TypeReads(ts[2..]);
    RestUnglued(ts[2..], Toks(inner.value), rest1);
    BracketsRead(ts, Toks(inner.value), rest1);
  }

  lemma BracketsRead(ts: seq<Token>, toks: seq<Token>, rest: seq<Token>)
    requires Peek(ts) == Ptr && Peek(ts[1..]) == Less && Reads(ts[2..], toks, rest) && Peek(rest) == Greater
    ensures Reads(ts, [PTR, LESS] + toks + [GREATER], rest[1..])
  {
    ReadsFirst(ts, PTR);
    ReadsFirst(ts[1..], LESS);
    ReadsFirst(rest, GREATER);
    ReadsOn(ts, [PTR], ts[1..], [LESS], ts[2..]);
    assert [PTR] + [LESS] == [PTR, LESS];
    ReadsOn(ts, [PTR, LESS], ts[2..], toks, rest);
    ReadsOn(ts, [PTR, LESS] + toks, rest, [GREATER], rest[1..]);
  }

  lemma TickReads(ts: seq<Token>, e: TypeExpr, rest: seq<Token>)
    requires Peek(ts) == Tick && e.PointerTo? && e.linear
    requires Reads(ts[1..], [PTR, LESS] + Toks(e.pointee) + [GREATER], rest)
    ensures Reads(ts, Toks(e), rest)
  {
    var p := [PTR, LESS] + Toks(e.pointee) + [GREATER];
    ReadsFirst(ts, TICK);
    ReadsOn(ts, [TICK], ts[1..], p, rest);
    assert Toks(e) == [TICK] + p;
  }

  lemma PlainToks(e: TypeExpr)
    requires e.PointerTo? && !e.linear
    ensures Toks(e) == [PTR, LESS] + Toks(e.pointee) + [GREATER]
  {
    assert [] + [PTR, LESS] == [PTR, LESS];
  }

  lemma SizeAlike(t: Token)
    requires t.kind == Num
    ensures Alike(t, Token(Num, Decimal.Show(Decimal.ReadLeading(t.lexeme))))
  {
    ReadSize(Decimal.ReadLeading(t.lexeme));
  }

  lemma {:induction false} ArrayReads(ts: seq<Token>)
    requires Unglued(ts) && Peek(ts) == LeftBracket && ParseType(ts).0.Some?
    ensures var (e, rest) := ParseType(ts); Parsable(e.value) && Reads(ts, Toks(e.value), rest)
    decreases |ts|, 0
  {
    assert ParseType(ts) == ParseArray(ts[1..]);
    var (element, rest) := ParseType(ts[3..]);
    var size := Token(Num, Decimal.Show(Decimal.ReadLeading(ts[1].lexeme)));
    assert ts[1..][2..] == ts[3..];
    TypeReads(ts[3..]);
    SizeAlike(ts[1]);
    ReadsFirst(ts, LBRACKET);
    ReadsFirst(ts[1..], size);
    ReadsFirst(ts[2..], RBRACKET);
    ReadsOn(ts[1..], [size], ts[2..], [RBRACKET], ts[3..]);
    ReadsOn(ts, [LBRACKET], ts[1..], [size] + [RBRACKET], ts[3..]);
    assert [LBRACKET] + ([size] + [RBRACKET]) == [LBRACKET, size, RBRACKET];
    ReadsOn(ts, [LBRACKET, size, RBRACKET], ts[3..], Toks(element.value), rest);
  }

  lemma {:induction false} ParensRead(ts: seq<Token>)
    requires Unglued(ts) && Peek(ts) == LeftParen && ParseType(ts).0.Some?
    ensures var (e, rest) := ParseType(ts); Parsable(e.value) && Reads(ts, Toks(e.value), rest)
    decreases |ts|, 1
  {
    var us := ts[1..];
    assert ParseType(ts) == ParseParens(us);
    if Peek(us) == RightParen {
      ReadsNothing(us);
      OpenReads(ts, ListToks([]), us);
      AfterListReads(ts, [], us);
    } else {
      var (types, ok, rest1) := ParseList(us);
      ListReads(us);
      OpenReads(ts, ListToks(types), rest1);
      AfterListReads(ts, types, rest1);
    }
  }

  lemma OpenReads(ts: seq<Token>, toks: seq<Token>, rest: seq<Token>)
    requires Peek(ts) == LeftParen && Unglued(ts) && Reads(ts[1..], toks, rest)
    ensures Reads(ts, [LPAREN] + toks, rest) && Unglued(rest) && |rest| < |ts|
  {
    ReadsFirst(ts, LPAREN);
    ReadsOn(ts, [LPAREN], ts[1..], toks, rest);
    RestUnglued(ts, [LPAREN] + toks, rest);
  }

  /** The parenthesis has been read up to `rest`. */
  lemma {:induction false} AfterListReads(ts: seq<Token>, types: seq<TypeExpr>, rest: seq<Token>)
    requires Unglued(rest) && ParsableAll(types) && |rest| < |ts| && Reads(ts, [LPAREN] + ListToks(types), rest)
    requires ParseAfterList(types, rest).0.Some?
    ensures var (e, end) := ParseAfterList(types, rest); Parsable(e.value) && Reads(ts, Toks(e.value), end)
    decreases |ts|, 0
  {
    var toks := [LPAREN] + ListToks(types);
    ReadsFirst(rest, RPAREN);
    ReadsOn(ts, toks, rest, [RPAREN], rest[1..]);
    if Peek(rest[1..]) == Arrow {
      var (result, end) := ParseType(rest[2..]);
      TypeReads(rest[2..]);
      ReadsFirst(rest[1..], ARROW);
      ReadsOn(ts, toks + [RPAREN], rest[1..], [ARROW], rest[2..]);
      assert toks + [RPAREN] + [ARROW] == toks + [RPAREN, ARROW];
      ReadsOn(ts, toks + [RPAREN, ARROW], rest[2..], Toks(result.value), end);
    }
  }

  lemma {:induction false} NameReads(ts: seq<Token>)
    requires Unglued(ts) && Peek(ts) == Id
    ensures ParseType(ts).0.Some?
    ensures var (e, rest) := ParseType(ts); Parsable(e.value) && Reads(ts, Toks(e.value), rest)
    decreases |ts|, 1
  {
    var name := ts[0].lexeme;
    var (parts, rest1) := NameTail([name], ts[1..]);
    var more := TailReads([name], ts[1..]);
    HeadReads(ts, parts, more, rest1);
    WordParses(ts);
    if Peek(rest1) == Less {
      ArgumentsRead(ts, parts, rest1);
    }
  }

  lemma HeadReads(ts: seq<Token>, parts: seq<string>, more: seq<string>, rest: seq<Token>)
    requires Peek(ts) == Id && Unglued(ts) && parts == [ts[0].lexeme] + more && Reads(ts[1..], TailToks(more), rest)
    ensures Reads(ts, NameToks(parts), rest) && Unglued(rest) && |rest| < |ts|
  {
    var head := Token(Id, ts[0].lexeme);
    assert parts[1..] == more;
    ReadsFirst(ts, head);
    ReadsOn(ts, [head], ts[1..], TailToks(more), rest);
    RestUnglued(ts, NameToks(parts), rest);
  }

  /** If type arguments can be read behind the name. */
  lemma {:induction false} ArgumentsRead(ts: seq<Token>, parts: seq<string>, rest1: seq<Token>)
    requires Reads(ts, NameToks(parts), rest1) && Unglued(rest1) && |rest1| < |ts| && Peek(rest1) == Less
    ensures var (args, ok, rest2) := ParseList(rest1[1..]);
            ok && Close(rest2).Some? ==>
              args != [] && ParsableAll(args) && Reads(ts, Toks(Applied(parts, args)), Close(rest2).value)
    decreases |ts|, 0
  {
    var (args, ok, rest2) := ParseList(rest1[1..]);
    if ok {
      ListReads(rest1[1..]);
      RestUnglued(rest1[1..], ListToks(args), rest2);
      if Close(rest2).Some? {
        AppliedReads(ts, parts, rest1, args, rest2);
      }
    }
  }

  lemma AppliedReads(ts: seq<Token>, parts: seq<string>, rest1: seq<Token>, args: seq<TypeExpr>, rest2: seq<Token>)
    requires Reads(ts, NameToks(parts), rest1) && Peek(rest1) == Less && Reads(rest1[1..], ListToks(args), rest2)
    requires Peek(rest2) == Greater
    ensures Reads(ts, Toks(Applied(parts, args)), rest2[1..])
  {
    ReadsFirst(rest1, LESS);
    ReadsFirst(rest2, GREATER);
    ReadsOn(ts, NameToks(parts), rest1, [LESS], rest1[1..]);
    ReadsOn(ts, NameToks(parts) + [LESS], rest1[1..], ListToks(args), rest2);
    ReadsOn(ts, NameToks(parts) + [LESS] + ListToks(args), rest2, [GREATER], rest2[1..]);
  }

  lemma {:induction false} ListReads(ts: seq<Token>)
    requires Unglued(ts) && ParseList(ts).1
    ensures var (types, ok, rest) := ParseList(ts);
            types != [] && ParsableAll(types) && Reads(ts, ListToks(types), rest)
    decreases |ts|, 3
  {
    var (first, rest1) := ParseType(ts);
    TypeReads(ts);
    RestUnglued(ts, Toks(first.value), rest1);
    var more := MoreReads([first.value], rest1);
    var (types, ok, rest) := ParseList(ts);
    assert types == [first.value] + more && types[1..] == more;
    ReadsOn(ts, Toks(first.value), rest1, MoreToks(more), rest);
  }

  lemma CommaReads(ts: seq<Token>, a: seq<Token>, us: seq<Token>, b: seq<Token>, rest: seq<Token>)
    requires Peek(ts) == Comma && Reads(ts[1..], a, us) && Reads(us, b, rest)
    ensures Reads(ts, [COMMA] + a + b, rest)
  {
    ReadsFirst(ts, COMMA);
    ReadsOn(ts, [COMMA], ts[1..], a, us);
    ReadsOn(ts, [COMMA] + a, us, b, rest);
  }

  lemma NextParses(types: seq<TypeExpr>, ts: seq<Token>)
    requires Peek(ts) == Comma && ParseListTail(types, ts).1
    ensures ParseType(ts[1..]).0.Some?
    ensures var (next, rest) := ParseType(ts[1..]); ParseListTail(types, ts) == ParseListTail(types + [next.value], rest)
  {
  }

  lemma {:induction false} MoreReads(types: seq<TypeExpr>, ts: seq<Token>) returns (more: seq<TypeExpr>)
    requires Unglued(ts) && ParseListTail(types, ts).1
    ensures ParseListTail(types, ts).0 == types + more && ParsableAll(more)
    ensures Reads(ts, MoreToks(more), ParseListTail(types, ts).2)
    decreases |ts|, 0
  {
    if Peek(ts) == Comma {
      NextParses(types, ts);
      var (next, rest1) := ParseType(ts[1..]);
      TypeReads(ts[1..]);
      RestUnglued(ts[1..], Toks(next.value), rest1);
      var others := MoreReads(types + [next.value], rest1);
      more := OneMore(types, next.value, others);
      CommaReads(ts, Toks(next.value), rest1, MoreToks(others), ParseListTail(types, ts).2);
    } else {
      more := [];
      assert types + more == types;
      ReadsNothing(ts);
    }
  }

  lemma OneMore(types: seq<TypeExpr>, next: TypeExpr, others: seq<TypeExpr>) returns (more: seq<TypeExpr>)
    ensures types + [next] + others == types + more && more == [next] + others
    ensures MoreToks(more) == [COMMA] + Toks(next) + MoreToks(others)
    ensures Parsable(next) && ParsableAll(others) ==> ParsableAll(more)
  {
    more := [next] + others;
    assert more[1..] == others;
  }

  /** The converse of the round trip: if any tokens are read as a type, then it is one the parser can produce, and
      taken apart the tokens are the type's followed by what is left. */
  lemma ParsedIsSource(ts: seq<Token>)
    requires ParseType(ts).0.Some?
    ensures var (e, rest) := ParseType(ts); Parsable(e.value) && Reads(Unglue(ts), Toks(e.value), Unglue(rest))
  {
    ParseTypeUnglue(ts);
    UnglueUnglued(ts);
    TypeReads(Unglue(ts));
  }
}
