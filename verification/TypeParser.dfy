/** The recursive-descent parser of type annotations.  It reads the token stream in place, splits tokens that
    glue closing brackets together, and takes type arguments back when they turn out to be none. */
module TypeParser {
  import opened Wrappers
  import opened Tokens
  import opened TokenStream
  import opened TypeExprs
  import opened TypeGrammar
  import opened TypeFaults
  import Decimal

  // ---------- What is left to read ----------

  /** Every token has been produced: the last one, and only it, is the end of the file. */
  ghost predicate Ended(list: seq<Node>)
  {
    list != [] && forall i | 0 <= i < |list| :: list[i].token.kind == Eof <==> i == |list| - 1
  }

  ghost predicate Ready(s: Stream)
  {
    Valid(s) && s.cursor.Some? && Ended(s.list)
  }

  /** The tokens left before the end of the file. */
  ghost function Left(s: Stream): seq<Token>
    requires Position(s) < |s.list|
  {
    TokensOf(s.list[Position(s)..|s.list| - 1])
  }

  /** `b` comes after `a`: it has the same rollback points, and undoing the splits made since gives `a`'s list. */
  ghost predicate Since(a: Stream, b: Stream)
  {
    b.stack == a.stack && a.pending <= b.pending && UndoTo(b.list, b.pending, |a.pending|) == a.list
  }

  ghost predicate Reaches(a: Stream, b: Stream, left: seq<Token>)
  {
    Ready(b) && Since(a, b) && Left(b) == left
  }

  lemma ReachesSelf(a: Stream)
    requires Ready(a)
    ensures Reaches(a, a, Left(a))
  {
  }

  lemma SinceTransitive(a: Stream, b: Stream, c: Stream)
    requires Since(a, b) && Since(b, c)
    ensures Since(a, c)
  {
    assert c.pending[..|b.pending|] == b.pending;
    UndoToTwice(c.list, c.pending, |b.pending|, |a.pending|);
  }

  lemma AtEnd(s: Stream)
    requires Ready(s)
    ensures Position(s) < |s.list| && Rest(s) != [] && Peek(Left(s)) == Rest(s)[0].kind
    ensures Left(s) != [] ==> Left(s)[0] == Rest(s)[0]
    ensures Left(s) == [] <==> Rest(s)[0].kind == Eof
  {
  }

  lemma ConsumeReaches(s: Stream)
    requires Ready(s) && Left(s) != []
    ensures Reaches(s, Consume(s), Left(s)[1..]) && StepBack(Consume(s), 1) == s
  {
    var i := Position(s);
    MoveValid(s, i + 1);
    assert s.list[i + 1..|s.list| - 1] == s.list[i..|s.list| - 1][1..];
  }

  lemma SplitLeft(list: seq<Node>, i: nat, first: Token, n: Node)
    requires Ended(list) && i < |list| - 1 && first.kind != Eof && n.token.kind != Eof
    ensures var u := list[..i] + [list[i].(token := first), n] + list[i + 1..];
            && Ended(u)
            && TokensOf(u[i..|u| - 1]) == [first] + ([n.token] + TokensOf(list[i..|list| - 1])[1..])
  {
    var u := list[..i] + [list[i].(token := first), n] + list[i + 1..];
    var left := list[i..|list| - 1];
    assert u[|u| - 1] == list[|list| - 1];
    forall j | 0 <= j < |u|
      ensures u[j].token == if j == i then first else if j == i + 1 then n.token else list[if j < i then j else j - 1].token
    {
    }
    assert u[i..|u| - 1] == [list[i].(token := first), n] + left[1..];
  }

  lemma SplitReaches(s: Stream, first: Token, second: Token)
    requires Ready(s) && Left(s) != [] && first.kind != Eof && second.kind != Eof
    ensures Reaches(s, Split(s, first, second), [first] + ([second] + Left(s)[1..]))
  {
    SplitValid(s, first, second);
    SplitDistinct(s, first, second);
    SplitUndoes(s, first, second, |s.pending|);
    SplitLeft(s.list, Position(s), first, Node(s.supply, second));
  }

  lemma CloseSplitReaches(s: Stream, second: Token)
    requires Ready(s) && Left(s) != [] && second.kind != Eof
    ensures Ready(Split(s, GREATER, second))
    ensures Reaches(s, Consume(Split(s, GREATER, second)), [second] + Left(s)[1..])
  {
    SplitReaches(s, GREATER, second);
    ConsumeNext(s, Split(s, GREATER, second), GREATER, [second] + Left(s)[1..]);
  }

  lemma ConsumeNext(s: Stream, s1: Stream, first: Token, left: seq<Token>)
    requires Reaches(s, s1, [first] + left)
    ensures Reaches(s, Consume(s1), left)
  {
    ConsumeReaches(s1);
    SinceTransitive(s, s1, Consume(s1));
  }

  lemma RollbackReaches(s: Stream, b: Stream)
    requires Ready(s) && Ready(b) && Since(Mark(s), b)
    ensures Reaches(s, Rollback(b), Left(s))
  {
    RollbackValid(b);
    assert b.pending[..|s.pending|] == s.pending;
  }

  lemma CommitReaches(s: Stream, b: Stream)
    requires Ready(b) && Since(Mark(s), b)
    ensures Reaches(s, Commit(b), Left(b))
  {
  }

  /** What the first token decides. */
  lemma TypeCases(ts: seq<Token>)
    ensures ParseType(ts) ==
      match TypeGrammar.Peek(ts)
      case Tick => if TypeGrammar.Peek(ts[1..]) == Ptr then ParsePointer(ts[1..], true) else (None, ts[1..])
      case Ptr => ParsePointer(ts, false)
      case LeftBracket => ParseArray(ts[1..])
      case LeftParen => ParseParens(ts[1..])
      case Id => ParseName(ts)
      case _ => (None, ts)
    ensures TypeErrors(ts) ==
      match TypeGrammar.Peek(ts)
      case Tick => if TypeGrammar.Peek(ts[1..]) == Ptr then PointerErrors(ts[1..], true) else 1
      case Ptr => PointerErrors(ts, false)
      case LeftBracket => ArrayErrors(ts[1..])
      case LeftParen => ParensErrors(ts[1..])
      case Id => NameErrors(ts)
      case _ => 0
  {
  }

  lemma NameTailStep(parts: seq<string>, left: seq<Token>)
    requires TypeGrammar.Peek(left) == DoubleColon
    ensures NameTail(parts, left)
            == if TypeGrammar.Peek(left[1..]) == Id then NameTail(parts + [left[1].lexeme], left[2..]) else (parts, left)
  {
  }

  lemma PointerCases(ts: seq<Token>, linear: bool)
    requires TypeGrammar.Peek(ts) == Ptr
    ensures if TypeGrammar.Peek(ts[1..]) != Less then
              ParsePointer(ts, linear) == (None, ts[1..]) && PointerErrors(ts, linear) == 1
            else
              var (inner, rest) := ParseType(ts[2..]);
              if inner.Some? && Close(rest).Some? then
                && ParsePointer(ts, linear) == (Some(PointerTo(inner.value, linear)), Close(rest).value)
                && PointerErrors(ts, linear) == TypeErrors(ts[2..])
              else
                ParsePointer(ts, linear) == (None, rest) && PointerErrors(ts, linear) == TypeErrors(ts[2..]) + 1
  {
  }

  lemma ArrayCases(ts: seq<Token>)
    ensures if TypeGrammar.Peek(ts) != Num || TypeGrammar.Peek(ts[1..]) != RightBracket then
              ParseArray(ts).0 == None && ArrayErrors(ts) == 1
            else
              var (element, rest) := ParseType(ts[2..]);
              if element.Some? then
                && ParseArray(ts) == (Some(ArrayOf(element.value, Decimal.ReadLeading(ts[0].lexeme))), rest)
                && ArrayErrors(ts) == TypeErrors(ts[2..])
              else
                ParseArray(ts) == (None, rest) && ArrayErrors(ts) == TypeErrors(ts[2..]) + 1
  {
  }

  lemma NameCases(ts: seq<Token>)
    requires TypeGrammar.Peek(ts) == Id
    ensures var (parts, rest) := NameTail([ts[0].lexeme], ts[1..]);
            if TypeGrammar.Peek(rest) != Less then
              ParseName(ts) == (Some(Named(parts, None)), rest) && NameErrors(ts) == 0
            else
              var (args, ok, rest2) := ParseList(rest[1..]);
              && NameErrors(ts) == ListErrors(rest[1..])
              && ParseName(ts) == if ok && Close(rest2).Some? then (Some(Applied(parts, args)), Close(rest2).value)
                                  else (Some(Named(parts, None)), rest)
  {
  }

  // ---------- The parser ----------

  class Parser {
    const stream: TokenList
    var errorCount: nat

    constructor (stream: TokenList)
      ensures this.stream == stream && errorCount == 0
    {
      this.stream, errorCount := stream, 0;
    }

    /** Errors are counted when they are found. */
    method ImmError()
      modifies this`errorCount
      ensures errorCount == old(errorCount) + 1
    {
      errorCount := errorCount + 1;
    }

    method PeekKind() returns (kind: TokenType)
      requires Ready(stream.State())
      ensures kind == TypeGrammar.Peek(Left(stream.State()))
    {
      AtEnd(stream.State());
      var token := stream.Peek();
      kind := token.kind;
    }

    method Next() returns (token: Token)
      requires Ready(stream.State()) && Left(stream.State()) != []
      modifies stream
      ensures token == old(Left(stream.State()))[0]
      ensures stream.State() == Consume(old(stream.State()))
      ensures Reaches(old(stream.State()), stream.State(), old(Left(stream.State()))[1..])
    {
      ConsumeReaches(stream.State());
      token := stream.ConsumeToken();
    }

    /** Consume the next token if it is of the given kind. */
    method Expect(kind: TokenType) returns (token: Option<Token>)
      requires Ready(stream.State()) && kind != Eof
      modifies stream
      ensures token.Some? <==> TypeGrammar.Peek(old(Left(stream.State()))) == kind
      ensures token.Some? ==> token.value == old(Left(stream.State()))[0]
      ensures token.None? ==> stream.State() == old(stream.State())
      ensures Reaches(old(stream.State()), stream.State(), old(Left(stream.State()))[if token.Some? then 1 else 0..])
    {
      var next := PeekKind();
      if next == kind {
        var t := Next();
        token := Some(t);
      } else {
        token := None;
        ReachesSelf(stream.State());
      }
    }

    /** Consume one `>`; `>>` and `>=` are split first. */
    method ConsumeClosingAngleBracket() returns (ok: bool)
      requires Ready(stream.State())
      modifies stream
      ensures ok == Close(old(Left(stream.State()))).Some?
      ensures ok ==> Reaches(old(stream.State()), stream.State(), Close(old(Left(stream.State()))).value)
      ensures !ok ==> stream.State() == old(stream.State())
    {
      ghost var left := Left(stream.State());
      var next := PeekKind();
      if next == Greater {
        var _ := Next();
        return true;
      }
      if next == Shr || next == GreaterEqual {
        var second := if next == Shr then GREATER else ASSIGN;
        assert Close(left) == Some([second] + left[1..]);
        CloseSplit(second);
        return true;
      }
      return false;
    }

    method CloseSplit(second: Token)
      requires Ready(stream.State()) && Left(stream.State()) != [] && second.kind != Eof
      modifies stream
      ensures Reaches(old(stream.State()), stream.State(), [second] + old(Left(stream.State()))[1..])
    {
      CloseSplitReaches(stream.State(), second);
      stream.SplitCurrent(GREATER, second);
      var _ := stream.ConsumeToken();
    }

    /** A `::` and the name after it; without a name the `::` is given back. */
    method ParseNamePart() returns (part: Option<string>)
      requires Ready(stream.State()) && TypeGrammar.Peek(Left(stream.State())) == DoubleColon
      modifies stream
      ensures var left := old(Left(stream.State()));
              if TypeGrammar.Peek(left[1..]) == Id then
                part == Some(left[1].lexeme) && Reaches(old(stream.State()), stream.State(), left[2..])
              else
                part == None && stream.State() == old(stream.State())
    {
      ghost var s0 := stream.State();
      var _ := Next();
      ghost var s1 := stream.State();
      var id := Expect(Id);
      if id.Some? {
        SinceTransitive(s0, s1, stream.State());
        assert Left(stream.State()) == Left(s0)[2..];
        return Some(id.value.lexeme);
      }
      ConsumeReaches(s0);
      stream.RollbackTokens(1);
      return None;
    }

    method ParseNextPart(ghost s0: Stream) returns (part: Option<string>)
      requires Ready(stream.State()) && Since(s0, stream.State())
      requires TypeGrammar.Peek(Left(stream.State())) == DoubleColon
      modifies stream
      ensures Ready(stream.State()) && Since(s0, stream.State())
      ensures var left := old(Left(stream.State()));
              if TypeGrammar.Peek(left[1..]) == Id then part == Some(left[1].lexeme) && Left(stream.State()) == left[2..]
              else part == None && Left(stream.State()) == left
    {
      ghost var s1 := stream.State();
      part := ParseNamePart();
      if part.Some? {
        SinceTransitive(s0, s1, stream.State());
      }
    }

    /** The `::id` parts after a first name. */
    method ParseQualifiedNameTail(first: string) returns (parts: seq<string>)
      requires Ready(stream.State())
      modifies stream
      ensures parts == NameTail([first], old(Left(stream.State()))).0
      ensures Reaches(old(stream.State()), stream.State(), NameTail([first], old(Left(stream.State()))).1)
    {
      ghost var s0 := stream.State();
      parts := [first];
      var more := true;
      while more
        invariant Ready(stream.State()) && Since(s0, stream.State())
        invariant if more then NameTail(parts, Left(stream.State())) == NameTail([first], Left(s0))
                  else (parts, Left(stream.State())) == NameTail([first], Left(s0))
        decreases more, |Left(stream.State())|
      {
        parts, more := ParseParts(s0, parts);
      }
    }

    /** One more part, if there is one. */
    method ParseParts(ghost s0: Stream, before: seq<string>) returns (parts: seq<string>, more: bool)
      requires Ready(stream.State()) && Since(s0, stream.State())
      modifies stream
      ensures Ready(stream.State()) && Since(s0, stream.State())
      ensures var left := old(Left(stream.State()));
              if more then
                && NameTail(parts, Left(stream.State())) == NameTail(before, left)
                && |Left(stream.State())| < |left|
              else
                (parts, Left(stream.State())) == NameTail(before, left)
    {
      ghost var left := Left(stream.State());
      var next := PeekKind();
      if next != DoubleColon {
        return before, false;
      }
      NameTailStep(before, left);
      var part := ParseNextPart(s0);
      if part.None? {
        return before, false;
      }
      return before + [part.value], true;
    }

    method ParseTypeExpr() returns (r: Option<TypeExpr>)
      requires Ready(stream.State())
      modifies this`errorCount, stream
      ensures r == ParseType(old(Left(stream.State()))).0
      ensures Reaches(old(stream.State()), stream.State(), ParseType(old(Left(stream.State()))).1)
      ensures errorCount == old(errorCount) + TypeErrors(old(Left(stream.State())))
      decreases |Left(stream.State())|, 1
    {
      TypeCases(Left(stream.State()));
      var next := PeekKind();
      match next {
        case Tick => r := ParseLinearPointerType();
        case Ptr => r := ParsePointerType(false);
        case LeftBracket => r := ParseArrayType();
        case LeftParen => r := ParseParenthesized();
        case Id => r := ParseNamedType();
        case _ => r := None;
      }
    }

    /** A `'` must be followed by a pointer type. */
    method ParseLinearPointerType() returns (r: Option<TypeExpr>)
      requires Ready(stream.State()) && TypeGrammar.Peek(Left(stream.State())) == Tick
      modifies this`errorCount, stream
      ensures var left := old(Left(stream.State()))[1..];
              var (t, rest) := if TypeGrammar.Peek(left) == Ptr then ParsePointer(left, true) else (None, left);
              r == t && Reaches(old(stream.State()), stream.State(), rest)
      ensures errorCount == old(errorCount) + TypeErrors(old(Left(stream.State())))
      decreases |Left(stream.State())|, 0
    {
      ghost var s0 := stream.State();
      TypeCases(Left(s0));
      var _ := Next();
      ghost var s1 := stream.State();
      var next := PeekKind();
      if next != Ptr {
        ImmError();
        return None;
      }
      r := ParsePointerType(true);
      SinceTransitive(s0, s1, stream.State());
    }

    method ParsePointerType(linear: bool) returns (r: Option<TypeExpr>)
      requires Ready(stream.State()) && TypeGrammar.Peek(Left(stream.State())) == Ptr
      modifies this`errorCount, stream
      ensures r == ParsePointer(old(Left(stream.State())), linear).0
      ensures Reaches(old(stream.State()), stream.State(), ParsePointer(old(Left(stream.State())), linear).1)
      ensures errorCount == old(errorCount) + PointerErrors(old(Left(stream.State())), linear)
      decreases |Left(stream.State())|, 0
    {
      ghost var s0 := stream.State();
      PointerCases(Left(s0), linear);
      var isOpen := OpenPointer();
      if !isOpen {
        ImmError();
        return None;
      }
      ghost var s1 := stream.State();
      var inner := ParsePointee();
      SinceTransitive(s0, s1, stream.State());
      if inner.None? {
        ImmError();
        return None;
      }
      return Some(PointerTo(inner.value, linear));
    }

    method OpenPointer() returns (isOpen: bool)
      requires Ready(stream.State()) && TypeGrammar.Peek(Left(stream.State())) == Ptr
      modifies stream
      ensures isOpen == (TypeGrammar.Peek(old(Left(stream.State()))[1..]) == Less)
      ensures Reaches(old(stream.State()), stream.State(), old(Left(stream.State()))[if isOpen then 2 else 1..])
    {
      ghost var s0 := stream.State();
      var _ := Next();
      ghost var s1 := stream.State();
      var less := Expect(Less);
      SinceTransitive(s0, s1, stream.State());
      isOpen := less.Some?;
      assert isOpen ==> Left(stream.State()) == Left(s0)[2..];
    }

    /** A type and the bracket that closes it. */
    method ParsePointee() returns (r: Option<TypeExpr>)
      requires Ready(stream.State())
      modifies this`errorCount, stream
      ensures var (inner, rest) := ParseType(old(Left(stream.State())));
              if inner.Some? && Close(rest).Some? then
                r == inner && Reaches(old(stream.State()), stream.State(), Close(rest).value)
              else
                r == None && Reaches(old(stream.State()), stream.State(), rest)
      ensures errorCount == old(errorCount) + TypeErrors(old(Left(stream.State())))
      decreases |Left(stream.State())|, 2
    {
      ghost var s0 := stream.State();
      r := ParseTypeExpr();
      if r.None? {
        return;
      }
      ghost var s1 := stream.State();
      var ok := ConsumeClosingAngleBracket();
      if ok {
        SinceTransitive(s0, s1, stream.State());
      } else {
        r := None;
      }
    }

    /** An array size in brackets, and the type of the elements. */
    method ParseArrayType() returns (r: Option<TypeExpr>)
      requires Ready(stream.State()) && TypeGrammar.Peek(Left(stream.State())) == LeftBracket
      modifies this`errorCount, stream
      ensures r == ParseArray(old(Left(stream.State()))[1..]).0
      ensures Reaches(old(stream.State()), stream.State(), ParseArray(old(Left(stream.State()))[1..]).1)
      ensures errorCount == old(errorCount) + ArrayErrors(old(Left(stream.State()))[1..])
      decreases |Left(stream.State())|, 0
    {
      ghost var s0 := stream.State();
      ArrayCases(Left(s0)[1..]);
      var size := ParseArraySize();
      if size.None? {
        ImmError();
        return None;
      }
      ghost var s1 := stream.State();
      var element := ParseTypeExpr();
      SinceTransitive(s0, s1, stream.State());
      if element.None? {
        ImmError();
        return None;
      }
      return Some(ArrayOf(element.value, Decimal.ReadLeading(size.value.lexeme)));
    }

    method ParseArraySize() returns (size: Option<Token>)
      requires Ready(stream.State()) && TypeGrammar.Peek(Left(stream.State())) == LeftBracket
      modifies stream
      ensures var left := old(Left(stream.State()))[1..];
              if TypeGrammar.Peek(left) == Num && TypeGrammar.Peek(left[1..]) == RightBracket then
                size == Some(left[0]) && Reaches(old(stream.State()), stream.State(), left[2..])
              else
                size == None && Reaches(old(stream.State()), stream.State(), ParseArray(left).1)
    {
      ghost var s0 := stream.State();
      var _ := Next();
      ghost var s1 := stream.State();
      size := Expect(Num);
      ghost var s2 := stream.State();
      SinceTransitive(s0, s1, s2);
      if size.None? {
        return;
      }
      var bracket := Expect(RightBracket);
      SinceTransitive(s0, s2, stream.State());
      if bracket.None? {
        return None;
      }
      assert Left(stream.State()) == Left(s1)[2..];
    }

    /** A function or tuple type. */
    method ParseParenthesized() returns (r: Option<TypeExpr>)
      requires Ready(stream.State()) && TypeGrammar.Peek(Left(stream.State())) == LeftParen
      modifies this`errorCount, stream
      ensures r == ParseParens(old(Left(stream.State()))[1..]).0
      ensures Reaches(old(stream.State()), stream.State(), ParseParens(old(Left(stream.State()))[1..]).1)
      ensures errorCount == old(errorCount) + ParensErrors(old(Left(stream.State()))[1..])
      decreases |Left(stream.State())|, 0
    {
      ghost var s0 := stream.State();
      var _ := Next();
      ghost var s1 := stream.State();
      var types: seq<TypeExpr> := [];
      var next := PeekKind();
      if next != RightParen {
        var ok;
        types, ok := ParseCommaSeparated();
        SinceTransitive(s0, s1, stream.State());
        if !ok {
          ImmError();
          return None;
        }
      }
      ghost var s2 := stream.State();
      r := ParseParenthesizedEnd(types);
      SinceTransitive(s0, s2, stream.State());
    }

    method ParseParenthesizedEnd(types: seq<TypeExpr>) returns (r: Option<TypeExpr>)
      requires Ready(stream.State())
      modifies this`errorCount, stream
      ensures r == ParseAfterList(types, old(Left(stream.State()))).0
      ensures Reaches(old(stream.State()), stream.State(), ParseAfterList(types, old(Left(stream.State()))).1)
      ensures errorCount == old(errorCount) + AfterListErrors(types, old(Left(stream.State())))
      decreases |Left(stream.State())|, 0
    {
      ghost var s0 := stream.State();
      var paren := Expect(RightParen);
      if paren.None? {
        ImmError();
        return None;
      }
      ghost var s1 := stream.State();
      var arrow := Expect(Arrow);
      ghost var s2 := stream.State();
      SinceTransitive(s0, s1, s2);
      if arrow.Some? {
        assert Left(s2) == Left(s0)[2..];
        var result := ParseTypeExpr();
        SinceTransitive(s0, s2, stream.State());
        if result.None? {
          ImmError();
          return None;
        }
        return Some(FunctionOf(types, result.value));
      }
      if |types| >= 2 {
        return Some(TupleOf(types));
      }
      ImmError();
      return None;
    }

    /** A name, and its type arguments if there are any. */
    method ParseNamedType() returns (r: Option<TypeExpr>)
      requires Ready(stream.State()) && TypeGrammar.Peek(Left(stream.State())) == Id
      modifies this`errorCount, stream
      ensures r == ParseName(old(Left(stream.State()))).0
      ensures Reaches(old(stream.State()), stream.State(), ParseName(old(Left(stream.State()))).1)
      ensures errorCount == old(errorCount) + NameErrors(old(Left(stream.State())))
      decreases |Left(stream.State())|, 0
    {
      ghost var s0 := stream.State();
      NameCases(Left(s0));
      var parts := ParseQualifiedName();
      ghost var s1 := stream.State();
      var next := PeekKind();
      if next == Less {
        var args := ParseTypeArguments();
        SinceTransitive(s0, s1, stream.State());
        if args.Some? {
          return Some(Applied(parts, args.value));
        }
      }
      return Some(Named(parts, None));
    }

    method ParseQualifiedName() returns (parts: seq<string>)
      requires Ready(stream.State()) && TypeGrammar.Peek(Left(stream.State())) == Id
      modifies stream
      ensures var left := old(Left(stream.State()));
              var (names, rest) := NameTail([left[0].lexeme], left[1..]);
              parts == names && Reaches(old(stream.State()), stream.State(), rest)
    {
      ghost var s0 := stream.State();
      var id := Next();
      ghost var s1 := stream.State();
      parts := ParseQualifiedNameTail(id.lexeme);
      SinceTransitive(s0, s1, stream.State());
    }

    /** Type arguments in brackets, read speculatively: if they cannot be read, nothing has been. */
    method ParseTypeArguments() returns (args: Option<seq<TypeExpr>>)
      requires Ready(stream.State()) && TypeGrammar.Peek(Left(stream.State())) == Less
      modifies this`errorCount, stream
      ensures var (types, ok, rest) := ParseList(old(Left(stream.State()))[1..]);
              if ok && Close(rest).Some? then
                args == Some(types) && Reaches(old(stream.State()), stream.State(), Close(rest).value)
              else
                args == None && Reaches(old(stream.State()), stream.State(), old(Left(stream.State())))
      ensures errorCount == old(errorCount) + ListErrors(old(Left(stream.State()))[1..])
      decreases |Left(stream.State())|, 1
    {
      ghost var s0 := stream.State();
      Speculate();
      args := ReadTypeArguments();
      if args.Some? {
        Keep(s0);
      } else {
        TakeBack(s0);
      }
    }

    /** Set a rollback point. */
    method Speculate()
      requires Ready(stream.State())
      modifies stream
      ensures stream.State() == Mark(old(stream.State())) && Ready(stream.State())
      ensures Left(stream.State()) == old(Left(stream.State()))
    {
      stream.MarkRollback();
    }

    /** Give up the rollback point and keep what has been read since. */
    method Keep(ghost s0: Stream)
      requires Ready(stream.State()) && Since(Mark(s0), stream.State())
      modifies stream
      ensures Reaches(s0, stream.State(), old(Left(stream.State())))
    {
      CommitReaches(s0, stream.State());
      stream.CommitRollback();
    }

    /** Return to the rollback point. */
    method TakeBack(ghost s0: Stream)
      requires Ready(s0) && Ready(stream.State()) && Since(Mark(s0), stream.State())
      modifies stream
      ensures Reaches(s0, stream.State(), Left(s0))
    {
      RollbackReaches(s0, stream.State());
      stream.RollbackToMark();
    }

    method ReadTypeArguments() returns (args: Option<seq<TypeExpr>>)
      requires Ready(stream.State()) && TypeGrammar.Peek(Left(stream.State())) == Less
      modifies this`errorCount, stream
      ensures Ready(stream.State()) && Since(old(stream.State()), stream.State())
      ensures var (types, ok, rest) := ParseList(old(Left(stream.State()))[1..]);
              if ok && Close(rest).Some? then args == Some(types) && Left(stream.State()) == Close(rest).value
              else args == None
      ensures errorCount == old(errorCount) + ListErrors(old(Left(stream.State()))[1..])
      decreases |Left(stream.State())|, 0
    {
      ghost var s0 := stream.State();
      var _ := Next();
      ghost var s1 := stream.State();
      var types, ok := ParseCommaSeparated();
      ghost var s2 := stream.State();
      SinceTransitive(s0, s1, s2);
      if !ok {
        return None;
      }
      ok := ConsumeClosingAngleBracket();
      if !ok {
        return None;
      }
      SinceTransitive(s0, s2, stream.State());
      return Some(types);
    }

    /** One or more types separated by commas. */
    method ParseCommaSeparated() returns (types: seq<TypeExpr>, ok: bool)
      requires Ready(stream.State())
      modifies this`errorCount, stream
      ensures (types, ok) == (ParseList(old(Left(stream.State()))).0, ParseList(old(Left(stream.State()))).1)
      ensures Reaches(old(stream.State()), stream.State(), ParseList(old(Left(stream.State()))).2)
      ensures errorCount == old(errorCount) + ListErrors(old(Left(stream.State())))
      decreases |Left(stream.State())|, 2
    {
      ghost var s0 := stream.State();
      var first := ParseTypeExpr();
      if first.None? {
        return [], false;
      }
      types := [first.value];
      var next := PeekKind();
      while next == Comma
        invariant Ready(stream.State()) && Since(s0, stream.State())
        invariant next == TypeGrammar.Peek(Left(stream.State())) && |Left(stream.State())| < |Left(s0)|
        invariant ParseListTail(types, Left(stream.State())) == ParseList(Left(s0))
        invariant errorCount + TailErrors(Left(stream.State())) == old(errorCount) + ListErrors(Left(s0))
        decreases |Left(stream.State())|
      {
        var element := ParseNextElement(s0);
        if element.None? {
          return types, false;
        }
        types := types + [element.value];
        next := PeekKind();
      }
      ok := true;
    }

    /** A comma and a type. */
    method ParseNextElement(ghost s0: Stream) returns (element: Option<TypeExpr>)
      requires Ready(stream.State()) && Since(s0, stream.State())
      requires TypeGrammar.Peek(Left(stream.State())) == Comma
      modifies this`errorCount, stream
      ensures Ready(stream.State()) && Since(s0, stream.State())
      ensures (element, Left(stream.State())) == ParseType(old(Left(stream.State()))[1..])
      ensures errorCount == old(errorCount) + TypeErrors(old(Left(stream.State()))[1..])
      decreases |Left(stream.State())|, 1
    {
      ghost var s1 := stream.State();
      var _ := Next();
      ghost var s2 := stream.State();
      element := ParseTypeExpr();
      SinceTransitive(s1, s2, stream.State());
      SinceTransitive(s0, s1, stream.State());
    }
  }
}
