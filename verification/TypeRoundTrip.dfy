/** Printing a type expression, lexing the text and parsing the tokens gives the expression back. */
module TypeRoundTrip {
  import opened Wrappers
  import opened Tokens
  import opened TypeExprs
  import opened TypeGrammar
  import Decimal

  // ---------- The tokens of a type expression ----------

  const LESS := Token(Less, "<")
  const PTR := Token(Ptr, "ptr")
  const TICK := Token(Tick, "'")
  const COMMA := Token(Comma, ",")
  const COLONS := Token(DoubleColon, "::")
  const LPAREN := Token(LeftParen, "(")
  const RPAREN := Token(RightParen, ")")
  const LBRACKET := Token(LeftBracket, "[")
  const RBRACKET := Token(RightBracket, "]")
  const ARROW := Token(Arrow, "->")

  function NameToks(parts: seq<string>): seq<Token>
  {
    if parts == [] then [] else [Token(Id, parts[0])] + TailToks(parts[1..])
  }

  function TailToks(parts: seq<string>): seq<Token>
  {
    if parts == [] then [] else [COLONS, Token(Id, parts[0])] + TailToks(parts[1..])
  }

  /** The tokens of a type expression, with no two closing brackets glued together. */
  function Toks(e: TypeExpr): seq<Token>
  {
    match e
    case Named(parts, _) => NameToks(parts)
    case PointerTo(p, linear) => (if linear then [TICK] else []) + [PTR, LESS] + Toks(p) + [GREATER]
    case ArrayOf(element, n) => [LBRACKET, Token(Num, Decimal.Show(n)), RBRACKET] + Toks(element)
    case FunctionOf(ps, r) => [LPAREN] + ListToks(ps) + [RPAREN, ARROW] + Toks(r)
    case Applied(base, args) => NameToks(base) + [LESS] + ListToks(args) + [GREATER]
    case TupleOf(es) => [LPAREN] + ListToks(es) + [RPAREN]
  }

  function ListToks(es: seq<TypeExpr>): seq<Token>
  {
    if es == [] then [] else Toks(es[0]) + MoreToks(es[1..])
  }

  function MoreToks(es: seq<TypeExpr>): seq<Token>
    decreases es
  {
    if es == [] then [] else [COMMA] + Toks(es[0]) + MoreToks(es[1..])
  }

  /** An expression the parser can produce: names have parts, tuples at least two elements, applications at
      least one argument. */
  predicate Parsable(e: TypeExpr)
  {
    match e
    case Named(parts, resolved) => parts != [] && resolved.None?
    case PointerTo(p, _) => Parsable(p)
    case ArrayOf(element, _) => Parsable(element)
    case FunctionOf(ps, r) => ParsableAll(ps) && Parsable(r)
    case Applied(base, args) => base != [] && args != [] && ParsableAll(args)
    case TupleOf(es) => |es| >= 2 && ParsableAll(es)
  }

  predicate ParsableAll(es: seq<TypeExpr>)
  {
    es == [] || (Parsable(es[0]) && ParsableAll(es[1..]))
  }

  /** What follows cannot be taken for more of the type. */
  predicate Follows(rest: seq<Token>)
  {
    Peek(rest) != Less && Peek(rest) != DoubleColon && Peek(rest) != Arrow
  }

  // ---------- Single parsing steps ----------

  lemma TailStep(parts: seq<string>, name: string, k: seq<Token>)
    ensures NameTail(parts, [COLONS, Token(Id, name)] + k) == NameTail(parts + [name], k)
  {
    var ts := [COLONS, Token(Id, name)] + k;
    assert ts[1..][0] == Token(Id, name) && ts[2..] == k;
  }

  lemma PointerStep(linear: bool, ts: seq<Token>, p: TypeExpr, k: seq<Token>)
    requires ParseType(ts) == (Some(p), [GREATER] + k)
    ensures ParseType((if linear then [TICK] else []) + ([PTR, LESS] + ts)) == (Some(PointerTo(p, linear)), k)
  {
    PlainPointerStep(linear, ts, p, k);
    var us := [PTR, LESS] + ts;
    if linear {
      TickStep(us);
    } else {
      assert [] + us == us;
      PtrStep(us);
    }
  }

  lemma PtrStep(us: seq<Token>)
    requires Peek(us) == Ptr
    ensures ParseType(us) == ParsePointer(us, false)
  {
  }

  lemma TickStep(us: seq<Token>)
    requires Peek(us) == Ptr
    ensures ParseType([TICK] + us) == ParsePointer(us, true)
  {
    assert ([TICK] + us)[1..] == us;
  }

  lemma PlainPointerStep(linear: bool, ts: seq<Token>, p: TypeExpr, k: seq<Token>)
    requires ParseType(ts) == (Some(p), [GREATER] + k)
    ensures ParsePointer([PTR, LESS] + ts, linear) == (Some(PointerTo(p, linear)), k)
  {
    var us := [PTR, LESS] + ts;
    assert us[1..][0] == LESS && us[2..] == ts;
    assert ([GREATER] + k)[1..] == k;
  }

  lemma ArrayStep(n: nat, ts: seq<Token>, element: TypeExpr, k: seq<Token>)
    requires ParseType(ts) == (Some(element), k)
    ensures ParseType([LBRACKET] + ([Token(Num, Decimal.Show(n)), RBRACKET] + ts)) == (Some(ArrayOf(element, n)), k)
  {
    SizeStep(n, ts, element, k);
    BracketStep([Token(Num, Decimal.Show(n)), RBRACKET] + ts);
  }

  lemma BracketStep(us: seq<Token>)
    ensures ParseType([LBRACKET] + us) == ParseArray(us)
  {
    assert ([LBRACKET] + us)[1..] == us;
  }

  lemma SizeStep(n: nat, ts: seq<Token>, element: TypeExpr, k: seq<Token>)
    requires ParseType(ts) == (Some(element), k)
    ensures ParseArray([Token(Num, Decimal.Show(n)), RBRACKET] + ts) == (Some(ArrayOf(element, n)), k)
  {
    var us := [Token(Num, Decimal.Show(n)), RBRACKET] + ts;
    assert us[1..][0] == RBRACKET && us[2..] == ts;
    ReadSize(n);
  }

  lemma ReadSize(n: nat)
    ensures Decimal.ReadLeading(Decimal.Show(n)) == n
  {
    var s := Decimal.Show(n);
    Decimal.LeadingShow(s, "");
    assert s + "" == s && s[..|s|] == s;
    Decimal.ReadShow(n);
  }

  lemma ParensStep(ts: seq<Token>)
    ensures ParseType([LPAREN] + ts) == ParseParens(ts)
  {
    assert ([LPAREN] + ts)[1..] == ts;
  }

  lemma FunctionStep(ps: seq<TypeExpr>, ts: seq<Token>, r: TypeExpr, k: seq<Token>)
    requires ParseType(ts) == (Some(r), k)
    ensures ParseAfterList(ps, [RPAREN, ARROW] + ts) == (Some(FunctionOf(ps, r)), k)
  {
    var us := [RPAREN, ARROW] + ts;
    assert us[1..][0] == ARROW && us[2..] == ts;
  }

  lemma TupleStep(es: seq<TypeExpr>, k: seq<Token>)
    requires |es| >= 2 && Peek(k) != Arrow
    ensures ParseAfterList(es, [RPAREN] + k) == (Some(TupleOf(es)), k)
  {
    assert ([RPAREN] + k)[1..] == k;
  }

  lemma NameStep(parts: seq<string>, ts: seq<Token>, k: seq<Token>)
    requires parts != [] && NameTail([parts[0]], ts) == (parts, k) && Peek(k) != Less
    ensures ParseType([Token(Id, parts[0])] + ts) == (Some(Named(parts, None)), k)
  {
    var us := [Token(Id, parts[0])] + ts;
    assert us[1..] == ts;
    assert ParseName(us) == (Some(Named(parts, None)), k);
  }

  lemma AppliedStep(parts: seq<string>, ts: seq<Token>, us: seq<Token>, args: seq<TypeExpr>, k: seq<Token>)
    requires parts != [] && NameTail([parts[0]], ts) == (parts, [LESS] + us)
    requires ParseList(us) == (args, true, [GREATER] + k)
    ensures ParseType([Token(Id, parts[0])] + ts) == (Some(Applied(parts, args)), k)
  {
    var vs := [Token(Id, parts[0])] + ts;
    assert vs[1..] == ts && ([LESS] + us)[1..] == us && ([GREATER] + k)[1..] == k;
    assert ParseName(vs) == (Some(Applied(parts, args)), k);
  }

  lemma ListStep(types: seq<TypeExpr>, ts: seq<Token>, e: TypeExpr, k: seq<Token>)
    requires ParseType(ts) == (Some(e), k)
    ensures ParseListTail(types, [COMMA] + ts) == ParseListTail(types + [e], k)
  {
    assert ([COMMA] + ts)[1..] == ts;
  }

  // ---------- How the tokens of an expression line up with what follows ----------

  lemma TailShape(parts: seq<string>, k: seq<Token>)
    requires parts != []
    ensures TailToks(parts) + k == [COLONS, Token(Id, parts[0])] + (TailToks(parts[1..]) + k)
  {
  }

  lemma NameShape(parts: seq<string>, k: seq<Token>)
    requires parts != []
    ensures NameToks(parts) + k == [Token(Id, parts[0])] + (TailToks(parts[1..]) + k)
  {
  }

  lemma PointerShape(p: TypeExpr, linear: bool, k: seq<Token>)
    ensures Toks(PointerTo(p, linear)) + k
         == (if linear then [TICK] else []) + ([PTR, LESS] + (Toks(p) + ([GREATER] + k)))
  {
  }

  lemma ArrayShape(e: TypeExpr, n: nat, k: seq<Token>)
    ensures Toks(ArrayOf(e, n)) + k == [LBRACKET] + ([Token(Num, Decimal.Show(n)), RBRACKET] + (Toks(e) + k))
  {
  }

  lemma FunctionShape(ps: seq<TypeExpr>, r: TypeExpr, k: seq<Token>)
    ensures Toks(FunctionOf(ps, r)) + k == [LPAREN] + (ListToks(ps) + ([RPAREN, ARROW] + (Toks(r) + k)))
  {
  }

  lemma TupleShape(es: seq<TypeExpr>, k: seq<Token>)
    ensures Toks(TupleOf(es)) + k == [LPAREN] + (ListToks(es) + ([RPAREN] + k))
  {
  }

  lemma AppliedShape(base: seq<string>, args: seq<TypeExpr>, k: seq<Token>)
    ensures Toks(Applied(base, args)) + k == NameToks(base) + ([LESS] + (ListToks(args) + ([GREATER] + k)))
  {
  }

  lemma Assoc(a: seq<Token>, b: seq<Token>, c: seq<Token>)
    ensures (a + b) + c == a + (b + c)
  {
  }

  lemma ListShape(es: seq<TypeExpr>, k: seq<Token>)
    requires es != []
    ensures ListToks(es) + k == Toks(es[0]) + (MoreToks(es[1..]) + k)
  {
    Assoc(Toks(es[0]), MoreToks(es[1..]), k);
  }

  lemma MoreShape(es: seq<TypeExpr>, k: seq<Token>)
    requires es != []
    ensures MoreToks(es) + k == [COMMA] + (Toks(es[0]) + (MoreToks(es[1..]) + k))
  {
    Assoc([COMMA] + Toks(es[0]), MoreToks(es[1..]), k);
    Assoc([COMMA], Toks(es[0]), MoreToks(es[1..]) + k);
  }

  lemma MoreBegins(es: seq<TypeExpr>, k: seq<Token>)
    ensures es == [] ==> MoreToks(es) + k == k
    ensures es != [] ==> Peek(MoreToks(es) + k) == Comma
  {
  }

  lemma MoreStep(types: seq<TypeExpr>, es: seq<TypeExpr>, k: seq<Token>)
    requires es != []
    requires ParseType(Toks(es[0]) + (MoreToks(es[1..]) + k)) == (Some(es[0]), MoreToks(es[1..]) + k)
    ensures ParseListTail(types, MoreToks(es) + k) == ParseListTail(types + [es[0]], MoreToks(es[1..]) + k)
  {
    var more := MoreToks(es[1..]) + k;
    MoreShape(es, k);
    ListStep(types, Toks(es[0]) + more, es[0], more);
  }

  // ---------- Parsing the tokens back ----------

  lemma {:induction false} ParseTail(parts: seq<string>, more: seq<string>, k: seq<Token>)
    requires Peek(k) != DoubleColon
    ensures NameTail(parts, TailToks(more) + k) == (parts + more, k)
    decreases more
  {
    if more == [] {
      assert TailToks(more) + k == k && parts + more == parts;
    } else {
      TailShape(more, k);
      TailStep(parts, more[0], TailToks(more[1..]) + k);
      ParseTail(parts + [more[0]], more[1..], k);
      assert parts + [more[0]] + more[1..] == parts + more;
    }
  }

  lemma NameParts(parts: seq<string>, k: seq<Token>)
    requires parts != [] && Peek(k) != DoubleColon
    ensures NameTail([parts[0]], TailToks(parts[1..]) + k) == (parts, k)
  {
    ParseTail([parts[0]], parts[1..], k);
    assert [parts[0]] + parts[1..] == parts;
  }

  lemma {:induction false} ParseToks(e: TypeExpr, k: seq<Token>)
    requires Parsable(e) && Follows(k)
    ensures ParseType(Toks(e) + k) == (Some(e), k)
    decreases e, 1
  {
    match e
    case Named(parts, _) =>
      NameShape(parts, k);
      NameParts(parts, k);
      NameStep(parts, TailToks(parts[1..]) + k, k);
    case PointerTo(p, linear) =>
      PointerShape(p, linear, k);
      ParseToks(p, [GREATER] + k);
      PointerStep(linear, Toks(p) + ([GREATER] + k), p, k);
    case ArrayOf(element, n) =>
      ArrayShape(element, n, k);
      ParseToks(element, k);
      ArrayStep(n, Toks(element) + k, element, k);
    case FunctionOf(ps, r) => ParseFunctionToks(ps, r, e, k);
    case TupleOf(es) => ParseTupleToks(es, e, k);
    case Applied(base, args) => ParseAppliedToks(base, args, e, k);
  }

  lemma {:induction false} ParseFunctionToks(ps: seq<TypeExpr>, r: TypeExpr, e: TypeExpr, k: seq<Token>)
    requires e == FunctionOf(ps, r) && Parsable(e) && Follows(k)
    ensures ParseType(Toks(e) + k) == (Some(e), k)
    decreases e, 0
  {
    var k1 := [RPAREN, ARROW] + (Toks(r) + k);
    FunctionShape(ps, r, k);
    ParensStep(ListToks(ps) + k1);
    ParseParensToks(ps, k1);
    ParseToks(r, k);
    FunctionStep(ps, Toks(r) + k, r, k);
  }

  lemma {:induction false} ParseTupleToks(es: seq<TypeExpr>, e: TypeExpr, k: seq<Token>)
    requires e == TupleOf(es) && Parsable(e) && Follows(k)
    ensures ParseType(Toks(e) + k) == (Some(e), k)
    decreases e, 0
  {
    TupleShape(es, k);
    ParensStep(ListToks(es) + ([RPAREN] + k));
    ParseParensToks(es, [RPAREN] + k);
    TupleStep(es, k);
  }

  lemma {:induction false} ParseAppliedToks(base: seq<string>, args: seq<TypeExpr>, e: TypeExpr, k: seq<Token>)
    requires e == Applied(base, args) && Parsable(e)
    ensures ParseType(Toks(e) + k) == (Some(e), k)
    decreases e, 0
  {
    var us := ListToks(args) + ([GREATER] + k);
    AppliedShape(base, args, k);
    NameShape(base, [LESS] + us);
    NameParts(base, [LESS] + us);
    ParseListToks(args, [GREATER] + k);
    AppliedStep(base, TailToks(base[1..]) + ([LESS] + us), us, args, k);
  }

  lemma {:induction false} ToksBegin(e: TypeExpr)
    requires Parsable(e)
    ensures Toks(e) != [] && Toks(e)[0].kind in {Id, Tick, Ptr, LeftBracket, LeftParen}
  {
  }

  lemma {:induction false} ParseParensToks(es: seq<TypeExpr>, k: seq<Token>)
    requires ParsableAll(es) && Peek(k) == RightParen
    ensures ParseParens(ListToks(es) + k) == ParseAfterList(es, k)
    decreases es, 3
  {
    if es == [] {
      assert ListToks(es) + k == k;
    } else {
      ToksBegin(es[0]);
      assert (ListToks(es) + k)[0] == Toks(es[0])[0];
      ParseListToks(es, k);
    }
  }

  lemma {:induction false} ParseListToks(es: seq<TypeExpr>, k: seq<Token>)
    requires es != [] && ParsableAll(es) && (Peek(k) == RightParen || Peek(k) == Greater)
    ensures ParseList(ListToks(es) + k) == (es, true, k)
    decreases es, 2
  {
    var more := MoreToks(es[1..]) + k;
    ListShape(es, k);
    MoreBegins(es[1..], k);
    ParseToks(es[0], more);
    ParseMoreToks([es[0]], es[1..], k);
    FirstOfList(Toks(es[0]) + more, es[0], more);
    assert [es[0]] + es[1..] == es;
  }

  lemma FirstOfList(ts: seq<Token>, first: TypeExpr, rest: seq<Token>)
    requires ParseType(ts) == (Some(first), rest)
    ensures ParseList(ts) == ParseListTail([first], rest)
  {
  }

  lemma {:induction false} ParseMoreToks(types: seq<TypeExpr>, es: seq<TypeExpr>, k: seq<Token>)
    requires ParsableAll(es) && (Peek(k) == RightParen || Peek(k) == Greater)
    ensures ParseListTail(types, MoreToks(es) + k) == (types + es, true, k)
    decreases es, 1
  {
    MoreBegins(es, k);
    if es == [] {
      assert types + es == types;
    } else {
      ParseNextToks(types, es, k);
      ParseMoreToks(types + [es[0]], es[1..], k);
      assert types + [es[0]] + es[1..] == types + es;
    }
  }

  lemma {:induction false} ParseNextToks(types: seq<TypeExpr>, es: seq<TypeExpr>, k: seq<Token>)
    requires es != [] && ParsableAll(es) && (Peek(k) == RightParen || Peek(k) == Greater)
    ensures ParseListTail(types, MoreToks(es) + k) == ParseListTail(types + [es[0]], MoreToks(es[1..]) + k)
    decreases es, 0
  {
    MoreBegins(es[1..], k);
    ParseToks(es[0], MoreToks(es[1..]) + k);
    MoreStep(types, es, k);
  }

  /** Whatever way closing brackets are glued to each other, or to what follows, the parser reads the
      expression and leaves what follows. */
  lemma GluedToksParse(e: TypeExpr, ts: seq<Token>, k: seq<Token>)
    requires Parsable(e) && Follows(k) && Unglue(ts) == Toks(e) + k
    ensures ParseType(ts).0 == Some(e) && Unglue(ParseType(ts).1) == k
  {
    ParseTypeUnglue(ts);
    ParseToks(e, k);
  }
}
