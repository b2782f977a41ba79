/** Printing a type expression, lexing the text and parsing the tokens. */
module TextRoundTrip {
  import opened Wrappers
  import opened Tokens
  import opened TypeExprs
  import opened TypeGrammar
  import opened TypeRoundTrip
  import opened Lexing
  import Decimal

  /** A way to read a text. */
  type Reader = string -> seq<Token>

  /** The tokens of a text that reach the parser, with glued brackets taken apart. */
  const READ: Reader := s => Unglue(Accepted(Lex(s)))

  /** Reading takes one step of the lexer and goes on behind it. */
  ghost predicate Faithful(read: Reader)
  {
    forall s {:trigger Step(s)} | s != "" ::
      var (t, n) := Step(s);
      read(s) == (if t.Some? && t.value.kind != Invalid then UnglueToken(t.value) else []) + read(s[n..])
  }

  lemma UnglueAppend(a: Option<Token>, ts: seq<Token>)
    ensures Unglue(Accepted(Emitted(a) + ts))
         == (if a.Some? && a.value.kind != Invalid then UnglueToken(a.value) else []) + Unglue(Accepted(ts))
  {
    AcceptedAppend(Emitted(a), ts);
    if a.Some? && a.value.kind != Invalid {
      assert Accepted([a.value]) == [a.value];
      UnglueCons(a.value, Accepted(ts));
    } else {
      assert Accepted(Emitted(a)) == [] && [] + Accepted(ts) == Accepted(ts);
    }
  }

  lemma ReadIsFaithful()
    ensures Faithful(READ)
  {
    forall s | s != ""
      ensures var (t, n) := Step(s);
              READ(s) == (if t.Some? && t.value.kind != Invalid then UnglueToken(t.value) else []) + READ(s[n..])
    {
      var (t, n) := Step(s);
      ScanStep(STEP, s);
      UnglueAppend(t, Lex(s[n..]));
    }
  }

  predicate Identifier(w: string)
  {
    w != "" && IsIdentStart(w[0]) && (forall i | 0 <= i < |w| :: IsIdentPart(w[i])) && WordKind(w) == Id
  }

  predicate Identifiers(parts: seq<string>)
  {
    forall i | 0 <= i < |parts| :: Identifier(parts[i])
  }

  /** An expression that can be written: the parser can produce it, and its names are identifiers. */
  predicate Writable(e: TypeExpr)
  {
    match e
    case Named(parts, resolved) => parts != [] && resolved.None? && Identifiers(parts)
    case PointerTo(p, _) => Writable(p)
    case ArrayOf(element, _) => Writable(element)
    case FunctionOf(ps, r) => WritableAll(ps) && Writable(r)
    case Applied(base, args) => base != [] && Identifiers(base) && args != [] && WritableAll(args)
    case TupleOf(es) => |es| >= 2 && WritableAll(es)
  }

  predicate WritableAll(es: seq<TypeExpr>)
  {
    es == [] || (Writable(es[0]) && WritableAll(es[1..]))
  }

  lemma {:induction false} WritableParsable(e: TypeExpr)
    requires Writable(e)
    ensures Parsable(e)
    decreases e, 1
  {
    match e
    case Named(_, _) =>
    case PointerTo(p, _) => WritableParsable(p);
    case ArrayOf(element, _) => WritableParsable(element);
    case FunctionOf(ps, r) => WritableParsableAll(ps); WritableParsable(r);
    case Applied(_, args) => WritableParsableAll(args);
    case TupleOf(es) => WritableParsableAll(es);
  }

  lemma {:induction false} WritableParsableAll(es: seq<TypeExpr>)
    requires WritableAll(es)
    ensures ParsableAll(es)
    decreases es, 0
  {
    if es != [] {
      WritableParsable(es[0]);
      WritableParsableAll(es[1..]);
    }
  }

  /** The text cannot continue a name or a number. */
  predicate Boundary(r: string)
  {
    r == "" || !IsIdentPart(r[0])
  }

  // ---------- Reading one token ----------

  lemma ReadStep(read: Reader, s: string, t: Token, n: nat)
    requires Faithful(read)
    requires s != "" && Step(s) == (Some(t), n) && t.kind != Invalid
    ensures 0 < n <= |s| && read(s) == UnglueToken(t) + read(s[n..])
  {
  }

  /** A token written `w` that does not run into what follows. */
  lemma ReadToken(read: Reader, w: string, t: Token, r: string)
    requires Faithful(read)
    requires w != "" && Step(w + r) == (Some(t), |w|) && t.kind !in {Invalid, Shr, GreaterEqual}
    ensures read(w + r) == [t] + read(r)
  {
    ReadStep(read, w + r, t, |w|);
    assert (w + r)[|w|..] == r;
  }

  lemma ReadSpace(read: Reader, r: string)
    requires Faithful(read)
    ensures read(" " + r) == read(r)
  {
    var s := " " + r;
    assert Step(s) == (None, 1);
    assert s[1..] == r;
  }

  lemma ReadPunctuation(read: Reader, c: char, r: string)
    requires Faithful(read)
    requires c in {'(', ')', '[', ']', ','}
    ensures read([c] + r) == [Punctuation([c]).value.0] + read(r)
  {
    assert Step([c] + r) == (Some(Punctuation([c]).value.0), 1);
    ReadToken(read, [c], Punctuation([c]).value.0, r);
  }

  lemma ReadColons(read: Reader, r: string)
    requires Faithful(read)
    ensures read("::" + r) == [COLONS] + read(r)
  {
    assert Punctuation("::" + r) == Some((COLONS, 2));
    ReadToken(read, "::", COLONS, r);
  }

  lemma ReadArrow(read: Reader, r: string)
    requires Faithful(read)
    ensures read("->" + r) == [ARROW] + read(r)
  {
    assert Operator("->" + r) == Some((ARROW, 2));
    ReadToken(read, "->", ARROW, r);
  }

  lemma ReadLess(read: Reader, r: string)
    requires Faithful(read)
    requires r != "" && r[0] != '<' && r[0] != '='
    ensures read("<" + r) == [LESS] + read(r)
  {
    assert ("<" + r)[1] == r[0] && Operator("<" + r) == Some((LESS, 1));
    ReadToken(read, "<", LESS, r);
  }

  lemma ReadTick(read: Reader, r: string)
    requires Faithful(read)
    ensures read("'" + r) == [TICK] + read(r)
  {
    ReadToken(read, "'", TICK, r);
  }

  lemma {:induction false} WordLenAppend(w: string, r: string)
    requires (forall i | 0 <= i < |w| :: IsIdentPart(w[i])) && Boundary(r)
    ensures WordLen(w + r) == |w|
  {
    if w == "" {
      assert w + r == r;
    } else {
      assert (w + r)[1..] == w[1..] + r;
      WordLenAppend(w[1..], r);
    }
  }

  lemma ReadWord(read: Reader, w: string, t: Token, r: string)
    requires Faithful(read)
    requires w != "" && IsIdentStart(w[0]) && (forall i | 0 <= i < |w| :: IsIdentPart(w[i])) && Boundary(r)
    requires t == Token(WordKind(w), w)
    ensures read(w + r) == [t] + read(r)
  {
    WordLenAppend(w, r);
    assert (w + r)[..|w|] == w && (w + r)[0] == w[0];
    ReadToken(read, w, t, r);
  }

  lemma {:induction false} DigitsLenAppend(w: string, r: string)
    requires w != "" && Decimal.AllDigits(w)
    ensures DigitsLen(w + ("]" + r)) == |w|
  {
    var s := w + ("]" + r);
    if |w| > 1 {
      assert s[1..] == w[1..] + ("]" + r);
      DigitsLenAppend(w[1..], r);
    } else {
      assert s[1] == ']';
    }
  }

  lemma ReadNumber(read: Reader, w: string, r: string)
    requires Faithful(read)
    requires w != "" && Decimal.AllDigits(w)
    ensures read(w + ("]" + r)) == [Token(Num, w)] + read("]" + r)
  {
    var s := w + ("]" + r);
    DigitsLenAppend(w, r);
    assert s[0] == w[0] && s[|w|] == ']' && s[..|w|] == w;
    ReadToken(read, w, Token(Num, w), "]" + r);
  }

  // ---------- Closing brackets ----------

  function Closers(k: nat): string
  {
    if k == 0 then "" else ">" + Closers(k - 1)
  }

  function Greaters(k: nat): (r: seq<Token>)
    ensures |r| == k
  {
    if k == 0 then [] else [GREATER] + Greaters(k - 1)
  }

  /** A `>` in front of the text would not take an `=` away from the operator it belongs to. */
  predicate Clean(r: string)
  {
    if r == "" then true
    else if r[0] == '>' then Clean(r[1..])
    else !(r[0] == '=' && |r| > 1 && (r[1] == '=' || r[1] == '>'))
  }

  lemma ReadTwoClosers(read: Reader, r: string)
    requires Faithful(read)
    ensures read(">>" + r) == [GREATER, GREATER] + read(r)
  {
    assert Operator(">>" + r) == Some((Token(Shr, ">>"), 2));
    ReadStep(read, ">>" + r, Token(Shr, ">>"), 2);
    assert (">>" + r)[2..] == r;
  }

  lemma ReadCloserPlain(read: Reader, r: string)
    requires Faithful(read)
    requires r == "" || (r[0] != '>' && r[0] != '=')
    ensures read(">" + r) == [GREATER] + read(r)
  {
    assert r != "" ==> (">" + r)[1] == r[0];
    assert Operator(">" + r) == Some((GREATER, 1));
    ReadToken(read, ">", GREATER, r);
  }

  lemma ReadCloserEqual(read: Reader, r: string)
    requires Faithful(read)
    ensures read(">=" + r) == [GREATER, ASSIGN] + read(r)
  {
    assert Operator(">=" + r) == Some((Token(GreaterEqual, ">="), 2));
    ReadStep(read, ">=" + r, Token(GreaterEqual, ">="), 2);
    assert (">=" + r)[2..] == r;
  }

  lemma ReadEqual(read: Reader, r: string)
    requires Faithful(read)
    requires r != "" && r[0] == '='
    ensures read(r) != []
    ensures read(r)[0] == ASSIGN <==> Clean(r)
    ensures Clean(r) ==> read(r) == [ASSIGN] + read(r[1..])
  {
    if |r| > 1 && r[1] == '=' {
      ReadStep(read, r, Token(Equal, "=="), 2);
      assert read(r)[0] == Token(Equal, "==") && !Clean(r);
    } else if |r| > 1 && r[1] == '>' {
      ReadStep(read, r, Token(FatArrow, "=>"), 2);
      assert read(r)[0] == Token(FatArrow, "=>") && !Clean(r);
    } else {
      ReadStep(read, r, ASSIGN, 1);
      assert read(r) == [ASSIGN] + read(r[1..]) && Clean(r);
    }
  }

  /** One closing bracket in front of a text is read as such; what follows it reads as it would alone exactly
      when the text is clean. */
  lemma {:induction false} ReadCloserIff(read: Reader, r: string) returns (rest: seq<Token>)
    requires Faithful(read)
    ensures read(">" + r) == [GREATER] + rest
    ensures rest == read(r) <==> Clean(r)
    ensures rest == read(r) || Peek(rest) == Greater || Peek(rest) == Assign
    decreases |r|, 0
  {
    if r == "" || (r[0] != '>' && r[0] != '=') {
      ReadCloserPlain(read, r);
      rest := read(r);
    } else if r[0] == '=' {
      Prepend('=', r);
      rest := ReadCloserAssign(read, r[1..]);
    } else {
      Prepend('>', r);
      rest := ReadCloserPair(read, r[1..]);
    }
  }

  lemma Prepend(c: char, r: string)
    requires r != "" && r[0] == c
    ensures r == [c] + r[1..]
    ensures c == '=' ==> r == "=" + r[1..] && ">" + r == ">=" + r[1..]
    ensures c == '>' ==> r == ">" + r[1..] && ">" + r == ">>" + r[1..]
  {
  }

  lemma ReadCloserAssign(read: Reader, r: string) returns (rest: seq<Token>)
    requires Faithful(read)
    ensures read(">=" + r) == [GREATER] + rest && Peek(rest) == Assign
    ensures rest == read("=" + r) <==> Clean("=" + r)
  {
    ReadCloserEqual(read, r);
    ReadEqualIff(read, r);
    rest := [ASSIGN] + read(r);
    Assoc([GREATER], [ASSIGN], read(r));
  }

  lemma ReadEqualIff(read: Reader, r: string)
    requires Faithful(read)
    ensures read("=" + r) == [ASSIGN] + read(r) <==> Clean("=" + r)
  {
    ReadEqual(read, "=" + r);
    assert ("=" + r)[1..] == r;
  }

  lemma {:induction false} ReadCloserPair(read: Reader, r: string) returns (rest: seq<Token>)
    requires Faithful(read)
    ensures read(">>" + r) == [GREATER] + rest && Peek(rest) == Greater
    ensures rest == read(">" + r) <==> Clean(r)
    decreases |r|, 1
  {
    ReadTwoClosers(read, r);
    var inner := ReadCloserIff(read, r);
    rest := [GREATER] + read(r);
    SameTail(GREATER, read(r), inner);
  }

  lemma SameTail(t: Token, a: seq<Token>, b: seq<Token>)
    ensures [t] + a == [t] + b <==> a == b
    ensures [t, t] + a == [t] + ([t] + a)
  {
    assert ([t] + a)[1..] == a && ([t] + b)[1..] == b;
  }

  /** The first `k` tokens are closing brackets, and then come those in `rest`. */
  predicate Closed(s: seq<Token>, k: nat, rest: seq<Token>)
  {
    s == Greaters(k) + rest
  }

  lemma ReadTwoMore(read: Reader, k: nat, r: string, rest: seq<Token>)
    requires Faithful(read)
    requires k >= 2 && Closed(read(Closers(k - 2) + r), k - 2, rest)
    ensures Closed(read(Closers(k) + r), k, rest)
  {
    ClosersUnfold(k, r);
    ReadTwoClosers(read, Closers(k - 2) + r);
    ClosedTwice(read(Closers(k - 2) + r), k - 2, rest);
  }

  lemma ClosedTwice(s: seq<Token>, k: nat, rest: seq<Token>)
    requires Closed(s, k, rest)
    ensures Closed([GREATER, GREATER] + s, k + 2, rest)
  {
    Assoc([GREATER], [GREATER], Greaters(k));
    Assoc([GREATER] + [GREATER], Greaters(k), rest);
  }

  lemma ClosersUnfold(k: nat, r: string)
    ensures k >= 2 ==> Closers(k) + r == ">>" + (Closers(k - 2) + r)
    ensures k == 1 ==> Closers(k) + r == ">" + r
    ensures k == 0 ==> Closers(k) + r == r
  {
  }

  /** Two closing brackets at a time are read as two, so it is the parity that counts. */
  lemma {:induction false} ReadClosersIff(read: Reader, k: nat, r: string) returns (rest: seq<Token>)
    requires Faithful(read)
    ensures Closed(read(Closers(k) + r), k, rest)
    ensures rest == read(r) <==> Clean(r) || k % 2 == 0
    ensures rest == read(r) || Peek(rest) == Greater || Peek(rest) == Assign
  {
    if k >= 2 {
      rest := ReadClosersIff(read, k - 2, r);
      ReadTwoMore(read, k, r, rest);
    } else if k == 1 {
      ClosersUnfold(k, r);
      rest := ReadCloserIff(read, r);
      assert Greaters(1) == [GREATER];
    } else {
      ClosersUnfold(k, r);
      rest := read(r);
    }
  }

  // ---------- Reading a printed type ----------

  /** How many closing brackets the printed type ends with. */
  function Closing(e: TypeExpr): nat
  {
    match e
    case Named(_, _) => 0
    case PointerTo(p, _) => Closing(p) + 1
    case ArrayOf(element, _) => Closing(element)
    case FunctionOf(_, r) => Closing(r)
    case Applied(_, args) => LastClosing(args) + 1
    case TupleOf(_) => 0
  }

  function LastClosing(es: seq<TypeExpr>): nat
  {
    if es == [] then 0 else if |es| == 1 then Closing(es[0]) else LastClosing(es[1..])
  }

  /** The text reads as `head`, closing brackets, and then whatever the brackets in front of `r` read as. */
  predicate ReadsAs(read: Reader, text: string, all: seq<Token>, head: seq<Token>, k: nat, r: string)
  {
    read(text) == head + read(Closers(k) + r) && all == head + Greaters(k)
  }

  lemma {:induction false} OneMoreCloser(k: nat, r: string)
    ensures Closers(k) + (">" + r) == Closers(k + 1) + r
    ensures Greaters(k) + [GREATER] == Greaters(k + 1)
  {
    if k > 0 {
      OneMoreCloser(k - 1, r);
      assert Closers(k) + (">" + r) == ">" + (Closers(k - 1) + (">" + r));
      assert Closers(k + 1) + r == ">" + (Closers(k) + r);
      assert Greaters(k) + [GREATER] == [GREATER] + (Greaters(k - 1) + [GREATER]);
    } else {
      assert Closers(0) + (">" + r) == ">" + r == Closers(1) + r;
    }
  }

  lemma NoCloser(read: Reader, text: string, all: seq<Token>, r: string)
    requires read(text) == all + read(r)
    ensures ReadsAs(read, text, all, all, 0, r)
  {
    assert Closers(0) + r == r && all + Greaters(0) == all;
  }

  lemma Prefixed(read: Reader, text: string, all: seq<Token>, head: seq<Token>, k: nat, r: string,
                 before: string, toks: seq<Token>)
    requires ReadsAs(read, text, all, head, k, r) && Adds(read, before, toks, text)
    ensures ReadsAs(read, before + text, toks + all, toks + head, k, r)
  {
    Assoc(toks, head, read(Closers(k) + r));
    Assoc(toks, head, Greaters(k));
  }

  lemma Enclosed(read: Reader, text: string, all: seq<Token>, head: seq<Token>, k: nat, r: string)
    requires ReadsAs(read, text, all, head, k, ">" + r)
    ensures ReadsAs(read, text, all + [GREATER], head, k + 1, r)
  {
    OneMoreCloser(k, r);
    Assoc(head, Greaters(k), [GREATER]);
  }

  /** If the brackets at the end cannot be glued to `r`, the text reads as all of the type's tokens. */
  lemma ReadsAllIff(read: Reader, text: string, all: seq<Token>, head: seq<Token>, k: nat, r: string)
    requires Faithful(read)
    requires ReadsAs(read, text, all, head, k, r)
    ensures read(text) == all + read(r) <==> Clean(r) || k % 2 == 0
  {
    var rest := ReadClosersIff(read, k, r);
    Assoc(head, Greaters(k), rest);
    assert (all + rest)[|all|..] == rest && (all + read(r))[|all|..] == read(r);
  }

  // ---------- Names ----------

  lemma {:induction false} ReadName(read: Reader, parts: seq<string>, r: string)
    requires Faithful(read)
    requires parts != [] && Identifiers(parts) && Boundary(r)
    ensures read(Mangled(parts) + r) == NameToks(parts) + read(r)
  {
    var id := Token(Id, parts[0]);
    if |parts| == 1 {
      ReadWord(read, parts[0], id, r);
      assert NameToks(parts) == [id];
    } else {
      var rest := Mangled(parts[1..]) + r;
      assert Mangled(parts) + r == parts[0] + ("::" + rest);
      ReadWord(read, parts[0], id, "::" + rest);
      ReadColons(read, rest);
      ReadName(read, parts[1..], r);
      NamePart(parts, read(r));
    }
  }

  lemma NamePart(parts: seq<string>, k: seq<Token>)
    requires |parts| > 1
    ensures NameToks(parts) + k == [Token(Id, parts[0])] + ([COLONS] + (NameToks(parts[1..]) + k))
  {
    TailIsName(parts[1..]);
    Assoc([Token(Id, parts[0])], [COLONS] + NameToks(parts[1..]), k);
    Assoc([COLONS], NameToks(parts[1..]), k);
  }

  lemma TailIsName(parts: seq<string>)
    requires parts != []
    ensures TailToks(parts) == [COLONS] + NameToks(parts)
  {
    Assoc([COLONS], [Token(Id, parts[0])], TailToks(parts[1..]));
  }

  // ---------- The first character ----------

  lemma {:induction false} ShowBegins(e: TypeExpr)
    requires Writable(e)
    ensures Print(e) != "" && Print(e)[0] != '<' && Print(e)[0] != '='
  {
    match e
    case Named(parts, _) => MangledBegins(parts);
    case Applied(base, _) => MangledBegins(base);
    case _ =>
  }

  lemma {:induction false} MangledBegins(parts: seq<string>)
    requires parts != [] && Identifiers(parts)
    ensures Mangled(parts) != "" && IsIdentStart(Mangled(parts)[0])
  {
    assert Identifier(parts[0]);
  }

  // ---------- Text put in front ----------

  /** In front of `x`, the text reads as these tokens. */
  predicate Adds(read: Reader, text: string, toks: seq<Token>, x: string)
  {
    read(text + x) == toks + read(x)
  }

  lemma AddsBoth(read: Reader, a: string, ta: seq<Token>, b: string, tb: seq<Token>, x: string)
    requires Adds(read, a, ta, b + x) && Adds(read, b, tb, x)
    ensures Adds(read, a + b, ta + tb, x)
  {
    assert (a + b) + x == a + (b + x);
    Assoc(ta, tb, read(x));
  }

  function TickText(linear: bool): string { if linear then "'" else "" }

  function TickToks(linear: bool): seq<Token> { if linear then [TICK] else [] }

  lemma ReadOpenPointer(read: Reader, linear: bool, x: string)
    requires Faithful(read)
    requires x != "" && x[0] != '<' && x[0] != '='
    ensures Adds(read, TickText(linear) + ("ptr" + "<"), TickToks(linear) + ([PTR] + [LESS]), x)
  {
    ReadLess(read, x);
    ReadWord(read, "ptr", PTR, "<" + x);
    AddsBoth(read, "ptr", [PTR], "<", [LESS], x);
    var y := ("ptr" + "<") + x;
    assert "" + y == y && [] + read(y) == read(y);
    ReadTick(read, y);
    AddsBoth(read, TickText(linear), TickToks(linear), "ptr" + "<", [PTR] + [LESS], x);
  }

  lemma ReadOpenArray(read: Reader, n: nat, x: string)
    requires Faithful(read)
    ensures Adds(read, "[" + (Decimal.Show(n) + "]"), [LBRACKET] + ([Token(Num, Decimal.Show(n))] + [RBRACKET]), x)
  {
    var w := Decimal.Show(n);
    ReadPunctuation(read, ']', x);
    ReadNumber(read, w, x);
    AddsBoth(read, w, [Token(Num, w)], "]", [RBRACKET], x);
    ReadPunctuation(read, '[', (w + "]") + x);
    AddsBoth(read, "[", [LBRACKET], w + "]", [Token(Num, w)] + [RBRACKET], x);
  }

  lemma AddsSpaced(read: Reader, a: string, ta: seq<Token>, x: string)
    requires Faithful(read)
    requires Adds(read, a, ta, " " + x)
    ensures Adds(read, a + " ", ta, x)
  {
    ReadSpace(read, x);
    assert (a + " ") + x == a + (" " + x);
  }

  lemma ReadArrowText(read: Reader, x: string)
    requires Faithful(read)
    ensures Adds(read, ") " + "-> ", [RPAREN] + [ARROW], x)
  {
    ReadArrow(read, " " + x);
    AddsSpaced(read, "->", [ARROW], x);
    assert "->" + " " == "-> " && ")" + " " == ") ";
    ReadPunctuation(read, ')', " " + ("-> " + x));
    AddsSpaced(read, ")", [RPAREN], "-> " + x);
    AddsBoth(read, ") ", [RPAREN], "-> ", [ARROW], x);
  }

  lemma ReadCommaText(read: Reader, x: string)
    requires Faithful(read)
    ensures Adds(read, ", ", [COMMA], x)
  {
    ReadPunctuation(read, ',', " " + x);
    AddsSpaced(read, ",", [COMMA], x);
    assert "," + " " == ", ";
  }

  // ---------- The induction ----------

  /** A printed type reads as its tokens, up to the brackets it ends with. */
  lemma {:induction false} ReadPrint(read: Reader, e: TypeExpr, r: string)
    returns (head: seq<Token>)
    requires Faithful(read)
    requires Writable(e) && Boundary(r)
    ensures ReadsAs(read, Print(e) + r, Toks(e), head, Closing(e), r)
    decreases e, 1
  {
    match e
    case Named(parts, _) =>
      ReadName(read, parts, r);
      NoCloser(read, Print(e) + r, Toks(e), r);
      head := Toks(e);
    case PointerTo(p, linear) => head := ReadPointer(read, e, p, linear, r);
    case ArrayOf(element, n) => head := ReadArray(read, e, element, n, r);
    case FunctionOf(ps, q) => head := ReadFunction(read, e, ps, q, r);
    case Applied(base, args) => head := ReadApplied(read, e, base, args, r);
    case TupleOf(es) => head := ReadTuple(read, e, es, r);
  }

  lemma {:induction false} ReadPointer(read: Reader, e: TypeExpr, p: TypeExpr, linear: bool, r: string)
    returns (head: seq<Token>)
    requires Faithful(read)
    requires e == PointerTo(p, linear) && Writable(e)
    ensures ReadsAs(read, Print(e) + r, Toks(e), head, Closing(e), r)
    decreases e, 0
  {
    var inner := ReadPrint(read, p, ">" + r);
    ShowBegins(p);
    BracketPointer(read, linear, Print(p) + (">" + r), Toks(p), inner, Closing(p), r);
    head := TickToks(linear) + ([PTR] + [LESS]) + inner;
    PointerText(p, linear, r);
  }

  lemma BracketPointer(read: Reader, linear: bool, text: string, all: seq<Token>, head: seq<Token>, k: nat, r: string)
    requires Faithful(read)
    requires text != "" && text[0] != '<' && text[0] != '=' && ReadsAs(read, text, all, head, k, ">" + r)
    ensures var before, toks := TickText(linear) + ("ptr" + "<"), TickToks(linear) + ([PTR] + [LESS]);
            ReadsAs(read, before + text, toks + (all + [GREATER]), toks + head, k + 1, r)
  {
    Enclosed(read, text, all, head, k, r);
    ReadOpenPointer(read, linear, text);
    var before, toks := TickText(linear) + ("ptr" + "<"), TickToks(linear) + ([PTR] + [LESS]);
    Prefixed(read, text, all + [GREATER], head, k + 1, r, before, toks);
  }

  lemma PointerText(p: TypeExpr, linear: bool, r: string)
    ensures Print(PointerTo(p, linear)) + r == (TickText(linear) + ("ptr" + "<")) + (Print(p) + (">" + r))
    ensures Toks(PointerTo(p, linear)) == (TickToks(linear) + ([PTR] + [LESS])) + (Toks(p) + [GREATER])
  {
    Assoc(TickToks(linear) + [PTR, LESS], Toks(p), [GREATER]);
  }

  lemma {:induction false} ReadArray(read: Reader, e: TypeExpr, element: TypeExpr, n: nat, r: string)
    returns (head: seq<Token>)
    requires Faithful(read)
    requires e == ArrayOf(element, n) && Writable(e) && Boundary(r)
    ensures ReadsAs(read, Print(e) + r, Toks(e), head, Closing(e), r)
    decreases e, 0
  {
    var text, before := Print(element) + r, "[" + (Decimal.Show(n) + "]");
    var toks := [LBRACKET] + ([Token(Num, Decimal.Show(n))] + [RBRACKET]);
    var inner := ReadPrint(read, element, r);
    ReadOpenArray(read, n, text);
    Prefixed(read, text, Toks(element), inner, Closing(e), r, before, toks);
    head := toks + inner;
    ArrayText(element, n, r);
  }

  lemma ArrayText(element: TypeExpr, n: nat, r: string)
    ensures Print(ArrayOf(element, n)) + r == ("[" + (Decimal.Show(n) + "]")) + (Print(element) + r)
    ensures Toks(ArrayOf(element, n)) == ([LBRACKET] + ([Token(Num, Decimal.Show(n))] + [RBRACKET])) + Toks(element)
  {
  }

  lemma {:induction false} ReadFunction(read: Reader, e: TypeExpr, ps: seq<TypeExpr>, q: TypeExpr, r: string)
    returns (head: seq<Token>)
    requires Faithful(read)
    requires e == FunctionOf(ps, q) && Writable(e) && Boundary(r)
    ensures ReadsAs(read, Print(e) + r, Toks(e), head, Closing(e), r)
    decreases e, 0
  {
    var text := Print(q) + r;
    var before, toks := ("(" + PrintAll(ps)) + (") " + "-> "), ([LPAREN] + ListToks(ps)) + ([RPAREN] + [ARROW]);
    var inner := ReadPrint(read, q, r);
    ReadArrowText(read, text);
    ReadOpen(read, ps, (") " + "-> ") + text);
    AddsBoth(read, "(" + PrintAll(ps), [LPAREN] + ListToks(ps), ") " + "-> ", [RPAREN] + [ARROW], text);
    Prefixed(read, text, Toks(q), inner, Closing(e), r, before, toks);
    head := toks + inner;
    FunctionText(ps, q, r);
  }

  lemma FunctionText(ps: seq<TypeExpr>, q: TypeExpr, r: string)
    ensures Print(FunctionOf(ps, q)) + r == (("(" + PrintAll(ps)) + (") " + "-> ")) + (Print(q) + r)
    ensures Toks(FunctionOf(ps, q)) == (([LPAREN] + ListToks(ps)) + ([RPAREN] + [ARROW])) + Toks(q)
  {
  }

  lemma {:induction false} ReadTuple(read: Reader, e: TypeExpr, es: seq<TypeExpr>, r: string)
    returns (head: seq<Token>)
    requires Faithful(read)
    requires e == TupleOf(es) && Writable(e)
    ensures ReadsAs(read, Print(e) + r, Toks(e), head, Closing(e), r)
    decreases e, 0
  {
    ReadPunctuation(read, ')', r);
    ReadOpen(read, es, ")" + r);
    AddsBoth(read, "(" + PrintAll(es), [LPAREN] + ListToks(es), ")", [RPAREN], r);
    NoCloser(read, Print(e) + r, Toks(e), r);
    head := Toks(e);
  }

  lemma {:induction false} ReadApplied(read: Reader, e: TypeExpr, base: seq<string>, args: seq<TypeExpr>, r: string)
    returns (head: seq<Token>)
    requires Faithful(read)
    requires e == Applied(base, args) && Writable(e)
    ensures ReadsAs(read, Print(e) + r, Toks(e), head, Closing(e), r)
    decreases e, 0
  {
    var text := PrintAll(args) + (">" + r);
    var inner := ReadList(read, args, ">" + r);
    Enclosed(read, text, ListToks(args), inner, LastClosing(args), r);
    ShowBegins(args[0]);
    ReadLess(read, text);
    ReadName(read, base, "<" + text);
    AddsBoth(read, Mangled(base), NameToks(base), "<", [LESS], text);
    var before, toks := Mangled(base) + "<", NameToks(base) + [LESS];
    Prefixed(read, text, ListToks(args) + [GREATER], inner, Closing(e), r, before, toks);
    head := toks + inner;
    AppliedText(base, args, r);
  }

  lemma AppliedText(base: seq<string>, args: seq<TypeExpr>, r: string)
    ensures Print(Applied(base, args)) + r == (Mangled(base) + "<") + (PrintAll(args) + (">" + r))
    ensures Toks(Applied(base, args)) == (NameToks(base) + [LESS]) + (ListToks(args) + [GREATER])
  {
    Assoc(NameToks(base) + [LESS], ListToks(args), [GREATER]);
  }

  /** A list in parentheses: what follows starts with the closing one. */
  lemma {:induction false} ReadOpen(read: Reader, es: seq<TypeExpr>, x: string)
    requires Faithful(read)
    requires WritableAll(es) && x != "" && x[0] == ')'
    ensures Adds(read, "(" + PrintAll(es), [LPAREN] + ListToks(es), x)
    decreases es, 2
  {
    var head := ReadList(read, es, x);
    ReadsAllIff(read, PrintAll(es) + x, ListToks(es), head, LastClosing(es), x);
    ReadPunctuation(read, '(', PrintAll(es) + x);
    AddsBoth(read, "(", [LPAREN], PrintAll(es), ListToks(es), x);
  }

  lemma {:induction false} ReadList(read: Reader, es: seq<TypeExpr>, x: string) returns (head: seq<Token>)
    requires Faithful(read)
    requires WritableAll(es) && Boundary(x)
    ensures ReadsAs(read, PrintAll(es) + x, ListToks(es), head, LastClosing(es), x)
    decreases es, 1
  {
    if es == [] {
      assert PrintAll(es) + x == x && ListToks(es) + read(x) == read(x);
      NoCloser(read, PrintAll(es) + x, ListToks(es), x);
      head := [];
    } else if |es| == 1 {
      head := ReadPrint(read, es[0], x);
      assert PrintAll(es) == Print(es[0]) && ListToks(es) == Toks(es[0]);
    } else {
      head := ReadMore(read, es, x);
    }
  }

  lemma {:induction false} ReadMore(read: Reader, es: seq<TypeExpr>, x: string) returns (head: seq<Token>)
    requires Faithful(read)
    requires |es| > 1 && WritableAll(es) && Boundary(x)
    ensures ReadsAs(read, PrintAll(es) + x, ListToks(es), head, LastClosing(es), x)
    decreases es, 0
  {
    var e, text := es[0], PrintAll(es[1..]) + x;
    var before, toks := Print(e) + ", ", Toks(e) + [COMMA];
    var inner := ReadList(read, es[1..], x);
    ReadFirst(read, e, text);
    Prefixed(read, text, ListToks(es[1..]), inner, LastClosing(es), x, before, toks);
    head := toks + inner;
    MoreIsList(es);
    StringAssoc(before, PrintAll(es[1..]), x);
  }

  lemma StringAssoc(a: string, b: string, c: string)
    ensures (a + b) + c == a + (b + c)
  {
  }

  lemma {:induction false} ReadFirst(read: Reader, e: TypeExpr, x: string)
    requires Faithful(read)
    requires Writable(e)
    ensures Adds(read, Print(e) + ", ", Toks(e) + [COMMA], x)
    decreases e, 2
  {
    ReadCommaText(read, x);
    var head := ReadPrint(read, e, ", " + x);
    ReadsAllIff(read, Print(e) + (", " + x), Toks(e), head, Closing(e), ", " + x);
    AddsBoth(read, Print(e), Toks(e), ", ", [COMMA], x);
  }

  lemma MoreIsList(es: seq<TypeExpr>)
    requires |es| > 1
    ensures PrintAll(es) == (Print(es[0]) + ", ") + PrintAll(es[1..])
    ensures ListToks(es) == (Toks(es[0]) + [COMMA]) + ListToks(es[1..])
  {
    RestIsAll(es[1..]);
    Assoc(Toks(es[0]), [COMMA], ListToks(es[1..]));
  }

  lemma RestIsAll(es: seq<TypeExpr>)
    requires es != []
    ensures PrintRest(es) == ", " + PrintAll(es) && MoreToks(es) == [COMMA] + ListToks(es)
  {
    Assoc([COMMA], Toks(es[0]), MoreToks(es[1..]));
  }

  // ---------- Round trip ----------

  /** A printed type followed by some text reads as its tokens followed by those of the text.  The exception
      is an odd number of closing brackets at the end before `==` or `=>`: the last one takes the `=`. */
  lemma PrintReadsIff(e: TypeExpr, r: string)
    requires Writable(e) && Boundary(r)
    ensures READ(Print(e) + r) == Toks(e) + READ(r) <==> Clean(r) || Closing(e) % 2 == 0
  {
    ReadIsFaithful();
    var head := ReadPrint(READ, e, r);
    ReadsAllIff(READ, Print(e) + r, Toks(e), head, Closing(e), r);
  }

  predicate ReadsBack(e: TypeExpr, r: string)
  {
    READ(Print(e) + r) == Toks(e) + READ(r)
  }

  lemma ReadsBackIff(e: TypeExpr, r: string)
    requires Writable(e) && Boundary(r)
    ensures ReadsBack(e, r) <==> Clean(r) || Closing(e) % 2 == 0
  {
    PrintReadsIff(e, r);
  }

  /** `ptr<i32>==x` does not read as the type and `==x`, but `ptr<ptr<i32>>==x` does; so for every type in the
      place of `i32` that ends with no bracket, and for `=>`. */
  lemma OneCloserTakesEqual(e: TypeExpr, once: TypeExpr, twice: TypeExpr, r: string)
    requires Writable(e) && Closing(e) == 0 && once == PointerTo(e, false) && twice == PointerTo(once, false)
    requires Boundary(r) && !Clean(r)
    ensures !ReadsBack(once, r) && ReadsBack(twice, r)
  {
    assert Writable(once) && Closing(once) == 1 && Writable(twice) && Closing(twice) == 2;
    ReadsBackIff(once, r);
    ReadsBackIff(twice, r);
  }

  /** Printing a type, lexing the text and parsing the tokens gives the type back, and consumes the printed
      text and nothing else - with the same exception. */
  lemma PrintLexParse(e: TypeExpr, r: string)
    requires Writable(e) && Boundary(r) && Follows(READ(r))
    ensures var (parsed, rest) := ParseType(Accepted(Lex(Print(e) + r)));
            && parsed == Some(e)
            && (Unglue(rest) == READ(r) <==> Clean(r) || Closing(e) % 2 == 0)
  {
    ReadIsFaithful();
    WritableParsable(e);
    var head := ReadPrint(READ, e, r);
    var rest := ReadClosersIff(READ, Closing(e), r);
    Assoc(head, Greaters(Closing(e)), rest);
    GluedToksParse(e, Accepted(Lex(Print(e) + r)), rest);
  }

  /** A whole text that is one printed type. */
  lemma PrintLexParseAll(e: TypeExpr)
    requires Writable(e)
    ensures ParseType(Accepted(Lex(Print(e)))) == (Some(e), [])
  {
    assert Print(e) + "" == Print(e);
    PrintLexParse(e, "");
  }
}
