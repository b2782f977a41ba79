/** The lexer on the characters type annotations are made of.  An operator is extended by the character
    after it whenever the two form a longer one, so that closing brackets are glued together. */
module Lexing {
  import opened Wrappers
  import opened Tokens
  import opened TokenStream
  import opened Decimal

  // ---------- Characters ----------

  predicate IsAlpha(c: char) { 'a' <= c <= 'z' || 'A' <= c <= 'Z' }

  predicate IsSpace(c: char) { c == ' ' || '\t' <= c <= '\r' }

  predicate IsIdentStart(c: char) { IsAlpha(c) || c == '_' }

  predicate IsIdentPart(c: char) { IsAlpha(c) || IsDigit(c) || c == '_' || c == '$' }

  const KEYWORDS: set<string> :=
    {"fn", "return", "struct", "type", "if", "else", "let", "true", "false", "reuse", "export", "alloc", "free",
     "len", "dim", "import", "as", "typeclass", "instance", "while", "for", "in", "case", "kernel"}

  function WordKind(w: string): TokenType
  {
    if w == "ptr" then Ptr else if w in KEYWORDS then Keyword else Id
  }

  // ---------- Operators ----------

  datatype Extension = Extension(second: char, kind: TokenType, lexeme: string)

  datatype OpRule = OpRule(lead: char, kind: TokenType, lexeme: string, extensions: seq<Extension>)

  const OPERATOR_RULES: seq<OpRule> := [
    OpRule('+', Add, "+", [Extension('+', AddIncr, "++"), Extension('=', AddAssign, "+=")]),
    OpRule('-', Sub, "-", [Extension('-', SubDecr, "--"), Extension('>', Arrow, "->"), Extension('=', SubAssign, "-=")]),
    OpRule('*', Mul, "*", [Extension('*', Exp, "**"), Extension('=', MulAssign, "*=")]),
    OpRule('/', Div, "/", [Extension('^', CeilDiv, "/^"), Extension('_', FloorDiv, "/_"), Extension('=', DivAssign, "/=")]),
    OpRule('%', Mod, "%", []),
    OpRule('&', AndLogical, "&", [Extension('&', And, "&")]),
    OpRule('|', OrLogical, "|", [Extension('|', Or, "||"), Extension('>', Pipe, "|>")]),
    OpRule('^', Xor, "^", []),
    OpRule('<', Less, "<", [Extension('<', Shl, "<<"), Extension('=', LessEqual, "<=")]),
    OpRule('>', Greater, ">", [Extension('>', Shr, ">>"), Extension('=', GreaterEqual, ">=")]),
    OpRule('=', Assign, "=", [Extension('=', Equal, "=="), Extension('>', FatArrow, "=>")]),
    OpRule('!', Not, "!", [Extension('=', NotEqual, "!=")])]

  /** The operator a text begins with, and the characters it takes: two if they form an operator, else one. */
  function Operator(s: string): Option<(Token, nat)>
    requires s != ""
  {
    var next := if |s| > 1 then s[1] else ' ';
    match s[0]
    case '+' =>
      if next == '+' then Two(AddIncr, "++") else if next == '=' then Two(AddAssign, "+=") else One(Add, "+")
    case '-' =>
      if next == '-' then Two(SubDecr, "--") else if next == '>' then Two(Arrow, "->")
      else if next == '=' then Two(SubAssign, "-=") else One(Sub, "-")
    case '*' =>
      if next == '*' then Two(Exp, "**") else if next == '=' then Two(MulAssign, "*=") else One(Mul, "*")
    case '/' =>
      if next == '^' then Two(CeilDiv, "/^") else if next == '_' then Two(FloorDiv, "/_")
      else if next == '=' then Two(DivAssign, "/=") else One(Div, "/")
    case '%' => One(Mod, "%")
    case '&' => if next == '&' then Two(And, "&") else One(AndLogical, "&")
    case '|' => if next == '|' then Two(Or, "||") else if next == '>' then Two(Pipe, "|>") else One(OrLogical, "|")
    case '^' => One(Xor, "^")
    case '<' => if next == '<' then Two(Shl, "<<") else if next == '=' then Two(LessEqual, "<=") else One(Less, "<")
    case '>' => if next == '>' then Two(Shr, ">>") else if next == '=' then Two(GreaterEqual, ">=") else One(Greater, ">")
    case '=' => if next == '=' then Two(Equal, "==") else if next == '>' then Two(FatArrow, "=>") else One(Assign, "=")
    case '!' => if next == '=' then Two(NotEqual, "!=") else One(Not, "!")
    case _ => None
  }

  function One(kind: TokenType, lexeme: string): Option<(Token, nat)> { Some((Token(kind, lexeme), 1)) }

  function Two(kind: TokenType, lexeme: string): Option<(Token, nat)> { Some((Token(kind, lexeme), 2)) }

  /** The characters of an operator and its token, by the rules. */
  predicate Spells(rule: OpRule, text: string, t: Token)
  {
    || (text == [rule.lead] && t == Token(rule.kind, rule.lexeme))
    || exists x | x in rule.extensions :: text == [rule.lead, x.second] && t == Token(x.kind, x.lexeme)
  }

  predicate Spelled(text: string, t: Token)
  {
    exists i | 0 <= i < |OPERATOR_RULES| :: Spells(OPERATOR_RULES[i], text, t)
  }

  /** `r` is the longest operator that is a prefix of the text; there is none if none is a prefix. */
  ghost predicate Longest(s: string, r: Option<(Token, nat)>)
  {
    && (r.Some? ==> r.value.1 <= |s| && Spelled(s[..r.value.1], r.value.0))
    && forall k, t | 0 <= k <= |s| && Spelled(s[..k], t) ::
         r.Some? && (k < r.value.1 || (k == r.value.1 && t == r.value.0))
  }

  /** Searching the table finds the longest operator. */
  method HandleOperator(s: string) returns (r: Option<(Token, nat)>)
    requires s != ""
    ensures r == Operator(s)
    ensures Longest(s, r)
  {
    var i := 0;
    while i < |OPERATOR_RULES|
      invariant 0 <= i <= |OPERATOR_RULES|
      invariant forall j | 0 <= j < i :: OPERATOR_RULES[j].lead != s[0]
    {
      var rule := OPERATOR_RULES[i];
      if rule.lead == s[0] {
        if |s| > 1 {
          var k := 0;
          while k < |rule.extensions|
            invariant 0 <= k <= |rule.extensions|
            invariant forall j | 0 <= j < k :: rule.extensions[j].second != s[1]
          {
            if rule.extensions[k].second == s[1] {
              r := Some((Token(rule.extensions[k].kind, rule.extensions[k].lexeme), 2));
              ExtensionIsOperator(s, i, k);
              ExtensionIsLongest(s, i, k);
              return;
            }
            k := k + 1;
          }
        }
        r := Some((Token(rule.kind, rule.lexeme), 1));
        LeadIsOperator(s, i);
        LeadIsLongest(s, i);
        return;
      }
      i := i + 1;
    }
    LeadsAreAll(s[0]);
    forall k, t | 0 <= k <= |s| && Spelled(s[..k], t) ensures false {
      var j := SpelledLead(s, k, t);
    }
    return None;
  }

  /** The rules have different leads, and the extensions of a rule different second characters. */
  lemma RulesDiffer(i: nat)
    requires i < |OPERATOR_RULES|
    ensures forall j | 0 <= j < |OPERATOR_RULES| && j != i :: OPERATOR_RULES[j].lead != OPERATOR_RULES[i].lead
    ensures var x := OPERATOR_RULES[i].extensions;
            forall j, k | 0 <= j < k < |x| :: x[j].second != x[k].second
  {
  }

  lemma ExtensionIsOperator(s: string, i: nat, k: nat)
    requires i < |OPERATOR_RULES| && |s| > 1 && OPERATOR_RULES[i].lead == s[0]
    requires k < |OPERATOR_RULES[i].extensions| && OPERATOR_RULES[i].extensions[k].second == s[1]
    ensures var x := OPERATOR_RULES[i].extensions[k]; Operator(s) == Two(x.kind, x.lexeme)
  {
  }

  lemma LeadIsOperator(s: string, i: nat)
    requires i < |OPERATOR_RULES| && s != "" && OPERATOR_RULES[i].lead == s[0]
    requires |s| > 1 ==> forall j | 0 <= j < |OPERATOR_RULES[i].extensions| :: OPERATOR_RULES[i].extensions[j].second != s[1]
    ensures Operator(s) == One(OPERATOR_RULES[i].kind, OPERATOR_RULES[i].lexeme)
  {
    var x := OPERATOR_RULES[i].extensions;
    if |s| > 1 {
      assert |x| > 0 ==> x[0].second != s[1];
      assert |x| > 1 ==> x[1].second != s[1];
      assert |x| > 2 ==> x[2].second != s[1];
    }
  }

  /** Only the rule with the text's first character spells a prefix of it. */
  lemma SpelledLead(s: string, k: nat, t: Token) returns (i: nat)
    requires s != "" && k <= |s| && Spelled(s[..k], t)
    ensures i < |OPERATOR_RULES| && Spells(OPERATOR_RULES[i], s[..k], t) && OPERATOR_RULES[i].lead == s[0]
    ensures k > 1 ==> s[..k][1] == s[1]
  {
    i :| 0 <= i < |OPERATOR_RULES| && Spells(OPERATOR_RULES[i], s[..k], t);
    assert s[..k][0] == s[0];
  }

  lemma ExtensionIsLongest(s: string, i: nat, k: nat)
    requires i < |OPERATOR_RULES| && |s| > 1 && OPERATOR_RULES[i].lead == s[0]
    requires k < |OPERATOR_RULES[i].extensions| && OPERATOR_RULES[i].extensions[k].second == s[1]
    ensures var x := OPERATOR_RULES[i].extensions[k]; Longest(s, Some((Token(x.kind, x.lexeme), 2)))
  {
    var rule := OPERATOR_RULES[i];
    var x := rule.extensions[k];
    assert s[..2] == [rule.lead, x.second];
    assert Spells(rule, s[..2], Token(x.kind, x.lexeme));
    forall n, t | 0 <= n <= |s| && Spelled(s[..n], t) ensures n < 2 || (n == 2 && t == Token(x.kind, x.lexeme)) {
      var j := SpelledLead(s, n, t);
      RulesDiffer(i);
    }
  }

  lemma LeadIsLongest(s: string, i: nat)
    requires i < |OPERATOR_RULES| && s != "" && OPERATOR_RULES[i].lead == s[0]
    requires |s| > 1 ==> forall j | 0 <= j < |OPERATOR_RULES[i].extensions| :: OPERATOR_RULES[i].extensions[j].second != s[1]
    ensures Longest(s, Some((Token(OPERATOR_RULES[i].kind, OPERATOR_RULES[i].lexeme), 1)))
  {
    var rule := OPERATOR_RULES[i];
    assert s[..1] == [rule.lead];
    assert Spells(rule, s[..1], Token(rule.kind, rule.lexeme));
    forall n, t | 0 <= n <= |s| && Spelled(s[..n], t) ensures n == 1 && t == Token(rule.kind, rule.lexeme) {
      var j := SpelledLead(s, n, t);
      RulesDiffer(i);
    }
  }

  lemma LeadsAreAll(c: char)
    requires forall j | 0 <= j < |OPERATOR_RULES| :: OPERATOR_RULES[j].lead != c
    ensures c !in {'+', '-', '*', '/', '%', '&', '|', '^', '<', '>', '=', '!'}
  {
    assert OPERATOR_RULES[0].lead == '+';
    assert OPERATOR_RULES[1].lead == '-';
    assert OPERATOR_RULES[2].lead == '*';
    assert OPERATOR_RULES[3].lead == '/';
    assert OPERATOR_RULES[4].lead == '%';
    assert OPERATOR_RULES[5].lead == '&';
    assert OPERATOR_RULES[6].lead == '|';
    assert OPERATOR_RULES[7].lead == '^';
    assert OPERATOR_RULES[8].lead == '<';
    assert OPERATOR_RULES[9].lead == '>';
    assert OPERATOR_RULES[10].lead == '=';
    assert OPERATOR_RULES[11].lead == '!';
  }

  /** How an operator is written in messages. */
  function TokenText(kind: TokenType): string
  {
    match kind
    case Add => "+"
    case Sub => "-"
    case Mul => "*"
    case Div => "/"
    case Mod => "%"
    case AddAssign => "+="
    case AddIncr => "++"
    case SubAssign => "-="
    case SubDecr => "--"
    case MulAssign => "*="
    case DivAssign => "/="
    case And => "&&"
    case AndLogical => "&"
    case Or => "||"
    case OrLogical => "|"
    case Pipe => "|>"
    case Xor => "^"
    case Shl => "<<"
    case Shr => ">>"
    case Equal => "=="
    case Less => "<"
    case LessEqual => "<="
    case Greater => ">"
    case GreaterEqual => ">="
    case Assign => "="
    case Not => "!"
    case NotEqual => "!="
    case Exp => "**"
    case FloorDiv => "/_"
    case CeilDiv => "/^"
    case Arrow => "->"
    case FatArrow => "=>"
    case _ => ""
  }

  /** The characters of an operator are those its kind is written with in messages, and no other kind is. */
  lemma OperatorIsItsText(s: string)
    requires s != "" && Operator(s).Some?
    ensures var (t, n) := Operator(s).value; n <= |s| && s[..n] == TokenText(t.kind)
    ensures forall kind | TokenText(kind) == TokenText(Operator(s).value.0.kind) :: kind == Operator(s).value.0.kind
  {
    var n := Operator(s).value.1;
    assert s[..n] == if n == 1 then [s[0]] else [s[0], s[1]];
    TextsDiffer(Operator(s).value.0.kind);
  }

  lemma TextsDiffer(kind: TokenType)
    requires TokenText(kind) != ""
    ensures forall other | TokenText(other) == TokenText(kind) :: other == kind
  {
    var t := TokenText(kind);
    forall other | TokenText(other) == t ensures other == kind {
      var u := TokenText(other);
      assert |u| == |t| && u[0] == t[0] && u[|u| - 1] == t[|t| - 1];
    }
  }

  // ---------- One token ----------

  function WordLen(s: string): (n: nat)
    ensures n <= |s|
  {
    if s == "" || !IsIdentPart(s[0]) then 0 else 1 + WordLen(s[1..])
  }

  /** Digits are read up to, but never including, the last character of the input. */
  function DigitsLen(s: string): (n: nat)
    requires s != ""
    ensures 0 < n <= |s|
  {
    if |s| > 2 && IsDigit(s[1]) then 1 + DigitsLen(s[1..]) else 1
  }

  function SuffixLen(s: string): (n: nat)
    ensures n <= |s|
  {
    if |s| > 1 && (IsAlpha(s[0]) || IsDigit(s[0])) then 1 + SuffixLen(s[1..]) else 0
  }

  function NumberLen(s: string): (n: nat)
    requires s != ""
    ensures 0 < n <= |s|
  {
    var d := DigitsLen(s);
    if |s| > d && IsAlpha(s[d]) then d + SuffixLen(s[d..]) else d
  }

  function LineLen(s: string): (n: nat)
    ensures n <= |s|
  {
    if s == "" || s[0] == '\n' then 0 else 1 + LineLen(s[1..])
  }

  const TOKEN_STARTS: set<char> :=
    {'_', '"', '+', '-', '*', '/', '%', '&', '|', '^', '<', '>', '=', '!', '(', ')', '{', '}', '[', ']', '#', ',', ';',
     ':', '.', '\''}

  function InvalidLen(s: string): (n: nat)
    ensures n <= |s|
  {
    if s == "" || IsSpace(s[0]) || IsAlpha(s[0]) || IsDigit(s[0]) || s[0] in TOKEN_STARTS then 0
    else 1 + InvalidLen(s[1..])
  }

  function Punctuation(s: string): (r: Option<(Token, nat)>)
    requires s != ""
    ensures r.Some? ==> 0 < r.value.1 <= |s|
  {
    match s[0]
    case '(' => One(LeftParen, "(")
    case ')' => One(RightParen, ")")
    case '{' => One(LeftCurly, "{")
    case '}' => One(RightCurly, "}")
    case '[' => One(LeftBracket, "[")
    case ']' => One(RightBracket, "]")
    case ',' => One(Comma, ",")
    case ';' => One(SemiColon, ";")
    case ':' => if |s| > 1 && s[1] == ':' then Two(DoubleColon, "::") else One(Colon, ":")
    case _ => None
  }

  /** The token at the start of the text, if any, and the characters read. */
  function Step(s: string): (r: (Option<Token>, nat))
    ensures s != "" ==> 0 < r.1 <= |s|
  {
    if s == "" then (None, 0)
    else if IsSpace(s[0]) then (None, 1)
    else if s[0] == '\'' then (Some(Token(Tick, "'")), 1)
    else if IsIdentStart(s[0]) then
      var w := s[..WordLen(s)];
      (Some(Token(WordKind(w), w)), |w|)
    else if IsDigit(s[0]) then (Some(Token(Num, s[..NumberLen(s)])), NumberLen(s))
    else if |s| > 1 && s[0] == '/' && s[1] == '/' then (None, LineLen(s))
    else if Operator(s).Some? then (Some(Operator(s).value.0), Operator(s).value.1)
    else if Punctuation(s).Some? then (Some(Punctuation(s).value.0), Punctuation(s).value.1)
    else (Some(Token(Invalid, s[..1 + InvalidLen(s[1..])])), 1 + InvalidLen(s[1..]))
  }

  /** A way to read one token. */
  type Handler = string -> (Option<Token>, nat)

  function Emitted(t: Option<Token>): seq<Token>
  {
    if t.Some? then [t.value] else []
  }

  /** The tokens read by a handler, one after the other. */
  function Scan(handle: Handler, s: string): seq<Token>
    decreases |s|
  {
    if s == "" then []
    else
      var (t, n) := handle(s);
      Emitted(t) + Scan(handle, s[if 0 < n <= |s| then n else 1..])
  }

  const STEP: Handler := s => Step(s)

  function Lex(s: string): seq<Token>
  {
    Scan(STEP, s)
  }

  // ---------- The lexer ----------

  function Accepted(ts: seq<Token>): seq<Token>
  {
    if ts == [] then [] else (if ts[0].kind == Invalid then [] else [ts[0]]) + Accepted(ts[1..])
  }

  const EOF := Token(Eof, "end of file")

  /** A handler that always reads something, and reads a space as nothing. */
  ghost predicate Progresses(handle: Handler)
  {
    forall s {:trigger handle(s)} | s != "" ::
      0 < handle(s).1 <= |s| && (IsSpace(s[0]) ==> handle(s) == (None, 1))
  }

  lemma StepProgresses()
    ensures Progresses(STEP)
  {
  }

  lemma ScanStep(handle: Handler, s: string)
    requires s != "" && 0 < handle(s).1 <= |s|
    ensures Scan(handle, s) == Emitted(handle(s).0) + Scan(handle, s[handle(s).1..])
  {
  }

  lemma ScanUnfold(handle: Handler, input: string, i: nat)
    requires i < |input| && Progresses(handle)
    ensures var read := handle(input[i..]);
            && 0 < read.1 && i + read.1 <= |input|
            && Scan(handle, input[i..]) == Emitted(read.0) + Scan(handle, input[i + read.1..])
  {
    var n := handle(input[i..]).1;
    ScanStep(handle, input[i..]);
    assert input[i..][n..] == input[i + n..];
  }

  lemma {:induction false} ScanSpaces(handle: Handler, input: string, i: nat, j: nat)
    requires i <= j <= |input| && Progresses(handle) && forall k | i <= k < j :: IsSpace(input[k])
    ensures Scan(handle, input[i..]) == Scan(handle, input[j..])
    decreases j - i
  {
    if i < j {
      ScanUnfold(handle, input, i);
      ScanSpaces(handle, input, i + 1, j);
    }
  }

  lemma {:induction false} AcceptedAppend(a: seq<Token>, b: seq<Token>)
    ensures Accepted(a + b) == Accepted(a) + Accepted(b)
  {
    if a == [] {
      assert a + b == b;
    } else {
      assert (a + b)[1..] == a[1..] + b;
      AcceptedAppend(a[1..], b);
    }
  }

  lemma PushTokens(s: Stream, t: Token)
    requires Valid(s)
    ensures TokensOf(PushBack(s, t).list) == TokensOf(s.list) + Accepted([t])
    ensures Position(PushBack(s, t)) == Position(s)
  {
    var i, s' := Position(s), PushBack(s, t);
    if t.kind != Invalid {
      assert forall j | 0 <= j < |s.list| :: s'.list[j] == s.list[j];
      IndexOfAt(s'.list, i);
    }
  }

  lemma Regroup(a: seq<Token>, b: seq<Token>, c: seq<Token>, d: seq<Token>)
    ensures (a + b) + (c + d) == a + ((b + c) + d)
  {
  }

  lemma RestIsTail(s: Stream, pending: seq<Token>)
    ensures Rest(s) + pending == (TokensOf(s.list) + pending)[Position(s)..]
  {
    assert Rest(s) == TokensOf(s.list)[Position(s)..];
  }

  lemma EndsInEof(all: seq<Token>, tokens: seq<Token>, pending: seq<Token>)
    requires all == tokens + pending
    requires if pending == [] then tokens != [] && tokens[|tokens| - 1] == EOF else pending[|pending| - 1] == EOF
    ensures all != [] && all[|all| - 1] == EOF
  {
  }

  lemma LastAhead(s: Stream)
    requires Valid(s) && s.list != []
    ensures Rest(s.(cursor := CursorAt(s.list, |s.list| - 1))) == [TokensOf(s.list)[|s.list| - 1]]
  {
    MoveValid(s, |s.list| - 1);
  }

  lemma AheadParts(list: seq<Node>, i: nat, pending: seq<Token>)
    requires i < |list|
    ensures TokensOf(list[i..]) + pending == [list[i].token] + (TokensOf(list[i + 1..]) + pending)
  {
    assert list[i..] == [list[i]] + list[i + 1..];
    assert TokensOf(list[i..]) == [list[i].token] + TokensOf(list[i + 1..]);
  }

  lemma ConsumeMoves(s: Stream)
    requires Valid(s) && s.cursor.Some?
    ensures Position(s) < |s.list| && Consume(s).list == s.list
    ensures var past := s.list[Position(s)].token.kind != Eof;
            && Position(Consume(s)) == Position(s) + (if past then 1 else 0)
            && (s.list[|s.list| - 1].token.kind == Eof ==> Consume(s).cursor.Some?)
  {
    MoveValid(s, Position(s) + 1);
  }

  lemma ConsumeAhead(s: Stream, pending: seq<Token>)
    requires Valid(s) && s.cursor.Some?
    ensures Rest(s) + pending != [] && (Rest(s) + pending)[0] == s.list[Position(s)].token
    ensures Rest(Consume(s)) + pending
            == if s.list[Position(s)].token.kind == Eof then Rest(s) + pending else (Rest(s) + pending)[1..]
  {
    ConsumeMoves(s);
    AheadParts(s.list, Position(s), pending);
  }

  lemma SplitAhead(s: Stream, s': Stream, first: Token, second: Token, pending: seq<Token>)
    requires Valid(s) && s.cursor.Some? && s' == Split(s, first, second)
    ensures Rest(s) + pending != [] && Rest(s') + pending == [first, second] + (Rest(s) + pending)[1..]
    ensures s'.cursor.Some?
  {
    var i := Position(s);
    SplitDistinct(s, first, second);
    AheadParts(s.list, i, pending);
    AheadParts(s'.list, i, pending);
    AheadParts(s'.list, i + 1, pending);
    assert s'.list[i + 2..] == s.list[i + 1..];
  }

  class Lexer {
    const input: string
    const handle: Handler
    const stream: TokenList
    var cursor: nat
    var atEof: bool

    constructor (input: string, handle: Handler)
      ensures this.input == input && this.handle == handle && fresh(stream) && Valid(stream.State())
      ensures stream.State() == Stream([], 0, None, [], [], []) && cursor == 0 && !atEof
    {
      this.input, this.handle := input, handle;
      stream := new TokenList();
      cursor, atEof := 0, false;
    }

    /** The tokens that are still to be produced. */
    ghost function Pending(): seq<Token>
      reads this
      requires cursor <= |input|
    {
      if atEof then [] else Accepted(Scan(handle, input[cursor..])) + [EOF]
    }

    method HandleSpaces() returns (i: nat)
      requires cursor <= |input|
      ensures cursor <= i <= |input| && (i < |input| ==> !IsSpace(input[i]))
      ensures forall k | cursor <= k < i :: IsSpace(input[k])
    {
      i := cursor;
      while i < |input| && IsSpace(input[i])
        invariant cursor <= i <= |input| && forall k | cursor <= k < i :: IsSpace(input[k])
      {
        i := i + 1;
      }
    }

    /** At the end of the input the end-of-file token is pushed, once. */
    method Finish()
      requires cursor <= |input| && Valid(stream.State()) && !atEof && Pending() == [EOF]
      modifies this, stream
      ensures cursor == |input| && atEof && Valid(stream.State())
      ensures TokensOf(stream.list) == old(TokensOf(stream.list)) + [EOF]
      ensures Position(stream.State()) == old(Position(stream.State()))
      ensures stream.pendingSplits == old(stream.pendingSplits) && stream.rollbackStack == old(stream.rollbackStack)
    {
      PushTokens(stream.State(), EOF);
      stream.Push(EOF);
      cursor, atEof := |input|, true;
    }

    /** Hand a token that has been read to the stream. */
    method Emit(t: Option<Token>)
      requires Valid(stream.State())
      modifies stream
      ensures Valid(stream.State())
      ensures TokensOf(stream.list) == old(TokensOf(stream.list)) + Accepted(Emitted(t))
      ensures Position(stream.State()) == old(Position(stream.State()))
      ensures stream.pendingSplits == old(stream.pendingSplits) && stream.rollbackStack == old(stream.rollbackStack)
    {
      if t.Some? {
        PushTokens(stream.State(), t.value);
        stream.Push(t.value);
      }
    }

    /** Read one token at position `i`. */
    method ReadAt(i: nat) returns (t: Option<Token>)
      requires cursor <= i < |input| && !atEof && Progresses(handle)
      modifies this`cursor
      ensures i < cursor <= |input|
      ensures Scan(handle, input[i..]) == Emitted(t) + Scan(handle, input[cursor..])
    {
      var read := handle(input[i..]);
      ScanUnfold(handle, input, i);
      t, cursor := read.0, i + read.1;
    }

    /** One call moves at most one token from what is pending to the stream, and none is lost. */
    method LexNextToken()
      requires cursor <= |input| && Valid(stream.State()) && Progresses(handle)
      modifies this, stream
      ensures cursor <= |input| && Valid(stream.State())
      ensures old(atEof) ==> atEof && stream.State() == old(stream.State())
      ensures !old(atEof) ==> atEof || cursor > old(cursor)
      ensures TokensOf(stream.list) + Pending() == old(TokensOf(stream.list) + Pending())
      ensures Position(stream.State()) == old(Position(stream.State()))
      ensures stream.pendingSplits == old(stream.pendingSplits) && stream.rollbackStack == old(stream.rollbackStack)
    {
      if atEof {
        return;
      }
      var i := HandleSpaces();
      ScanSpaces(handle, input, cursor, i);
      ghost var before := TokensOf(stream.list);
      if i == |input| {
        assert input[i..] == "" && Pending() == [EOF];
        Finish();
        assert before + [EOF] + [] == before + [EOF];
      } else {
        var t := ReadAt(i);
        Emit(t);
        ghost var rest := Scan(handle, input[cursor..]);
        AcceptedAppend(Emitted(t), rest);
        Regroup(before, Accepted(Emitted(t)), Accepted(rest), [EOF]);
      }
    }

    /** Produce every token there is. */
    method ProduceAll()
      requires cursor <= |input| && Valid(stream.State()) && Progresses(handle)
      modifies this, stream
      ensures atEof && cursor <= |input| && Valid(stream.State())
      ensures TokensOf(stream.list) == old(TokensOf(stream.list) + Pending())
      ensures Position(stream.State()) == old(Position(stream.State()))
      ensures stream.pendingSplits == old(stream.pendingSplits) && stream.rollbackStack == old(stream.rollbackStack)
    {
      while !atEof
        invariant cursor <= |input| && Valid(stream.State())
        invariant TokensOf(stream.list) + Pending() == old(TokensOf(stream.list) + Pending())
        invariant Position(stream.State()) == old(Position(stream.State()))
        invariant stream.pendingSplits == old(stream.pendingSplits) && stream.rollbackStack == old(stream.rollbackStack)
        decreases !atEof, |input| - cursor
      {
        LexNextToken();
      }
    }

    /** After the end of the input the last token is the end-of-file token. */
    ghost predicate Ended()
      reads this, stream
    {
      atEof ==> stream.list != [] && stream.list[|stream.list| - 1].token == EOF
    }

    /** Produce every token and go to the last one, which ends the file. */
    method Exhaust()
      requires cursor <= |input| && Valid(stream.State()) && Progresses(handle) && Ended()
      modifies this, stream
      ensures atEof && cursor <= |input| && Valid(stream.State()) && Ended()
      ensures TokensOf(stream.list) == old(TokensOf(stream.list) + Pending()) && Rest(stream.State()) == [EOF]
      ensures stream.pendingSplits == old(stream.pendingSplits) && stream.rollbackStack == old(stream.rollbackStack)
    {
      ghost var all := TokensOf(stream.list) + Pending();
      EndsInEof(all, TokensOf(stream.list), Pending());
      ProduceAll();
      assert TokensOf(stream.list) == all;
      LastAhead(stream.State());
      stream.MoveToLast();
    }

    // ---------- Reading on demand ----------

    /** The tokens the parser has still to read, produced or not. */
    ghost function Ahead(): seq<Token>
      reads this, stream
      requires cursor <= |input|
    {
      Rest(stream.State()) + Pending()
    }

    /** There is a token to read, or can be.  Beyond the end-of-file token there is none. */
    ghost predicate CanRead()
      reads this, stream
    {
      && cursor <= |input| && Valid(stream.State()) && Progresses(handle) && Ended()
      && (stream.cursor.Some? || !atEof)
    }

    /** Produce tokens until there is one at the cursor. */
    method EnsureToken()
      requires CanRead()
      modifies this, stream
      ensures CanRead() && stream.cursor.Some? && Ahead() == old(Ahead())
      ensures stream.pendingSplits == old(stream.pendingSplits) && stream.rollbackStack == old(stream.rollbackStack)
    {
      ghost var at, all := Position(stream.State()), TokensOf(stream.list) + Pending();
      EndsInEof(all, TokensOf(stream.list), Pending());
      RestIsTail(stream.State(), Pending());
      while stream.cursor.None?
        invariant CanRead() && Position(stream.State()) == at && TokensOf(stream.list) + Pending() == all
        invariant stream.cursor.None? ==> |all| > at
        invariant stream.pendingSplits == old(stream.pendingSplits) && stream.rollbackStack == old(stream.rollbackStack)
        decreases !atEof, |input| - cursor
      {
        LexNextToken();
      }
      RestIsTail(stream.State(), Pending());
    }

    /** Reading moves past the token, unless it ends the file. */
    method ConsumeToken() returns (t: Token)
      requires CanRead()
      modifies this, stream
      ensures CanRead() && old(Ahead()) != [] && t == old(Ahead())[0]
      ensures Ahead() == if t.kind == Eof then old(Ahead()) else old(Ahead())[1..]
    {
      EnsureToken();
      t := Take();
    }

    method Take() returns (t: Token)
      requires CanRead() && stream.cursor.Some?
      modifies stream
      ensures CanRead() && old(Ahead()) != [] && t == old(Ahead())[0]
      ensures Ahead() == if t.kind == Eof then old(Ahead()) else old(Ahead())[1..]
    {
      ghost var left := Pending();
      t := TakeProduced(left);
      assert Pending() == left;
    }

    /** The same for a token that has been produced, whatever is to follow those in the stream. */
    method TakeProduced(ghost left: seq<Token>) returns (t: Token)
      requires Valid(stream.State()) && stream.cursor.Some?
      modifies stream
      ensures Valid(stream.State()) && stream.list == old(stream.list)
      ensures stream.list != [] && (stream.list[|stream.list| - 1].token.kind == Eof ==> stream.cursor.Some?)
      ensures old(Rest(stream.State()) + left) != [] && t == old(Rest(stream.State()) + left)[0]
      ensures Rest(stream.State()) + left
              == if t.kind == Eof then old(Rest(stream.State()) + left) else old(Rest(stream.State()) + left)[1..]
    {
      ghost var s := stream.State();
      ConsumeMoves(s);
      ConsumeAhead(s, left);
      t := stream.ConsumeToken();
      assert stream.State() == Consume(s);
    }

    /** A glued token is read as two. */
    method SplitCurrent(first: Token, second: Token)
      requires CanRead()
      modifies this, stream
      ensures cursor <= |input| && Valid(stream.State()) && stream.cursor.Some?
      ensures old(Ahead()) != [] && Ahead() == [first, second] + old(Ahead())[1..]
    {
      EnsureToken();
      ghost var s, left := stream.State(), Pending();
      SplitAhead(s, Split(s, first, second), first, second, left);
      stream.SplitCurrent(first, second);
      assert Pending() == left && stream.State() == Split(s, first, second);
    }
  }
}
