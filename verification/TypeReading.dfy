/** Reading a type from text: the lexer fills the token stream, the parser reads it in place. */
module TypeReading {
  import opened Wrappers
  import opened Tokens
  import opened TokenStream
  import opened TypeExprs
  import opened TypeGrammar
  import opened Lexing
  import opened TextRoundTrip
  import opened TypeParser

  lemma StepNotEof(s: string)
    ensures Step(s).0.Some? ==> Step(s).0.value.kind != Eof
  {
  }

  lemma {:induction false} LexNotEof(s: string)
    ensures forall t | t in Accepted(Lex(s)) :: t.kind != Eof
    decreases |s|
  {
    if s != "" {
      var (t, n) := Step(s);
      StepNotEof(s);
      StepProgresses();
      ScanStep(STEP, s);
      AcceptedAppend(Emitted(t), Lex(s[n..]));
      LexNotEof(s[n..]);
    }
  }

  lemma FullStream(s: Stream, tokens: seq<Token>)
    requires Valid(s) && TokensOf(s.list) == tokens + [EOF] && (forall t | t in tokens :: t.kind != Eof)
    requires Position(s) == 0
    ensures Ready(s) && Left(s) == tokens
  {
    assert forall i | 0 <= i < |s.list| :: s.list[i].token == TokensOf(s.list)[i];
    assert Left(s) == TokensOf(s.list)[..|s.list| - 1];
  }

  /** The type a text begins with. */
  method ReadType(text: string) returns (r: Option<TypeExpr>)
    ensures r == ParseType(Accepted(Lex(text))).0
    ensures forall e | Writable(e) && text == Print(e) :: r == Some(e)
  {
    var lexer := new Lexer(text, STEP);
    StepProgresses();
    assert text[0..] == text;
    lexer.ProduceAll();
    LexNotEof(text);
    FullStream(lexer.stream.State(), Accepted(Lex(text)));
    var parser := new Parser(lexer.stream);
    r := parser.ParseTypeExpr();
    forall e | Writable(e) && text == Print(e) ensures r == Some(e) {
      PrintLexParseAll(e);
    }
  }
}
