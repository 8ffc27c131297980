/// The whole pipeline: `Lexer.new(src)`, `Parser.new(l)`, `parse`,
/// `MipsCompiler.new(ast)`, `compile` and `output`, as the driver script
/// runs it, with the simulator left out.
module Pipeline {
  import opened Text
  import opened Syntax
  import opened Errors
  import opened Lexing
  import opened Nodes
  import opened Parsing
  import opened Mips
  import opened Codegen

  /** A fresh lexer, the parser's first `advance`, then `parse`. */
  function ParseSource(src: string): Result<Option<Node>> {
    var a := StepAdvance(src, PState(None, [], 0, false));
    if a.result.Err? then Err(a.result.error) else ParseAll(src, a.st, None).result
  }

  /** The assembly lines of a source text, or the exception that stops it.
      A text with no expression parses to nil, which the compiler rejects. */
  function CompileSource(src: string): Result<seq<string>> {
    match ParseSource(src)
    case Err(e) => Err(e)
    case Ok(None) => Err(UnknownNode)
    case Ok(Some(e)) => Ok(Preamble() + Lines(Program(e)))
  }

  /** The driver's front half, on the classes. */
  method ParseProgram(src: string) returns (r: Result<Option<Node>>)
    ensures r == ParseSource(src)
  {
    var l := new Lexer(src);
    ghost var a := StepAdvance(src, PState(None, [], 0, false));
    var p := Parser.Create(l);
    if p.Err? {
      return Err(p.error);
    }
    assert p.value.State() == a.st && p.value.l.source == src;
    r := p.value.Parse();
  }

  /** The driver, on the classes. */
  method CompileProgram(src: string) returns (r: Result<seq<string>>)
    ensures r == CompileSource(src)
  {
    var ast := ParseProgram(src);
    if ast.Err? {
      return Err(ast.error);
    }
    var c := new MipsCompiler(ast.value);
    var o := c.Compile();
    if o.Fail? {
      return Err(o.error);
    }
    ghost var text := Lines(Program(ast.value.value));
    assert c.buf == [] + text == text;
    var code := c.Output();
    assert code == Preamble() + text;
    assert CompileSource(src) == Ok(Preamble() + text);
    return Ok(code);
  }

  /** The text of a chain is lexed back to the chain's tokens and EOF. */
  lemma LexChainText(e: Node)
    ensures var ts := TokensOf(e);
            Tokens(Unlex(ts), 0, false).toks == [ts[0]] + (ts[1..] + [EofTok])
  {
    var ts := TokensOf(e);
    var src := Unlex(ts);
    TokensOfSpellable(e);
    LexUnlex(ts, "");
    assert "" + src == src;
    assert ts + [EofTok] == [ts[0]] + (ts[1..] + [EofTok]);
  }

  lemma TokensOfSpellable(e: Node)
    ensures Spellable(TokensOf(e))
  {
  }

  /** The parser's first `advance` on the text of a chain makes the chain's
      first token current and leaves the rest of the chain's tokens and EOF. */
  lemma FirstAdvanceOnChain(e: Node)
    ensures var ts, src := TokensOf(e), Unlex(TokensOf(e));
            var a := StepAdvance(src, PState(None, [], 0, false));
            && a.result.Ok? && a.st.cur == Some(ts[0]) && a.st.buf == []
            && Tokens(src, a.st.pos, a.st.emitted).toks == ts[1..] + [EofTok] + []
  {
    var ts := TokensOf(e);
    var src := Unlex(ts);
    LexChainText(e);
    AdvanceAlong(src, PState(None, [], 0, false), ts[0], ts[1..] + [EofTok]);
    assert ts[1..] + [EofTok] + [] == ts[1..] + [EofTok];
  }

  /** The text of a chain is parsed back to that chain. */
  lemma ParseChainText(e: Node)
    requires IsChain(e)
    ensures ParseSource(Unlex(TokensOf(e))) == Ok(Some(e))
  {
    var src := Unlex(TokensOf(e));
    FirstAdvanceOnChain(e);
    var a := StepAdvance(src, PState(None, [], 0, false));
    ParseExprChain(src, a.st, e, EofTok, []);
    var r := ParseExpr(src, a.st);
    assert ParseAll(src, a.st, None) == ParseAll(src, r.st, Some(e));
  }

  /** A parsed source holds exactly one expression: the first
      `parse_expression` after the constructor's `advance` gives the result
      and stops on EOF. */
  lemma ParseSourceOneExpression(src: string)
    ensures var a := StepAdvance(src, PState(None, [], 0, false));
            ParseSource(src).Ok? && ParseSource(src).value.Some? ==>
              && ParseExpr(src, a.st).result == Ok(ParseSource(src).value.value)
              && ParseExpr(src, a.st).st.cur == Some(EofTok)
  {
    var a := StepAdvance(src, PState(None, [], 0, false));
    AdvanceFromLexer(src, PState(None, [], 0, false));
    if a.result.Ok? {
      ParseKeepsOne(src, a.st);
    }
  }

  /** The text of a chain compiles to the preamble and the code of that
      chain, which prints its sum. */
  lemma CompileChainText(e: Node, m: Machine)
    requires IsChain(e)
    ensures CompileSource(Unlex(TokensOf(e))) == Ok(Preamble() + Lines(Program(e)))
    ensures Exec(Program(e), m).log == m.log + [Event(1, Sum(e)), Event(10, Sum(e))]
  {
    ParseChainText(e);
    ProgramPrintsSum(e, m);
  }

  /** An empty text parses to nil and so fails in the compiler. */
  lemma CompileEmpty()
    ensures ParseSource("") == Ok(None)
    ensures CompileSource("") == Err(UnknownNode)
  {
    LexUnlex([], "");
    assert Tokens("", 0, false).toks == [EofTok] + [];
    AdvanceAlong("", PState(None, [], 0, false), EofTok, []);
  }

  /** `parse` answers nil exactly when the first token is EOF. */
  lemma NilIffFirstEof(src: string)
    ensures ParseSource(src) == Ok(None) <==>
            StepAdvance(src, PState(None, [], 0, false)).result == Ok(Some(EofTok))
  {
  }

  /** A text of word runs alone parses to nil; a text that starts with `(`
      raises in `parse_expression`. */
  lemma NilOrRaise()
    ensures ParseSource("abc") == Ok(None)
    ensures ParseSource("(") == Err(UnexpectedToken(LParenTok))
  {
    assert RunEnd("abc", 0, IsWordChar) == 3;
    AfterEof("abc");
    AfterEof("(");
    assert Scan("(", 1, false) == Lexed(Ok(Some(EofTok)), 1, true);
  }

  /** The tokens of `(5+6`, one `next_token` at a time. */
  lemma ScansOfPeekExample(src: string)
    requires src == "(5+6"
    ensures Scan(src, 0, false) == Lexed(Ok(Some(LParenTok)), 1, false)
    ensures Scan(src, 1, false) == Lexed(Ok(Some(NumberTok(5))), 2, false)
    ensures Scan(src, 2, false) == Lexed(Ok(Some(PlusTok)), 3, false)
    ensures Scan(src, 3, false) == Lexed(Ok(Some(NumberTok(6))), 4, false)
    ensures Scan(src, 4, false) == Lexed(Ok(Some(EofTok)), 4, true)
  {
    assert NatToString(5) == "5" && NatToString(6) == "6";
    assert src[1..2] == Spell(NumberTok(5)) && src[3..4] == Spell(NumberTok(6));
    ScanSpelled(src, 1, NumberTok(5), false);
    ScanSpelled(src, 3, NumberTok(6), false);
  }

  /** A pending `peek` breaks `ParseKeepsOne`. On `(5+6`, after the
      constructor and one `peek`, the number 5 is both current and buffered:
      the first `parse_expression` gives 5 and stops on the buffered 5 again,
      and `parse` goes on to keep a second expression, 5 + 6. */
  lemma PeekThenParse(src: string)
    requires src == "(5+6"
    ensures var st := StepPeek(src, StepAdvance(src, PState(None, [], 0, false)).st).st;
            && st == PState(Some(NumberTok(5)), [Some(NumberTok(5))], 2, false)
            && ParseExpr(src, st) == Parsed(Ok(NumberNode(5)), st.(buf := []))
            && ParseAll(src, st, None).result == Ok(Some(OpNode(NumberNode(5), NumberNode(6), PLUS)))
  {
    ScansOfPeekExample(src);
    var a := StepAdvance(src, PState(None, [], 0, false));
    assert a.st == PState(Some(LParenTok), [], 1, false);
    var st := StepPeek(src, a.st).st;
    assert st == PState(Some(NumberTok(5)), [Some(NumberTok(5))], 2, false);
    var st1 := st.(buf := []);
    assert ParseExpr(src, st) == Parsed(Ok(NumberNode(5)), st1) by {
      assert StepAdvance(src, st) == Advanced(Ok(Some(NumberTok(5))), st1);
    }
    var st2 := PState(Some(PlusTok), [], 3, false);
    var st3 := PState(Some(NumberTok(6)), [], 4, false);
    var st4 := PState(Some(EofTok), [], 4, true);
    assert StepAdvance(src, st1) == Advanced(Ok(Some(PlusTok)), st2);
    assert StepAdvance(src, st2) == Advanced(Ok(Some(NumberTok(6))), st3);
    assert StepAdvance(src, st3) == Advanced(Ok(Some(EofTok)), st4);
    assert ParseExpr(src, st3) == Parsed(Ok(NumberNode(6)), st4);
    ParseExprPlus(src, st1);
    var e := OpNode(NumberNode(5), NumberNode(6), PLUS);
    assert ParseExpr(src, st1) == Parsed(Ok(e), st4);
    assert ParseAll(src, st4, Some(e)).result == Ok(Some(e));
    assert ParseAll(src, st1, Some(NumberNode(5))).result == Ok(Some(e));
  }

  /** The driver's own input, "1+1+5": the right-nested tree 1 + (1 + 5),
      seventeen instructions after the three-line preamble, and a program
      that prints 7. */
  lemma DriverInput(m: Machine)
    ensures var e := OpNode(NumberNode(1), OpNode(NumberNode(1), NumberNode(5), PLUS), PLUS);
            && ParseSource("1+1+5") == Ok(Some(e))
            && CompileSource("1+1+5") == Ok(Preamble() + Lines(Program(e)))
            && |Program(e)| == 17
            && Exec(Program(e), m).log == m.log + [Event(1, 7), Event(10, 7)]
  {
    var e := OpNode(NumberNode(1), OpNode(NumberNode(1), NumberNode(5), PLUS), PLUS);
    DriverInputText(e);
    ParseChainText(e);
    CompileChainText(e, m);
  }

  lemma DriverInputText(e: Node)
    requires e == OpNode(NumberNode(1), OpNode(NumberNode(1), NumberNode(5), PLUS), PLUS)
    ensures IsChain(e) && Unlex(TokensOf(e)) == "1+1+5"
  {
    var ts := [NumberTok(1), PlusTok, NumberTok(1), PlusTok, NumberTok(5)];
    assert TokensOf(e) == ts;
    assert Spell(NumberTok(1)) == "1" && Spell(NumberTok(5)) == "5";
    assert Unlex(ts[4..]) == "5";
    assert Unlex(ts[3..]) == "+5";
    assert Unlex(ts[2..]) == "1+5";
    assert Unlex(ts[1..]) == "+1+5";
  }
}
