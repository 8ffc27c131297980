/// The recursive-descent parser: one current token, a pushback buffer and
/// the lexer it pulls tokens from.
///
/// `PState` is everything the parser's methods read and change: the current
/// token, the buffer, and the lexer's cursor and end-of-input flag.  The
/// functions below say what each method does to it; the class `Parser` is
/// proved against them.
module Parsing {
  import opened Syntax
  import opened Errors
  import opened Lexing
  import opened Nodes

  datatype PState = PState(cur: Option<Token>, buf: seq<Option<Token>>, pos: nat, emitted: bool)

  /** A token that is neither nil nor EOF: something is still to be read after it. */
  predicate Live(cur: Option<Token>) {
    cur.Some? && cur.value != EofTok
  }

  /** A bound on the work left; every successful `parse_expression` lowers it. */
  function Measure(src: string, st: PState): nat {
    3 * Remaining(src, st.pos) + (if st.emitted then 0 else 2) + 2 * |st.buf|
    + (if Live(st.cur) then 1 else 0)
  }

  /** What `advance` (or `peek`) returns, and the state it leaves. */
  datatype Advanced = Advanced(result: Result<Option<Token>>, st: PState)

  /** `advance`: take the buffered token if there is one, else ask the lexer;
      either way it becomes the current token.  A lexer error leaves the
      current token as it was. */
  function StepAdvance(src: string, st: PState): (r: Advanced)
    ensures Measure(src, r.st) <= Measure(src, st)
    ensures r.result.Ok? && (Live(st.cur) || r.st.cur.Some?) ==> Measure(src, r.st) < Measure(src, st)
    ensures r.result.Ok? ==> r.st.cur == r.result.value
    ensures r.result.Err? ==> r.st.cur == st.cur && r.st.buf == st.buf
    ensures |st.buf| <= 1 ==> r.st.buf == []
    ensures |st.buf| == 1 ==> r.result == Ok(st.buf[0]) && r.st == st.(cur := st.buf[0], buf := [])
    ensures |st.buf| != 1 ==>
              Lexed(r.result, r.st.pos, r.st.emitted) == Scan(src, st.pos, st.emitted) && r.st.buf == st.buf
  {
    if |st.buf| == 1 then Advanced(Ok(st.buf[0]), st.(cur := st.buf[0], buf := []))
    else
      var n := Scan(src, st.pos, st.emitted);
      match n.result
      case Err(e) => Advanced(Err(e), st.(pos := n.pos, emitted := n.emitted))
      case Ok(t) => Advanced(Ok(t), st.(cur := t, pos := n.pos, emitted := n.emitted))
  }

  /** `peek`: with an empty buffer, advance and keep what it returned in the
      buffer (so the current token is overwritten too); then answer the
      buffered token. */
  function StepPeek(src: string, st: PState): (r: Advanced)
    ensures |st.buf| <= 1 ==> |r.st.buf| <= 1
    ensures r.result.Ok? && |st.buf| <= 1 ==> r.st.buf == [r.result.value]
    ensures |st.buf| >= 1 ==> r == Advanced(Ok(st.buf[0]), st)
    ensures |st.buf| == 0 ==>
              && Lexed(r.result, r.st.pos, r.st.emitted) == Scan(src, st.pos, st.emitted)
              && (r.result.Ok? ==> r.st.cur == r.result.value)
              && (r.result.Err? ==> r.st.cur == st.cur && r.st.buf == [])
  {
    if |st.buf| == 0 then
      var a := StepAdvance(src, st);
      match a.result
      case Err(_) => a
      case Ok(t) => Advanced(Ok(t), a.st.(buf := [t]))
    else Advanced(Ok(st.buf[0]), st)
  }

  /** What `parse_expression` returns, and the state it leaves. */
  datatype Parsed = Parsed(result: Result<Node>, st: PState)

  /** `parse_expression`: `NUMBER (PLUS expression)?`, the tail parsed by
      recursion, so that a chain nests to the right. */
  function ParseExpr(src: string, st: PState): (r: Parsed)
    ensures Measure(src, r.st) <= Measure(src, st)
    ensures r.result.Ok? ==> Measure(src, r.st) < Measure(src, st)
    ensures r.result.Ok? ==> IsChain(r.result.value) && r.st.cur.Some? && r.st.cur.value != PlusTok
    ensures r.result.Ok? ==> st.cur.Some? && st.cur.value.NumberTok?
    ensures st.cur.None? ==> r.result == Err(NilToken)
    ensures st.cur.Some? && !st.cur.value.NumberTok? ==> r.result == Err(UnexpectedToken(st.cur.value))
    decreases Measure(src, st)
  {
    if st.cur.None? then Parsed(Err(NilToken), st)
    else if KindOf(st.cur.value) != NUMBER then Parsed(Err(UnexpectedToken(st.cur.value)), st)
    else
      var n := st.cur.value.value;
      var a := StepAdvance(src, st);
      if a.result.Err? then Parsed(Err(a.result.error), a.st)
      else if a.st.cur.None? then Parsed(Err(NilToken), a.st)
      else if KindOf(a.st.cur.value) != PLUS then Parsed(Ok(NumberNode(n)), a.st)
      else
        var b := StepAdvance(src, a.st);
        if b.result.Err? then Parsed(Err(b.result.error), b.st)
        else
          var rhs := ParseExpr(src, b.st);
          match rhs.result
          case Err(e) => Parsed(Err(e), rhs.st)
          case Ok(r) => Parsed(Ok(OpNode(NumberNode(n), r, PLUS)), rhs.st)
  }

  /** What `parse` returns, and the state it leaves. */
  datatype ParsedAll = ParsedAll(result: Result<Option<Node>>, st: PState)

  /** `parse`: parse expressions until the current token is EOF, keeping only
      the last one (`res`, nil if there was none). */
  function ParseAll(src: string, st: PState, res: Option<Node>): (r: ParsedAll)
    ensures r.result.Ok? ==> r.st.cur == Some(EofTok)
    ensures r.result == Ok(None) ==> res == None && st.cur == Some(EofTok)
    ensures r.result.Ok? && r.result.value.Some? ==>
              IsChain(r.result.value.value) || r.result.value == res
    decreases Measure(src, st)
  {
    if st.cur.None? then ParsedAll(Err(NilToken), st)
    else if KindOf(st.cur.value) == EOF then ParsedAll(Ok(res), st)
    else
      var p := ParseExpr(src, st);
      match p.result
      case Err(e) => ParsedAll(Err(e), p.st)
      case Ok(e) => ParseAll(src, p.st, Some(e))
  }

  class Parser {
    const l: Lexer
    var curtok: Option<Token>
    var tokbuf: seq<Option<Token>>

    /** The pushback buffer never holds more than one token. */
    ghost predicate Valid()
      reads this, l
    {
      l.Valid() && |tokbuf| <= 1
    }

    ghost function State(): PState
      reads this, l
    {
      PState(curtok, tokbuf, l.pos, l.emittedEof)
    }

    constructor Init(lexer: Lexer)
      requires lexer.Valid()
      ensures Valid() && l == lexer && curtok == None && tokbuf == []
    {
      l := lexer;
      curtok := None;
      tokbuf := [];
    }

    /** `Parser.new(lexer)`: an empty buffer, then one `advance`, whose lexer
        error (if any) is raised from the constructor. */
    static method Create(lexer: Lexer) returns (r: Result<Parser>)
      requires lexer.Valid()
      modifies lexer
      ensures lexer.Valid() && lexer.tokens == old(lexer.tokens)
      ensures var a := StepAdvance(lexer.source, PState(None, [], old(lexer.pos), old(lexer.emittedEof)));
              && (r.Ok? <==> a.result.Ok?)
              && (r.Ok? ==> fresh(r.value) && r.value.l == lexer && r.value.Valid()
                            && r.value.State() == a.st)
              && (r.Err? ==> r.error == a.result.error
                             && lexer.pos == a.st.pos && lexer.emittedEof == a.st.emitted)
    {
      var p := new Parser.Init(lexer);
      var t := p.Advance();
      if t.Err? {
        return Err(t.error);
      }
      return Ok(p);
    }

    method Advance() returns (r: Result<Option<Token>>)
      requires Valid()
      modifies this, l
      ensures Valid() && l.tokens == old(l.tokens)
      ensures Advanced(r, State()) == StepAdvance(l.source, old(State()))
    {
      if |tokbuf| == 1 {
        curtok := tokbuf[|tokbuf| - 1];
        tokbuf := tokbuf[..|tokbuf| - 1];
        return Ok(curtok);
      }
      r := l.NextToken();
      if r.Ok? {
        curtok := r.value;
      }
    }

    method Peek() returns (r: Result<Option<Token>>)
      requires Valid()
      modifies this, l
      ensures Valid() && l.tokens == old(l.tokens)
      ensures Advanced(r, State()) == StepPeek(l.source, old(State()))
    {
      if |tokbuf| == 0 {
        var t := Advance();
        if t.Err? {
          return t;
        }
        tokbuf := tokbuf + [t.value];
      }
      return Ok(tokbuf[0]);
    }

    /** `match?(kind)`: the current token's value when its kind is `kind`. */
    function Match(kind: Kind): (v: Option<Value>)
      reads this
      requires curtok.Some?
      ensures v.Some? <==> KindOf(curtok.value) == kind
      ensures v.Some? ==> v.value == ValueOf(curtok.value)
    {
      if KindOf(curtok.value) == kind then Some(ValueOf(curtok.value)) else None
    }

    /** `eof?` */
    function IsEof(): (b: bool)
      reads this
      requires curtok.Some?
      ensures b <==> curtok == Some(EofTok)
    {
      KindOf(curtok.value) == EOF
    }

    method ParseExpression() returns (r: Result<Node>)
      requires Valid()
      modifies this, l
      ensures Valid() && l.tokens == old(l.tokens)
      ensures Parsed(r, State()) == ParseExpr(l.source, old(State()))
      decreases Measure(l.source, State())
    {
      if curtok.None? {
        return Err(NilToken);
      }
      if Match(NUMBER).None? {
        return Err(UnexpectedToken(curtok.value));
      }
      var numtok := curtok.value;
      var a := Advance();
      if a.Err? {
        return Err(a.error);
      }
      if curtok.None? {
        return Err(NilToken);
      }
      if Match(PLUS).Some? {
        var lhs := NumberNode(numtok.value);
        var b := Advance();
        if b.Err? {
          return Err(b.error);
        }
        var rhs := ParseExpression();
        if rhs.Err? {
          return Err(rhs.error);
        }
        return Ok(OpNode(lhs, rhs.value, PLUS));
      }
      return Ok(NumberNode(numtok.value));
    }

    method Parse() returns (r: Result<Option<Node>>)
      requires Valid()
      modifies this, l
      ensures Valid() && l.tokens == old(l.tokens)
      ensures ParsedAll(r, State()) == ParseAll(l.source, old(State()), None)
    {
      var res: Option<Node> := None;
      while curtok.None? || !IsEof()
        invariant Valid() && l.tokens == old(l.tokens)
        invariant ParseAll(l.source, State(), res) == ParseAll(l.source, old(State()), None)
        decreases Measure(l.source, State())
      {
        if curtok.None? {
          return Err(NilToken);
        }
        var e := ParseExpression();
        if e.Err? {
          return Err(e.error);
        }
        res := Some(e.value);
      }
      return Ok(res);
    }
  }

  /** `parse` keeps only its last expression: once the current token is not
      EOF, what was parsed before has no bearing on the result. */
  lemma LastExpressionWins(src: string, st: PState, res1: Option<Node>, res2: Option<Node>)
    requires st.cur != Some(EofTok)
    ensures ParseAll(src, st, res1) == ParseAll(src, st, res2)
  {
  }

  /** A state whose current token, if a number, came straight from the lexer:
      the buffer is empty and no digit is under the lexer's cursor. */
  predicate FromLexer(src: string, st: PState) {
    st.buf == [] && (st.cur.Some? && st.cur.value.NumberTok? ==> NoDigitAt(src, st.pos))
  }

  lemma AdvanceFromLexer(src: string, st: PState)
    requires st.buf == []
    ensures StepAdvance(src, st).result.Ok? ==> FromLexer(src, StepAdvance(src, st).st)
  {
    ScanNumberEnd(src, st.pos, st.emitted);
  }

  /** A successful `parse_expression` from such a state stops on a token that
      is not a number, because the lexer never answers two numbers in a row. */
  lemma {:induction false} ExprStopsOnNonNumber(src: string, st: PState)
    requires FromLexer(src, st)
    ensures var p := ParseExpr(src, st);
            p.result.Ok? ==> p.st.buf == [] && p.st.cur.Some? && !p.st.cur.value.NumberTok?
    decreases Measure(src, st)
  {
    var p := ParseExpr(src, st);
    if p.result.Ok? {
      var a := StepAdvance(src, st);
      ScanNoNumber(src, st.pos, st.emitted);
      if a.st.cur.Some? && KindOf(a.st.cur.value) == PLUS {
        AdvanceFromLexer(src, a.st);
        var b := StepAdvance(src, a.st);
        ExprStopsOnNonNumber(src, b.st);
      }
    }
  }

  /** `parse` keeps at most one expression: after the first, the current token
      is EOF and the loop ends, or a second `parse_expression` raises. */
  lemma ParseKeepsOne(src: string, st: PState)
    requires FromLexer(src, st)
    ensures var p := ParseExpr(src, st);
            p.result.Ok? ==>
              var r := ParseAll(src, p.st, Some(p.result.value));
              r.result.Ok? ==> r.result == Ok(Some(p.result.value)) && r.st == p.st
  {
    ExprStopsOnNonNumber(src, st);
  }

  /** After a `peek` the buffer holds the token it answered, a second `peek`
      changes nothing, and the next `advance` takes that token from the buffer
      without touching the lexer.  With an empty buffer `peek` also makes the
      token current. */
  lemma PeekThenAdvance(src: string, st: PState)
    requires |st.buf| <= 1
    ensures var p := StepPeek(src, st);
            p.result.Ok? ==>
              && p.st.buf == [p.result.value]
              && (|st.buf| == 0 ==> p.st.cur == p.result.value)
              && StepPeek(src, p.st) == p
              && StepAdvance(src, p.st) == Advanced(p.result, p.st.(cur := p.result.value, buf := []))
  {
  }

  /** When the lexer has a token ready and the buffer is empty, `advance`
      makes it current and the lexer's remaining tokens lose their first. */
  lemma AdvanceAlong(src: string, st: PState, t: Token, rest: seq<Token>)
    requires st.buf == []
    requires Tokens(src, st.pos, st.emitted).toks == [t] + rest
    ensures var a := StepAdvance(src, st);
            && a.result == Ok(Some(t)) && a.st.cur == Some(t) && a.st.buf == []
            && Tokens(src, a.st.pos, a.st.emitted) == Tokens(src, st.pos, st.emitted).(toks := rest)
  {
    var n := Scan(src, st.pos, st.emitted);
    match n.result
    case Err(_) => assert false;
    case Ok(None) => assert false;
    case Ok(Some(u)) =>
      var run, after := Tokens(src, st.pos, st.emitted), Tokens(src, n.pos, n.emitted);
      assert run.toks == [u] + after.toks;
      assert u == run.toks[0] == t;
      assert after.toks == run.toks[1..] == rest;
  }

  /** Parsing the tokens of a chain, followed by a token other than `+`, gives
      the chain back and stops on that token. */
  lemma {:induction false} ParseExprChain(src: string, st: PState, e: Node, t: Token, more: seq<Token>)
    requires IsChain(e)
    requires st.buf == [] && st.cur == Some(TokensOf(e)[0])
    requires t != PlusTok
    requires Tokens(src, st.pos, st.emitted).toks == TokensOf(e)[1..] + [t] + more
    ensures var r := ParseExpr(src, st);
            && r.result == Ok(e) && r.st.cur == Some(t) && r.st.buf == []
            && Tokens(src, r.st.pos, r.st.emitted) == Tokens(src, st.pos, st.emitted).(toks := more)
    decreases e, 1
  {
    match e
    case NumberNode(n) =>
      assert Tokens(src, st.pos, st.emitted).toks == [t] + more;
      AdvanceAlong(src, st, t, more);
    case OpNode(lhs, rhs, op) =>
      ParseExprChainPlus(src, st, lhs, rhs, op, t, more);
  }

  /** The step of `ParseExprChain` for a number, `+` and a shorter chain. */
  lemma {:induction false} ParseExprChainPlus(src: string, st: PState, lhs: Node, rhs: Node, op: Kind,
                                              t: Token, more: seq<Token>)
    requires IsChain(OpNode(lhs, rhs, op))
    requires st.buf == [] && st.cur == Some(TokensOf(OpNode(lhs, rhs, op))[0])
    requires t != PlusTok
    requires Tokens(src, st.pos, st.emitted).toks == TokensOf(OpNode(lhs, rhs, op))[1..] + [t] + more
    ensures var r := ParseExpr(src, st);
            && r.result == Ok(OpNode(lhs, rhs, op)) && r.st.cur == Some(t) && r.st.buf == []
            && Tokens(src, r.st.pos, r.st.emitted) == Tokens(src, st.pos, st.emitted).(toks := more)
    decreases OpNode(lhs, rhs, op), 0
  {
    var run := Tokens(src, st.pos, st.emitted);
    var rt := TokensOf(rhs);
    var tail := rt[1..] + [t] + more;
    assert TokensOf(OpNode(lhs, rhs, op)) == [NumberTok(lhs.number)] + [PlusTok] + rt;
    assert run.toks == [PlusTok] + ([rt[0]] + tail);
    AdvanceAlong(src, st, PlusTok, [rt[0]] + tail);
    var a := StepAdvance(src, st);
    AdvanceAlong(src, a.st, rt[0], tail);
    var b := StepAdvance(src, a.st);
    ParseExprChain(src, b.st, rhs, t, more);
    ParseExprPlus(src, st);
  }

  /** `parse_expression` on a number followed by `+`: the number plus whatever
      the recursive call parses after the `+`. */
  lemma ParseExprPlus(src: string, st: PState)
    requires st.cur.Some? && st.cur.value.NumberTok?
    requires StepAdvance(src, st).result.Ok? && StepAdvance(src, st).st.cur == Some(PlusTok)
    requires StepAdvance(src, StepAdvance(src, st).st).result.Ok?
    ensures var rhs := ParseExpr(src, StepAdvance(src, StepAdvance(src, st).st).st);
            ParseExpr(src, st) ==
              match rhs.result
              case Err(e) => Parsed(Err(e), rhs.st)
              case Ok(r) => Parsed(Ok(OpNode(NumberNode(st.cur.value.value), r, PLUS)), rhs.st)
  {
  }
}
