/// The lexer: a scan cursor over the source text.
///
/// `Scan` is what one call of `next_token` does to the cursor, `Tokens` what
/// repeated calls do until the lexer answers nil or raises.  The class
/// `Lexer` holds the cursor and is proved against both.
module Lexing {
  import opened Text
  import opened Syntax
  import opened Errors

  /** The characters some rule accepts: `(`, `)`, `+` and `\w`. */
  predicate IsLegal(c: char) {
    c == '(' || c == ')' || c == '+' || IsWordChar(c)
  }

  /** The characters still to scan from `pos`. */
  function Remaining(s: string, pos: nat): nat {
    if pos <= |s| then |s| - pos else 0
  }

  /** What one call of `next_token` returns, and where it leaves the cursor and
      the end-of-input flag. */
  datatype Lexed = Lexed(result: Result<Option<Token>>, pos: nat, emitted: bool)

  predicate IsRealToken(r: Result<Option<Token>>) {
    r.Ok? && r.value.Some? && r.value.value != EofTok
  }

  /** One call of `next_token` from cursor `pos`: the rules in priority order,
      word runs skipped, end of input answered by one EOF and then nil. */
  function Scan(s: string, pos: nat, emitted: bool): (r: Lexed)
    ensures pos <= r.pos
    ensures pos <= |s| ==> r.pos <= |s|
    ensures forall k :: pos <= k < r.pos ==> k < |s| && IsLegal(s[k])
    ensures r.result.Err? ==>
              r.result.error == UnrecognizedCharacter && r.pos < |s| && !IsLegal(s[r.pos])
              && r.emitted == emitted
    ensures r.result == Ok(None) ==> emitted && r.emitted && r.pos >= |s|
    ensures r.result == Ok(Some(EofTok)) ==> !emitted && r.emitted && r.pos >= |s|
    ensures IsRealToken(r.result) ==> pos < r.pos <= |s| && r.emitted == emitted
    decreases Remaining(s, pos)
  {
    if pos >= |s| then
      if emitted then Lexed(Ok(None), pos, true) else Lexed(Ok(Some(EofTok)), pos, true)
    else if s[pos] == '(' then Lexed(Ok(Some(LParenTok)), pos + 1, emitted)
    else if s[pos] == ')' then Lexed(Ok(Some(RParenTok)), pos + 1, emitted)
    else if IsDigit(s[pos]) then
      var e := RunEnd(s, pos, IsDigit);
      DigitRun(s, pos);
      Lexed(Ok(Some(NumberTok(DecimalValue(s[pos..e])))), e, emitted)
    else if s[pos] == '+' then Lexed(Ok(Some(PlusTok)), pos + 1, emitted)
    else if IsWordChar(s[pos]) then Scan(s, RunEnd(s, pos, IsWordChar), emitted)
    else Lexed(Err(UnrecognizedCharacter), pos, emitted)
  }

  /** Everything repeated calls of `next_token` produce: the tokens in order,
      the error that stopped them if any, and the final cursor. */
  datatype Run = Run(toks: seq<Token>, err: Option<Error>, pos: nat, emitted: bool)

  function Tokens(s: string, pos: nat, emitted: bool): Run
    decreases Remaining(s, pos), if emitted then 0 else 1
  {
    var n := Scan(s, pos, emitted);
    match n.result
    case Err(e) => Run([], Some(e), n.pos, n.emitted)
    case Ok(None) => Run([], None, n.pos, n.emitted)
    case Ok(Some(t)) =>
      var rest := Tokens(s, n.pos, n.emitted);
      Run([t] + rest.toks, rest.err, rest.pos, rest.emitted)
  }

  class Lexer {
    const source: string
    var pos: nat
    var tokens: seq<Token>
    var emittedEof: bool

    /** The cursor stays inside the text, and EOF is only ever emitted at its end. */
    ghost predicate Valid()
      reads this
    {
      pos <= |source| && (emittedEof ==> pos == |source|)
    }

    constructor (source: string)
      ensures Valid()
      ensures this.source == source && pos == 0 && tokens == [] && !emittedEof
    {
      this.source := source;
      pos := 0;
      tokens := [];
      emittedEof := false;
    }

    method NextToken() returns (r: Result<Option<Token>>)
      requires Valid()
      modifies this
      ensures Valid() && tokens == old(tokens)
      ensures Lexed(r, pos, emittedEof) == Scan(source, old(pos), old(emittedEof))
      ensures old(emittedEof) ==> r == Ok(None)
      ensures r == Ok(Some(EofTok)) ==> !old(emittedEof) && emittedEof && pos == |source|
    {
      while pos < |source|
        invariant Valid() && tokens == old(tokens) && emittedEof == old(emittedEof)
        invariant Scan(source, pos, emittedEof) == Scan(source, old(pos), old(emittedEof))
        decreases |source| - pos
      {
        var c := source[pos];
        if c == '(' {
          pos := pos + 1;
          return Ok(Some(LParenTok));
        } else if c == ')' {
          pos := pos + 1;
          return Ok(Some(RParenTok));
        } else if IsDigit(c) {
          var e := RunEnd(source, pos, IsDigit);
          DigitRun(source, pos);
          var n := DecimalValue(source[pos..e]);
          pos := e;
          return Ok(Some(NumberTok(n)));
        } else if c == '+' {
          pos := pos + 1;
          return Ok(Some(PlusTok));
        } else if IsWordChar(c) {
          pos := RunEnd(source, pos, IsWordChar);
        } else {
          return Err(UnrecognizedCharacter);
        }
      }
      if emittedEof {
        return Ok(None);
      }
      emittedEof := true;
      return Ok(Some(EofTok));
    }

    /** Calls `NextToken` until it answers nil, appending every token to `tokens`. */
    method Tokenize() returns (r: Result<seq<Token>>)
      requires Valid()
      modifies this
      ensures Valid()
      ensures var run := Tokens(source, old(pos), old(emittedEof));
              && tokens == old(tokens) + run.toks
              && pos == run.pos && emittedEof == run.emitted
              && r == (if run.err.Some? then Err(run.err.value) else Ok(tokens))
    {
      ghost var run := Tokens(source, pos, emittedEof);
      ghost var done: seq<Token> := [];
      while true
        invariant Valid()
        invariant tokens == old(tokens) + done
        invariant run == Tokens(source, pos, emittedEof).(toks := done + Tokens(source, pos, emittedEof).toks)
        decreases Remaining(source, pos), if emittedEof then 0 else 1
      {
        ghost var p0, e0 := pos, emittedEof;
        var t := NextToken();
        TokenizeStep(source, p0, e0, Lexed(t, pos, emittedEof), done, run);
        if t.Err? {
          return Err(t.error);
        }
        if t.value.None? {
          return Ok(tokens);
        }
        tokens := tokens + [t.value.value];
        done := done + [t.value.value];
      }
    }
  }

  /** One turn of the `tokenize` loop, on the run still to come: an error or
      nil ends it with the tokens so far, and a token joins them. */
  lemma TokenizeStep(s: string, pos: nat, emitted: bool, n: Lexed, done: seq<Token>, run: Run)
    requires n == Scan(s, pos, emitted)
    requires run == Tokens(s, pos, emitted).(toks := done + Tokens(s, pos, emitted).toks)
    ensures n.result.Err? ==> run == Run(done, Some(n.result.error), n.pos, n.emitted)
    ensures n.result == Ok(None) ==> run == Run(done, None, n.pos, n.emitted)
    ensures n.result.Ok? && n.result.value.Some? ==>
              var rest := Tokens(s, n.pos, n.emitted);
              run == rest.(toks := (done + [n.result.value.value]) + rest.toks)
  {
    TokensAfter(s, pos, emitted);
    if n.result.Ok? && n.result.value.Some? {
      var rest := Tokens(s, n.pos, n.emitted);
      assert done + ([n.result.value.value] + rest.toks) == (done + [n.result.value.value]) + rest.toks;
    } else {
      assert done + [] == done;
    }
  }

  /** The rules in priority order, as they classify the character under the
      cursor, with the value each pairs with its kind. */
  lemma TokenRules(s: string, pos: nat, emitted: bool)
    requires pos < |s|
    ensures var r := Scan(s, pos, emitted);
            && (s[pos] == '(' ==>
                  r.result.Ok? && r.result.value.Some? && r.pos == pos + 1
                  && KindOf(r.result.value.value) == LPAREN && ValueOf(r.result.value.value) == Str("("))
            && (s[pos] == ')' ==>
                  r.result.Ok? && r.result.value.Some? && r.pos == pos + 1
                  && KindOf(r.result.value.value) == RPAREN && ValueOf(r.result.value.value) == Str("("))
            && (IsDigit(s[pos]) ==>
                  r.result.Ok? && r.result.value.Some? && KindOf(r.result.value.value) == NUMBER
                  && AllDigits(s[pos..r.pos]) && (r.pos == |s| || !IsDigit(s[r.pos]))
                  && ValueOf(r.result.value.value) == Num(DecimalValue(s[pos..r.pos])))
            && (s[pos] == '+' ==>
                  r.result.Ok? && r.result.value.Some? && r.pos == pos + 1
                  && KindOf(r.result.value.value) == PLUS && ValueOf(r.result.value.value) == Str("+"))
            && (IsWordChar(s[pos]) && !IsDigit(s[pos]) ==>
                  r == Scan(s, RunEnd(s, pos, IsWordChar), emitted))
            && (!IsLegal(s[pos]) ==> r == Lexed(Err(UnrecognizedCharacter), pos, emitted))
  {
    if IsDigit(s[pos]) {
      DigitRun(s, pos);
    }
  }

  /** Once EOF has been emitted at the end of the text, every further call
      answers nil and leaves the cursor where it is. */
  lemma AfterEof(s: string)
    ensures Scan(s, |s|, false) == Lexed(Ok(Some(EofTok)), |s|, true)
    ensures Scan(s, |s|, true) == Lexed(Ok(None), |s|, true)
    ensures Tokens(s, |s|, true) == Run([], None, |s|, true)
  {
  }

  /** Tokenizing from a cursor before EOF succeeds exactly when every character
      left is legal.  Then the tokens end in exactly one EOF and the cursor is at
      the end; otherwise the error is raised at the first illegal character. */
  lemma {:induction false} Totality(s: string, pos: nat)
    requires pos <= |s|
    ensures var r := Tokens(s, pos, false);
            && (r.err.None? <==> forall k :: pos <= k < |s| ==> IsLegal(s[k]))
            && (r.err.None? ==>
                  && |r.toks| > 0 && r.toks[|r.toks| - 1] == EofTok
                  && (forall i :: 0 <= i < |r.toks| - 1 ==> r.toks[i] != EofTok)
                  && r.pos == |s| && r.emitted)
            && (r.err.Some? ==>
                  && r.err == Some(UnrecognizedCharacter)
                  && pos <= r.pos < |s| && !IsLegal(s[r.pos])
                  && (forall k :: pos <= k < r.pos ==> IsLegal(s[k])))
    decreases Remaining(s, pos)
  {
    var n := Scan(s, pos, false);
    var r := Tokens(s, pos, false);
    match n.result
    case Err(e) =>
    case Ok(None) =>
    case Ok(Some(t)) =>
      if t == EofTok {
        assert n.pos == |s|;
        assert Tokens(s, n.pos, true) == Run([], None, |s|, true);
      } else {
        Totality(s, n.pos);
        var rest := Tokens(s, n.pos, false);
        assert r.toks == [t] + rest.toks;
        if r.err.Some? {
          assert !IsLegal(s[r.pos]);
        }
        if rest.err.None? {
          assert forall i :: 1 <= i < |r.toks| - 1 ==> r.toks[i] == rest.toks[i - 1];
        }
      }
  }

  /** The text a token is read from. */
  function Spell(t: Token): string {
    match t
    case LParenTok => "("
    case RParenTok => ")"
    case NumberTok(n) => NatToString(n)
    case PlusTok => "+"
    case EofTok => ""
  }

  function Unlex(ts: seq<Token>): string {
    if ts == [] then "" else Spell(ts[0]) + Unlex(ts[1..])
  }

  /** Token sequences that the lexer can give back from their spelling: no EOF
      inside, and no two numbers in a row (their digits would merge). */
  predicate Spellable(ts: seq<Token>) {
    && (forall i :: 0 <= i < |ts| ==> ts[i] != EofTok)
    && (forall i :: 0 <= i < |ts| - 1 ==> !(ts[i].NumberTok? && ts[i + 1].NumberTok?))
  }

  /** A spelled token under the cursor is read back as that token, provided a
      number's digits are not followed by another digit. */
  lemma ScanSpelled(s: string, i: nat, t: Token, emitted: bool)
    requires t != EofTok
    requires i + |Spell(t)| <= |s| && s[i..i + |Spell(t)|] == Spell(t)
    requires t.NumberTok? && i + |Spell(t)| < |s| ==> !IsDigit(s[i + |Spell(t)|])
    ensures Scan(s, i, emitted) == Lexed(Ok(Some(t)), i + |Spell(t)|, emitted)
  {
    var j := i + |Spell(t)|;
    assert s[i] == Spell(t)[0];
    if t.NumberTok? {
      forall k | i <= k < j ensures IsDigit(s[k]) {
        assert s[k] == Spell(t)[k - i];
      }
      RunEndIs(s, i, j, IsDigit);
    }
  }

  /** `Tokens` after one `Scan`: the run stops on an error or on nothing
      left, and otherwise is the token in front of the rest of the run. */
  lemma TokensAfter(s: string, pos: nat, emitted: bool)
    ensures var n, run := Scan(s, pos, emitted), Tokens(s, pos, emitted);
            && (n.result.Err? ==> run == Run([], Some(n.result.error), n.pos, n.emitted))
            && (n.result == Ok(None) ==> run == Run([], None, n.pos, n.emitted))
            && (n.result.Ok? && n.result.value.Some? ==>
                  var rest := Tokens(s, n.pos, n.emitted);
                  run == Run([n.result.value.value] + rest.toks, rest.err, rest.pos, rest.emitted))
  {
  }

  lemma UnlexStart(ts: seq<Token>)
    requires Spellable(ts) && ts != []
    ensures |Unlex(ts)| > 0 && Unlex(ts)[0] == Spell(ts[0])[0]
  {
  }

  lemma SpellableTail(ts: seq<Token>)
    requires Spellable(ts) && ts != []
    ensures Spellable(ts[1..])
  {
    var tl := ts[1..];
    assert forall i :: 0 <= i < |tl| ==> tl[i] == ts[i + 1];
  }

  lemma SliceMiddle(p: string, w: string, rest: string)
    ensures (p + w + rest)[|p|..|p| + |w|] == w
  {
  }

  /** After a number's spelling comes no digit. */
  lemma NoDigitAfterNumber(ts: seq<Token>, p: string)
    requires Spellable(ts) && |ts| > 1 && ts[0].NumberTok?
    ensures var s := p + Spell(ts[0]) + Unlex(ts[1..]);
            |p| + |Spell(ts[0])| < |s| && !IsDigit(s[|p| + |Spell(ts[0])|])
  {
    UnlexStart(ts[1..]);
  }

  /** The first token of a spelled sequence is read back first. */
  lemma ScanFirst(ts: seq<Token>, p: string)
    requires Spellable(ts) && ts != []
    ensures p + Unlex(ts) == (p + Spell(ts[0])) + Unlex(ts[1..])
    ensures Scan(p + Unlex(ts), |p|, false) == Lexed(Ok(Some(ts[0])), |p| + |Spell(ts[0])|, false)
  {
    var s, t := p + Unlex(ts), ts[0];
    assert s == p + Spell(t) + Unlex(ts[1..]);
    SliceMiddle(p, Spell(t), Unlex(ts[1..]));
    if t.NumberTok? && |ts| > 1 {
      NoDigitAfterNumber(ts, p);
    }
    ScanSpelled(s, |p|, t, false);
  }

  /** Lexing the spelling of a token sequence gives that sequence back,
      followed by one EOF, whatever text precedes it. */
  lemma {:induction false} LexUnlex(ts: seq<Token>, p: string)
    requires Spellable(ts)
    ensures Tokens(p + Unlex(ts), |p|, false) == Run(ts + [EofTok], None, |p + Unlex(ts)|, true)
    decreases |ts|
  {
    var s := p + Unlex(ts);
    if ts == [] {
      assert s == p;
      AfterEof(s);
    } else {
      var p' := p + Spell(ts[0]);
      var n := Scan(s, |p|, false);
      assert s == p' + Unlex(ts[1..]) && n == Lexed(Ok(Some(ts[0])), |p'|, false) by {
        ScanFirst(ts, p);
      }
      assert Tokens(s, |p'|, false) == Run(ts[1..] + [EofTok], None, |s|, true) by {
        SpellableTail(ts);
        LexUnlex(ts[1..], p');
      }
      LexUnlexStep(s, |p|, |p'|, ts);
    }
  }

  /** The step of `LexUnlex`: a token read by `next_token` in front of the
      rest of the run. */
  lemma LexUnlexStep(s: string, i: nat, j: nat, ts: seq<Token>)
    requires ts != []
    requires Scan(s, i, false) == Lexed(Ok(Some(ts[0])), j, false)
    requires Tokens(s, j, false) == Run(ts[1..] + [EofTok], None, |s|, true)
    ensures Tokens(s, i, false) == Run(ts + [EofTok], None, |s|, true)
  {
    TokensAfter(s, i, false);
    assert ts + [EofTok] == [ts[0]] + (ts[1..] + [EofTok]);
  }

  /** No digit under the cursor: the end of the input or another character. */
  predicate NoDigitAt(s: string, pos: nat) {
    pos >= |s| || !IsDigit(s[pos])
  }

  /** A number is read up to the end of its digit run. */
  lemma ScanNumberEnd(s: string, pos: nat, emitted: bool)
    ensures var n := Scan(s, pos, emitted);
            n.result.Ok? && n.result.value.Some? && n.result.value.value.NumberTok? ==> NoDigitAt(s, n.pos)
    decreases Remaining(s, pos)
  {
    if pos < |s| && !IsDigit(s[pos]) && s[pos] != '(' && s[pos] != ')' && s[pos] != '+' && IsWordChar(s[pos]) {
      ScanNumberEnd(s, RunEnd(s, pos, IsWordChar), emitted);
    }
  }

  /** Where no digit is under the cursor, `next_token` does not answer a number:
      a word run skipped there swallows any digits after its first character. */
  lemma {:induction false} ScanNoNumber(s: string, pos: nat, emitted: bool)
    requires NoDigitAt(s, pos)
    ensures var n := Scan(s, pos, emitted);
            !(n.result.Ok? && n.result.value.Some? && n.result.value.value.NumberTok?)
    decreases Remaining(s, pos)
  {
    if pos < |s| && s[pos] != '(' && s[pos] != ')' && s[pos] != '+' && IsWordChar(s[pos]) {
      var e := RunEnd(s, pos, IsWordChar);
      assert e >= |s| || !IsWordChar(s[e]);
      ScanNoNumber(s, e, emitted);
    }
  }

  /** `next_token` never answers two numbers in a row. */
  lemma NumbersNotAdjacent(s: string, pos: nat, emitted: bool)
    ensures var n := Scan(s, pos, emitted);
            n.result.Ok? && n.result.value.Some? && n.result.value.value.NumberTok? ==>
              var m := Scan(s, n.pos, n.emitted);
              !(m.result.Ok? && m.result.value.Some? && m.result.value.value.NumberTok?)
  {
    var n := Scan(s, pos, emitted);
    ScanNumberEnd(s, pos, emitted);
    if n.result.Ok? && n.result.value.Some? && n.result.value.value.NumberTok? {
      ScanNoNumber(s, n.pos, n.emitted);
    }
  }
}
