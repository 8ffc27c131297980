/// Tokens and the pipeline's error conditions.
///
/// A Ruby token is a pair `[kind, value]`.  Each kind has its own
/// constructor here; `KindOf` and `ValueOf` give back the two halves of the
/// pair exactly as the lexer builds them.
module Syntax {

  /** The symbols `:LPAREN`, `:RPAREN`, `:NUMBER`, `:PLUS`, `:EOF`. */
  datatype Kind = LPAREN | RPAREN | NUMBER | PLUS | EOF

  /** The second half of a token pair: a string lexeme or an integer. */
  datatype Value = Str(text: string) | Num(n: nat)

  datatype Token = LParenTok | RParenTok | NumberTok(value: nat) | PlusTok | EofTok

  function KindOf(t: Token): Kind {
    match t
    case LParenTok => LPAREN
    case RParenTok => RPAREN
    case NumberTok(_) => NUMBER
    case PlusTok => PLUS
    case EofTok => EOF
  }

  /** The lexeme each rule pairs with its kind.  The closing parenthesis
      carries the lexeme "(", as the lexer writes it. */
  function ValueOf(t: Token): Value {
    match t
    case LParenTok => Str("(")
    case RParenTok => Str("(")
    case NumberTok(n) => Num(n)
    case PlusTok => Str("+")
    case EofTok => Str("")
  }
}

/// The exceptions the pipeline raises, and results that may carry one.
module Errors {
  import opened Syntax

  /** Ruby's `nil` or a value. */
  datatype Option<T> = None | Some(value: T)

  datatype Error =
    | UnrecognizedCharacter        // Lexer::Error
    | UnexpectedToken(found: Token) // Parser::Error
    | NilToken                     // indexing a nil current token
    | UnknownNode                  // MipsCompiler::Error

  datatype Result<T> = Ok(value: T) | Err(error: Error)

  datatype Outcome = Pass | Fail(error: Error)
}
