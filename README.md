# small-mips in Dafny

This is a verified model of `main.rb` from small-mips. That file is a compiler for sums of unsigned integer literals such as `1+1+5`, and it has three stateful parts:

- **`Lexer`** moves a cursor over the source text. It yields `(`, `)`, numbers and `+`, then one `EOF` token, then `nil`.
- **`Parser`** holds one current token and a pushback buffer of at most one slot. It builds chains of `+` nested to the right.
- **`MipsCompiler`** walks the tree and appends MIPS assembly lines to a buffer. It keeps the left operand of each `+` on a stack in memory.

The three stateful Ruby classes are Dafny classes with the same fields; the Lexer's `StringScanner` `@s` becomes the source text and a cursor. The methods change those fields, and each method's contract ties its result and the new state to a function of the old state. The node classes `Nodes::NumberNode` and `Nodes::OpNode`, which are never changed after construction, are the constructors of the datatype `Nodes.Node`.

| Ruby class | Dafny class | specified by |
|---|---|---|
| `Lexer` | `Lexing.Lexer` | `Scan` and `Tokens` over the source, the cursor and the end-of-input flag |
| `Parser` | `Parsing.Parser` | `StepAdvance`, `StepPeek`, `ParseExpr` and `ParseAll` over `PState` (current token, buffer, lexer cursor and flag) |
| `MipsCompiler` | `Codegen.MipsCompiler` | `Emit`, the instruction sequence of a tree; each method appends the Ruby text lines, and its contract equates them with `Lines` of the matching instructions |

The properties are proved about these functions:

- **Lexer:**
  - the character rules, tried in priority order;
  - the single `EOF`;
  - which inputs the lexer rejects, and where;
  - a round trip from the text of a token sequence back to that sequence.
- **Parser:**
  - the one-slot buffer;
  - parsing the tokens of a chain gives back that chain.
- **Code generator:**
  - the exact text of every instruction;
  - on an abstract machine (`Mips`), the code of a tree leaves the tree's sum in `$a0`;
  - the code gives back every stack word it takes, and never goes above its starting stack pointer;
  - the program prints the sum, then exits.

Module layout, one file each:

| file | module | what it holds |
|---|---|---|
| `text.dfy` | `Text` | character classes, maximal runs, decimal digits |
| `tokens.dfy` | `Syntax`, `Errors` | tokens; the exceptions and the result types that carry them |
| `lexer.dfy` | `Lexing` | the lexer |
| `nodes.dfy` | `Nodes` | the tree |
| `parser.dfy` | `Parsing` | the parser |
| `mips.dfy` | `Mips` | instructions, their text, the machine |
| `compiler.dfy` | `Codegen` | the code generator |
| `pipeline.dfy` | `Pipeline` | the chain as the driver script runs it |

### Behaviour as written

The model follows the code as written, including these quirks:

- `)` is paired with the lexeme `"("` (main.rb:22).
- The rule commented "whitespace" matches `\w+` (main.rb:27). A run of letters, digits and `_` that does not start with a digit is skipped. A run that starts with a digit is a number, and the word run after it (letters, digits, `_`) is skipped, so `1a2` lexes as just `NUMBER 1`. A space matches no rule, so it raises.
- The lexer has no identifier, keyword, `,` or `-` rule. Its error message uses `@s.peek(0)`, which is always empty, so `UnrecognizedCharacter` carries no character.
- `peek` calls `advance`, which also overwrites the current token (main.rb:77-82). A second `peek` answers the buffered token again rather than failing (`PeekThenAdvance`).
- `parse` keeps only the last expression (`LastExpressionWins`). On a parser with no pending `peek` (an empty buffer, as on the driver's path of `Parser.new` then `parse`) that never shows: the lexer never answers two numbers in a row (`NumbersNotAdjacent`), so after one expression the current token is `EOF` or a second `parse_expression` raises, and `parse` keeps at most one expression (`ParseKeepsOne`, `ParseSourceOneExpression`). After a `peek` it can show: on `(5+6`, `peek` leaves the number 5 both current and buffered, the first `parse_expression` gives 5 and stops on the buffered 5 again, and `parse` keeps the second expression, 5 + 6 (`PeekThenParse`). `parse` answers nil exactly when the first token is `EOF` (`NilIffFirstEof`): the input is empty or holds only word runs that do not start with a digit, as in `abc` (`NilOrRaise`, `CompileEmpty`). An input whose first token is `(`, `)` or `+` raises in `parse_expression` instead.
- `match?` and `eof?` index the current token. When it is nil, Ruby raises `NoMethodError`; here that is the error `NilToken`.

## Model

| member | source | states |
|---|---|---|
| Text.RunEnd | main.rb:23-27 | a maximal run: every character from the start position up to the result is in the class, and the result is the end of the text or a character outside it |
| Text.NatToString | main.rb:138 | the decimal text of a number: non-empty, all digits, no leading zero, read back as the number |
| Text.IntToString | main.rb:153 | the text of an integer: a leading `-` exactly for negatives, then the digits of its magnitude |
| Text.DecimalValue | main.rb:24 | `to_i` of a digit run, read most significant digit first; `NatToString` and `DecimalRoundTrip` state that it inverts the decimal rendering |
| Text.DecimalRoundTrip | main.rb:23-24 | a digit run without a leading zero, read with `to_i` and printed back, gives the same text |
| Lexing.Scan | main.rb:17-39 | one `next_token`. Only legal characters are consumed. An error stops at an illegal character. `nil` only after `EOF`. `EOF` only once, at the end. A real token consumes at least one character |
| Syntax.KindOf | main.rb:20-37 | the first half of each token pair: `:LPAREN`, `:RPAREN`, `:NUMBER`, `:PLUS`, `:EOF`; `TokenRules` states which rule gives which |
| Syntax.ValueOf | main.rb:20-37 | the second half of each pair: `"("` for both parentheses, the number's value, `"+"`, and `""` for `EOF` |
| Lexing.Tokens | main.rb:10-15 | the tokens repeated `next_token` calls give until nil or an error; `Totality` and `LexUnlex` state which inputs succeed and what they give, and `Lexer.Tokenize` is proved against it |
| Lexing.Lexer.constructor | main.rb:4-8 | the cursor at the start, no tokens, `EOF` not yet emitted |
| Lexing.Lexer.NextToken | main.rb:17-39 | the result, the new cursor and the flag are those of `Scan`; after `EOF`, `nil` |
| Lexing.Lexer.Tokenize | main.rb:10-15 | appends the whole run of tokens to `tokens` and returns them, or raises the run's error; the cursor and flag end where the run ends |
| Lexing.TokenRules | main.rb:18-31 | each rule in priority order: `(`, `)` (lexeme `"("`), a maximal digit run with its value, `+`, a skipped maximal word run, any other character raising |
| Lexing.AfterEof | main.rb:33-38 | at the end of the input: `EOF` once, then `nil` with nothing changed |
| Lexing.Totality | main.rb:10-39 | no error exactly when every remaining character is legal. Then the run ends at the end of the text, with exactly one `EOF`, last. Otherwise it stops at the first illegal character |
| Lexing.ScanNumberEnd | main.rb:23-24 | a number is read up to the end of its digit run: no digit follows it |
| Lexing.ScanNoNumber | main.rb:18-31 | where no digit is under the cursor, `next_token` does not answer a number, even after skipping a word run |
| Lexing.NumbersNotAdjacent | main.rb:17-39 | two successive calls of `next_token` never both answer a number |
| Lexing.LexUnlex | main.rb:17-39 | lexing the text of a token sequence that has no `EOF` and no two adjacent numbers gives that sequence followed by `EOF` |
| Nodes.ChainDeterminedByLeaves | main.rb:95-110 | a right-nested chain is fixed by its list of numbers |
| Parsing.StepAdvance | main.rb:69-75 | with one token buffered, that token is answered and made current and the buffer emptied, without asking the lexer. Otherwise the answer and the lexer's cursor and flag are those of one `next_token`, the buffer is kept, and a successful answer becomes the current token. A lexer error leaves the current token alone |
| Parsing.StepPeek | main.rb:77-82 | with a token buffered, `peek` answers it and changes nothing. With an empty buffer, the answer and the lexer's cursor and flag are those of one `next_token`; a successful answer becomes the current token and the sole buffered token, and a lexer error leaves the current token and the empty buffer alone |
| Parsing.ParseExpr | main.rb:95-110 | success yields a right-nested `+` chain, started on a number and stopped on a token other than `+`. A nil current token gives `NilToken`. Any other non-number current token gives the parser's error with that token |
| Parsing.ParseAll | main.rb:88-93 | success ends on `EOF`. A nil result means no expression was parsed. Otherwise the result is a chain, or the expression passed in as the one kept so far |
| Parsing.Parser.Init | main.rb:63-66 | the lexer kept, no current token, an empty buffer |
| Parsing.Parser.Create | main.rb:63-67 | construction followed by the first `advance`. The current token and state are those of `StepAdvance` from the empty parser, or its lexer error is raised |
| Parsing.Parser.Advance | main.rb:69-75 | the result and new state are those of `StepAdvance` |
| Parsing.Parser.Peek | main.rb:77-82 | the result and new state are those of `StepPeek` |
| Parsing.Parser.Match | main.rb:84-86 | the current token's value exactly when its kind is the one asked for, else nil |
| Parsing.Parser.IsEof | main.rb:112-114 | true exactly when the current token is `EOF` |
| Parsing.Parser.ParseExpression | main.rb:95-110 | the result and new state are those of `ParseExpr` |
| Parsing.Parser.Parse | main.rb:88-93 | the result and new state are those of `ParseAll` from no expression |
| Parsing.LastExpressionWins | main.rb:88-93 | before an `EOF`, the expression kept so far has no effect on the result |
| Parsing.ExprStopsOnNonNumber | main.rb:95-110 | a successful `parse_expression` on a number fresh from the lexer stops on a token that is not a number, with the buffer empty |
| Parsing.ParseKeepsOne | main.rb:88-110 | on a parser with no pending `peek` (empty buffer, current number fresh from the lexer), after one successful `parse_expression`, `parse` either ends with that expression or raises; it never keeps a second one |
| Parsing.PeekThenAdvance | main.rb:69-82 | after `peek` the buffer holds its answer, a second `peek` changes nothing, and `advance` takes the buffered token without the lexer |
| Parsing.AdvanceAlong | main.rb:69-75 | with an empty buffer, `advance` makes the lexer's next token current and removes it from the remaining run |
| Parsing.ParseExprChain | main.rb:95-110 | the tokens of a chain followed by a token other than `+` parse to that chain, which stops on that token with the rest of the run untouched |
| Codegen.Emit | main.rb:135-149 | the instructions `cgen` writes for a tree; `EmitComputesSum`, `EmitStackBounded` and `EmitLength` state what they compute, how they use the stack and how long they are, and `MipsCompiler.Cgen` is proved against it |
| Codegen.Preamble | main.rb:183-185 | the three lines `.text`, `.globl main`, `main:`; `MipsCompiler.Output` puts them in front of the buffer |
| Codegen.Program | main.rb:129-133 | the instructions of `compile`: the tree's code, then print, then exit; `ProgramPrintsSum` states that it prints the sum and exits |
| Codegen.EmitLength | main.rb:135-149 | a number's code is one line; an operator's is its operands' plus five; in all, six lines per number less five |
| Codegen.EmitNumberLines | main.rb:137-138 | a number's code is the single line `li $a0 <digits>` |
| Codegen.PushText | main.rb:151-154 | push is `sw <reg> 0($sp)` then `addiu $sp $sp -4` |
| Codegen.PopText | main.rb:156-158 | pop is `addiu $sp $sp 4` |
| Codegen.LoadStackTopText | main.rb:160-162 | load is `lw <reg> 4($sp)` |
| Codegen.AddText | main.rb:164-166 | add is `add $a0 <reg1> <reg2>` |
| Codegen.PrintText | main.rb:168-171 | print is `li $v0 1` then `syscall` |
| Codegen.ExitText | main.rb:173-176 | exit is `li $v0 10` then `syscall` |
| Codegen.EmitComputesSum | main.rb:135-166 | running a tree's code leaves the tree's sum in `$a0`. It gives `$sp` back, leaves `$v0` and the syscall log alone, and changes no word above the starting `$sp` |
| Codegen.EmitStackBounded | main.rb:135-162 | the `$sp` adjustments of a tree's code sum to 0. Every prefix stays between 0 and `-4 * Slots(e)` |
| Codegen.StackWithinSlots | main.rb:135-162 | on the machine, at every point of a tree's code, `$sp` is never above its start and never more than `Slots(e)` words below it |
| Codegen.ProgramPrintsSum | main.rb:129-176 | a compiled program makes exactly two syscalls, print (1) then exit (10), both with the sum in `$a0`, and gives back `$sp` |
| Codegen.MipsCompiler.constructor | main.rb:124-127 | the tree kept and an empty buffer |
| Codegen.MipsCompiler.Compile | main.rb:129-133 | a nil tree raises the compiler's error and writes nothing. Otherwise the tree's code, print and exit are appended |
| Codegen.MipsCompiler.Cgen | main.rb:135-149 | appends exactly the text of `Emit` of the tree. Nil raises `UnknownNode` and appends nothing |
| Codegen.MipsCompiler.Push | main.rb:151-154 | appends the text of a push of the register |
| Codegen.MipsCompiler.Pop | main.rb:156-158 | appends the text of a pop |
| Codegen.MipsCompiler.LoadStackTop | main.rb:160-162 | appends the text of a load of the stack top |
| Codegen.MipsCompiler.Add | main.rb:164-166 | appends the text of an add into `$a0` |
| Codegen.MipsCompiler.Print | main.rb:168-171 | appends the print syscall |
| Codegen.MipsCompiler.Exitt | main.rb:173-176 | appends the exit syscall |
| Codegen.MipsCompiler.Output | main.rb:178-185 | puts `.text`, `.globl main`, `main:` in front of the buffer, keeps it and returns it |
| Pipeline.ParseSource | test.rb:4-9 | a fresh lexer, the constructor's `advance`, then `parse`; `ParseChainText`, `ParseSourceOneExpression`, `NilIffFirstEof` state what it gives |
| Pipeline.CompileSource | test.rb:4-12 | the output lines of the driver's steps, or the first error raised; `CompileChainText` and `CompileEmpty` state what it gives |
| Pipeline.NilIffFirstEof | main.rb:88-93 | `parse` answers nil exactly when the first token is `EOF` |
| Pipeline.NilOrRaise | main.rb:88-110 | `abc` (word runs only) parses to nil; `(` raises the parser's error with that token |
| Pipeline.ParseProgram | test.rb:4-9 | a new lexer, the parser's constructor, then `parse`, on the classes, give `ParseSource` |
| Pipeline.CompileProgram | test.rb:4-12 | the driver's steps on the classes give `CompileSource`: the preamble and program text, or the first exception raised |
| Pipeline.ParseChainText | main.rb:88-110 | the text of any chain is parsed back to that chain |
| Pipeline.ScansOfPeekExample | main.rb:17-39 | the tokens of `(5+6`: `(`, `NUMBER 5`, `+`, `NUMBER 6`, `EOF`, with the cursor after each |
| Pipeline.PeekThenParse | main.rb:77-110 | on `(5+6`, after `Parser.new` and one `peek`, the number 5 is current and buffered; `parse_expression` gives 5 and stops on 5 again, and `parse` keeps the second expression 5 + 6 |
| Pipeline.ParseSourceOneExpression | test.rb:4-9 | a source that parses to an expression holds exactly one: the first `parse_expression` after the constructor gives it and stops on `EOF` |
| Pipeline.CompileChainText | main.rb:129-185 | the text of any chain compiles to the preamble and the chain's program, which prints its sum |
| Pipeline.CompileEmpty | main.rb:88-93 | an empty input parses to nil, which the compiler rejects with its error |
| Pipeline.DriverInput | test.rb:4-12 | `1+1+5` parses to `1 + (1 + 5)`. It compiles to the preamble and 17 instructions, and the program prints 7 |

## Left out

- The `Tempfile` and the call to `spim` in the driver (test.rb:13-19) are left out. They are file and process I/O.
- The `StringScanner` and regular expressions are left out. Each rule is a character-class predicate with maximal-munch scanning (`Text.RunEnd`) over a `seq<char>` and an index.
- Exception messages are not modelled: an error is its class (and, for the parser, the token), not its text.
- Numbers and machine words are unbounded integers. The model does not capture 32-bit overflow in `spim` for large literals or sums, nor a literal beyond `li`'s range.
- Memory is a map from byte addresses to words. Alignment and the rest of the MIPS address space are not modelled.
- `syscall` only records `$v0` and `$a0`. What `spim` does with them, printing and exiting, is not executed. Instructions are not run after the exit call.
- `@op` of `OpNode` is stored and never read; it has no behaviour here either.
- Parsing.Parser.Create: `Parser.new` raising from inside `initialize` is modelled as a static method that returns the parser or the lexer's error, since a Dafny constructor cannot fail.
- Ruby's `NoMethodError` on a nil current token is the error value `NilToken`, not a crash.
