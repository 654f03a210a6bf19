# A verified model of the tsminicompiler pipeline

This project models the five phases of the mini-compiler in
`compiler/` in Dafny, and proves properties of each phase and of the
pipeline as a whole:

- the tokenizer (`tokenize`),
- the recursive-descent parser (class `Parser`),
- the IR generator (class `IRGenerator`),
- the dead-code eliminator (`optimizeIR`),
- the IR interpreter (`executeIR`).

Each phase keeps the source's imperative form: a method or a class whose
fields the methods update. Each is proved against a pure function of its
inputs, and the lemmas are stated about those functions.

- **`types.dfy`:** the data model.
  - Tokens, lexer and parser errors (kind, found lexeme and line), and the AST.
  - IR instructions with optional `dest`, `args` and `value`. An argument
    is itself optional, standing for the `null` that a call used as an
    operand produces.
  - Symbol-table entries.
- **`numeric.dfy`:** the number conversions.
  - `parseInt` of a digit run.
  - `String(n)`.
  - `Math.floor(a / b)` as floor division. Dafny's `/` is Euclidean, so it is written out.
- **`lexer.dfy`:**
  - The scanner loop `Tokenize`, proved equal to the function `Lex`.
  - The properties of its output: located tokens, lines, a single EOF,
    the spelling of the source, and errors.
  - `,` is not among the scanner's punctuation characters (`lexer.ts:59`),
    so a call with two or more arguments never gets past the tokenizer
    (`CommaRejected`). The parser's `,` loop is modelled all the same, over
    token lists.
- **`syntax.dfy`:** which trees the parser can build (`IsExpr`,
  `IsStatement`), and a printer from trees back to tokens. The parser's
  round-trip lemmas use the printer.
- **`parser.dfy`:**
  - The grammar rules as functions over a token list and a position.
  - The class `Parser`, whose cursor methods and parsing methods are proved
    to follow the rules.
- **`parser_properties.dfy`:**
  - Soundness: every result either advances or reports a token of the input.
  - Round trip: parsing a printed program gives it back, which fixes
    precedence and associativity.
  - Errors: a token that starts no primary is reported with its own
    lexeme and line, and the closing `)` is checked by kind only.
  - Concrete phrases: `a-b-c`, `a+b*c`, `let x + 5`, `x y`, `x;;` and `(1;`.
- **`generator.dfy`:**
  - `Lower` is `visit` as a function on the generator state.
  - `IRGenerator` is the class with the three fields `instructions`,
    `symbolTable` and `tempCounter`. Each `visit*` method is proved to
    follow `Lower`.
  - Lemmas describe what each node type emits and registers, the copy
    elision, and the prefix hazard of `startsWith('temp')`.
- **`optimizer.dfy`:**
  - `Pass`/`Sweep`/`Dce` are the passes and the fixpoint.
  - `OptimizeIR` is the `while (changed)` loop, with the removed count.
  - Lemmas cover subsequence, kept side effects, liveness on exit,
    idempotence, and membership-only liveness.
- **`interpreter.dfy`:**
  - `Step`/`Run`/`Execute` give the semantics.
  - `ExecuteIR` is the `for` loop over a map and a log.
  - Lemmas cover frames, no-ops, arithmetic, printing, and the closing message.
- **`pipeline.dfy`:**
  - Every token list the lexer returns meets the parser's precondition, and
    a text that tokenizes is parsed into well-formed statements that lower
    to well-formed instructions, or rejected with an error quoting one of
    its tokens.
  - Dead-code elimination does not change what a program prints.
  - The playground's sample program (App.tsx) lowers to the expected IR,
    loses its one dead instruction to the optimizer, and prints `30` both
    before and after optimization. Its tree is written out by hand from
    the sample text.

## Model

| member | source | states |
|---|---|---|
| Numeric.ShowNat | compiler/generator.ts:19 | the decimal text of a number is a non-empty run of digits, with no leading zero except for 0 itself |
| Numeric.ShowInt | compiler/interpreter.ts:41 | the text of a negative value is `-` followed by digits; the text of any other value is digits only |
| Numeric.ParseShowNat | compiler/parser.ts:102 | `parseInt` of the printed digits gives the number back |
| Numeric.ShowNatInjective | compiler/generator.ts:19 | different numbers have different decimal texts |
| Numeric.FloorDiv | compiler/interpreter.ts:33 | the quotient rounds towards minus infinity for both signs of the divisor (bounds `q*b <= a < q*b + b`, and the mirror for `b < 0`) |
| Lexer.DigitsEnd | compiler/lexer.ts:29-34 | a number token extends over the longest run of digits: every character in it is a digit, the next one is not |
| Lexer.WordEnd | compiler/lexer.ts:40-45 | a word extends over the longest run of `[a-zA-Z0-9_]` |
| Lexer.LineEnd | compiler/lexer.ts:21-24 | a comment stops at the first line feed, which it does not consume |
| Lexer.NextToken | compiler/lexer.ts:28-65 | a token is a non-empty slice of the source on the current line; it fails exactly on a character no class accepts, reporting that character and line |
| Lexer.ReadDigits | compiler/lexer.ts:30-34 | the inner loop collects exactly the maximal digit run |
| Lexer.ReadWord | compiler/lexer.ts:41-45 | the inner loop collects exactly the maximal word |
| Lexer.SkipCommentText | compiler/lexer.ts:22-24 | the comment loop stops at the line feed or the end |
| Lexer.SkipSpace | compiler/lexer.ts:14-18 | skipping white space keeps the scan, with the line counter increased on `\n` |
| Lexer.SkipComment | compiler/lexer.ts:21-26 | skipping a `//` comment keeps the scan |
| Lexer.EmitToken | compiler/lexer.ts:28-63 | pushing a token and moving past its text keeps the loop invariant |
| Lexer.Tokenize | compiler/lexer.ts:5-70 | the scanner loop returns exactly `Lex(source)`: the token list or the first error |
| LexerProperties.NextTokenWellLocated | compiler/lexer.ts:28-63 | each token obeys its class: a maximal digit run; a maximal word that is a Keyword exactly for `let`/`const`; one operator character that does not start a comment; or one punctuation character; its line is 1 + the line feeds before it |
| LexerProperties.ScanSound | compiler/lexer.ts:10-69 | a successful scan is made of well-located, non-overlapping tokens in source order, ending with EOF at the end of the source |
| LexerProperties.LexEndsWithEof | compiler/lexer.ts:68-69 | a successful result ends with exactly one EOF token, whose value is `EOF`, and no earlier token is EOF (also for empty input) |
| LexerProperties.LexLines | compiler/lexer.ts:8-18 | every token's line is 1 + the line feeds before it, so lines never decrease |
| LexerProperties.NewlinesMonotone | compiler/lexer.ts:15 | the line count never decreases as the scanner moves on |
| LexerProperties.SkipLayout | compiler/lexer.ts:13-26 | white space and comments are skipped by the scanner and deleted from the layout alike |
| LexerProperties.LexSpelling | compiler/lexer.ts:10-66 | the non-EOF token texts run together spell the source with white space and comments deleted |
| LexerProperties.ScanErrorAt | compiler/lexer.ts:10-66 | a failed scan stops at the first position outside white space and comments whose character no class accepts (`FailsAt`), and reports that character with the line of that position |
| LexerProperties.FailsAtUnique | compiler/lexer.ts:65 | only one position can be the one where a scan stops, so the reported character and line are determined by the source |
| LexerProperties.ScanTotal | compiler/lexer.ts:10-66 | a source whose characters all belong to some class always tokenizes |
| LexerProperties.ScanFirstError | compiler/lexer.ts:10-66 | a scan fails exactly when the source, white space and comments deleted, holds a character no class accepts, and it reports the first of them |
| LexerProperties.LexErrors | compiler/lexer.ts:65 | tokenizing fails exactly when a character no class accepts (`@`, say) stands outside white space and comments; it reports the first such character, with the line of that occurrence (`FailsAt`); a source made only of accepted characters always tokenizes |
| LexerProperties.CommentedCharSkipped | compiler/lexer.ts:20-26 | a character inside a comment is never reported: `// @` followed by `@` on the next line fails on line 2 |
| LexerProperties.CommaRejected | compiler/lexer.ts:59-65 | `f(a,b)` fails at the comma on line 1: `,` belongs to no class |
| Parser.Expression | compiler/parser.ts:69-71 | an expression consumes at least one token and fails at EOF |
| Parser.Additive | compiler/parser.ts:73-83 | `parseAdditive` consumes at least one token and fails at EOF |
| Parser.AdditiveRest | compiler/parser.ts:76-80 | the `+ -` loop never moves backwards and stays before the end |
| Parser.Multiplicative | compiler/parser.ts:85-95 | `parseMultiplicative` consumes at least one token and fails at EOF |
| Parser.MultiplicativeRest | compiler/parser.ts:88-92 | the `* /` loop never moves backwards and stays before the end |
| Parser.Primary | compiler/parser.ts:97-128 | a primary consumes at least one token and fails at EOF |
| Parser.Arguments | compiler/parser.ts:111-113 | the argument loop consumes at least one token |
| Parser.Statement | compiler/parser.ts:48-58 | every statement consumes at least one token, so `parse` terminates |
| Parser.VarDeclaration | compiler/parser.ts:60-67 | a declaration consumes at least its keyword |
| Parser.Parser.constructor | compiler/parser.ts:7-9 | the parser starts at position 0 of the given tokens |
| Parser.Parser.Advance | compiler/parser.ts:15-18 | the cursor moves one step unless it is on EOF, and the token just passed is returned |
| Parser.Parser.Match | compiler/parser.ts:24-31 | `match` succeeds exactly off EOF on a token of the kind, comparing the value only when one is given, and then consumes it |
| Parser.Parser.Expect | compiler/parser.ts:33-36 | `expect` checks only the kind; on failure it reports the found lexeme and line |
| Parser.Parser.Parse | compiler/parser.ts:40-46 | `parse` returns `ParseProgram` of the tokens: the statements in order, or the first error |
| Parser.Parser.ParseStatement | compiler/parser.ts:48-58 | the method follows `Statement`: its result and the cursor it leaves |
| Parser.Parser.ParseVarDecl | compiler/parser.ts:60-67 | the method follows `VarDeclaration` |
| Parser.Parser.ParseExpression | compiler/parser.ts:69-71 | the method follows `Expression` |
| Parser.Parser.ParseAdditive | compiler/parser.ts:73-83 | the `while` loop follows `Additive` |
| Parser.Parser.ParseMultiplicative | compiler/parser.ts:85-95 | the `while` loop follows `Multiplicative` |
| Parser.Parser.ParsePrimary | compiler/parser.ts:97-128 | the method follows `Primary` |
| Parser.Parser.ParseCallArguments | compiler/parser.ts:108-116 | the `do … while` loop and closing `)` follow `Primary` from the callee |
| ParserProperties.ExpressionSound | compiler/parser.ts:69-71 | an expression's tree is one the grammar can build, and every error quotes a token at or after the start, with its line |
| ParserProperties.AdditiveSound | compiler/parser.ts:73-83 | the same for `parseAdditive` |
| ParserProperties.MultiplicativeSound | compiler/parser.ts:85-95 | the same for `parseMultiplicative` |
| ParserProperties.PrimarySound | compiler/parser.ts:97-128 | the same for `parsePrimary`: a well-formed primary, or an error quoting a token at or after the start |
| ParserProperties.NoPrimary | compiler/parser.ts:97-127 | a token that starts no primary (EOF, a keyword, an operator, punctuation other than `(`) is rejected with its own lexeme and line, in `parsePrimary` and in `parseExpression` alike |
| ParserProperties.ParenClose | compiler/parser.ts:121-125 | after `(` and an expression, any punctuation token closes the group (`expect` checks only the kind, parser.ts:33-35); any other token is reported with its lexeme and line |
| ParserProperties.CallClose | compiler/parser.ts:108-116 | after a call's arguments, any punctuation token closes the call; any other token is reported with its lexeme and line |
| ParserProperties.StraySemicolon | compiler/parser.ts:48-58 | a `;` where a statement should start is rejected as starting no primary, with its line |
| ParserProperties.AdditiveRestSound | compiler/parser.ts:76-80 | the `+ -` loop builds on a well-formed left operand a well-formed tree, or reports a token |
| ParserProperties.MultiplicativeRestSound | compiler/parser.ts:88-92 | the same for the `* /` loop |
| ParserProperties.ArgumentsSound | compiler/parser.ts:109-114 | every collected argument is a well-formed expression, or an error quotes a token |
| ParserProperties.StatementSound | compiler/parser.ts:48-58 | a statement is a declaration or an expression the grammar can build; errors quote a token at or after its start |
| ParserProperties.ExpressionSoundAfterDeclaration | compiler/parser.ts:60-67 | a declaration yields a well-formed `VarDecl`, or an error quoting a token at or after the keyword |
| ParserProperties.StatementsSound | compiler/parser.ts:42-44 | the statement loop collects only statements the grammar can build, or stops with an error quoting a token at or after its start |
| ParserProperties.ParseProgramSound | compiler/parser.ts:40-46 | `parse` yields a `Program` of well-formed statements, or an error quoting a token of the input and its line |
| ParserProperties.PrimaryRoundTrip | compiler/parser.ts:97-125 | a printed primary parses back to itself |
| ParserProperties.ParenRoundTrip | compiler/parser.ts:121-125 | a parenthesised expression parses to its inner tree, with no wrapper node |
| ParserProperties.CallRoundTrip | compiler/parser.ts:105-117 | `f(…)` parses to a `CallExpr`, with empty arguments for `f()` |
| ParserProperties.ArgumentsRoundTrip | compiler/parser.ts:111-114 | printed arguments parse back in order, appended to those already collected, ending on the `)` |
| ParserProperties.ArgumentsConsRoundTrip | compiler/parser.ts:111-113 | with two or more arguments, the `,` loop goes round once per argument |
| ParserProperties.MultiplicativeRoundTrip | compiler/parser.ts:85-95 | `* /` trees are rebuilt left-associatively |
| ParserProperties.ProductRoundTrip | compiler/parser.ts:85-95 | a printed product or quotient is consumed up to its end, and the loop then carries on from the whole tree |
| ParserProperties.SumRoundTrip | compiler/parser.ts:73-83 | a printed sum or difference is consumed up to its end, and the loop then carries on from the whole tree |
| ParserProperties.AdditiveRoundTrip | compiler/parser.ts:73-83 | `+ -` trees are rebuilt left-associatively, with `* /` operands bound tighter |
| ParserProperties.ExpressionRoundTrip | compiler/parser.ts:69-95 | parsing the printed form of an expression gives it back, and ends just after it |
| ParserProperties.StatementRoundTrip | compiler/parser.ts:48-58 | a printed statement with its `;` parses back, consuming exactly one `;` |
| ParserProperties.ExpressionStatementEnd | compiler/parser.ts:54-57 | the `;` after an expression statement is optional: the statement is the printed expression, ending one token after it when a `;` follows and right after it otherwise |
| ParserProperties.DeclarationRoundTrip | compiler/parser.ts:60-67 | a printed `let` declaration parses back to the same `VarDecl` |
| ParserProperties.StatementsRoundTrip | compiler/parser.ts:40-46 | the statement loop rebuilds printed statements in order |
| ParserProperties.ProgramRoundTrip | compiler/parser.ts:40-46 | a printed program followed by EOF parses back to the same `Program` |
| ParserProperties.NameOperand | compiler/parser.ts:85-95 | a name followed by a token that is neither punctuation nor `*` or `/` is a whole operand, returned as an `Identifier` |
| ParserProperties.LeftAssociative | compiler/parser.ts:73-83 | `a - b - c` parses as `(a - b) - c` |
| ParserProperties.ProductBindsTighter | compiler/parser.ts:73-95 | `a + b * c` parses as `a + (b * c)` |
| ParserProperties.AnyOperatorAssigns | compiler/parser.ts:60-67 | `let x + 5` declares `x` as 5: any operator token is accepted after the name |
| ParserProperties.NoSemicolonNeeded | compiler/parser.ts:40-58 | `x y` is the program of two expression statements `x` and `y` |
| ParserProperties.DoubleSemicolon | compiler/parser.ts:54-57 | `x;;` fails on the second `;`: at most one `;` ends a statement |
| ParserProperties.SemicolonClosesParen | compiler/parser.ts:121-125 | `(1;` parses as the program `1`: the `;` is taken for the closing `)` |
| Generator.TempName | compiler/generator.ts:19 | every temporary's name starts with `temp` and is longer than `temp` (the counter's digits follow) |
| Generator.FreshTemp | compiler/generator.ts:18-23 | `newTemp` names the temporary after the counter, increments the counter and registers a `temp` entry, leaving the instructions alone |
| Generator.OpcodeOf | compiler/generator.ts:76-84 | only `+ - * /` have an opcode; any other operator gives an unknown one |
| Generator.FindSymbol | compiler/generator.ts:51 | `findIndex` returns the first entry with the name, or -1 exactly when there is none |
| Generator.LowerArgs | compiler/generator.ts:110 | one name per argument |
| Generator.IRGenerator.constructor | compiler/generator.ts:4-6 | a new generator has no instructions, no symbols and counter 0 |
| Generator.IRGenerator.Generate | compiler/generator.ts:8-16 | every call resets the state and returns `Generated(ast.body)`: the result depends on the tree alone |
| Generator.IRGenerator.NewTemp | compiler/generator.ts:18-23 | the method follows `FreshTemp` |
| Generator.IRGenerator.Visit | compiler/generator.ts:25-40 | dispatch follows `Lower` for every node type |
| Generator.IRGenerator.VisitVarDecl | compiler/generator.ts:42-69 | copy elision, with its in-place rename and splice, or the `id` copy, follows `LowerDecl` |
| Generator.IRGenerator.VisitBinaryExpr | compiler/generator.ts:71-91 | the method follows `Lower` |
| Generator.IRGenerator.VisitLiteral | compiler/generator.ts:93-102 | the method follows `Lower` |
| Generator.IRGenerator.VisitIdentifier | compiler/generator.ts:104-106 | yields the identifier's own name |
| Generator.IRGenerator.VisitCallExpr | compiler/generator.ts:108-118 | the argument loop and the `print` instruction follow `Lower` |
| GeneratorProperties.TempNamesDistinct | compiler/generator.ts:19 | two temporaries have the same name exactly when they have the same counter value |
| GeneratorProperties.LiteralAppended | compiler/generator.ts:93-102 | a literal appends one `const` writing a fresh temporary, and one `temp` entry |
| GeneratorProperties.IdentifierAppended | compiler/generator.ts:104-106 | an identifier emits nothing |
| GeneratorProperties.BinaryShape | compiler/generator.ts:71-91 | left operand's code, then the right's, then one opcode instruction on `[left, right]` into a temporary allocated after both |
| GeneratorProperties.LowerArithmetic | compiler/generator.ts:71-106 | an arithmetic expression appends one instruction per temporary, each writing the next `tempN` in creation order, with the matching `temp` entries; it yields its last temporary (or the identifier) |
| GeneratorProperties.RemoveLast | compiler/generator.ts:51-54 | the splice removes the entry just added when no earlier entry has its name |
| GeneratorProperties.DeclElision | compiler/generator.ts:45-56 | elision renames the last instruction's `dest` to the variable, adds no instruction, and swaps the temporary's entry for a `var` entry |
| GeneratorProperties.DeclOfExpression | compiler/generator.ts:42-69 | `let x = <arithmetic>` emits the initializer's code with its last temporary renamed to `x`; the symbols are the other temporaries and then `var x` |
| GeneratorProperties.DeclCopies | compiler/generator.ts:57-66 | without elision, exactly one `id` copy and one `var` entry are appended |
| GeneratorProperties.DeclOfNothing | compiler/generator.ts:45 | an initializer that yields no name adds nothing and registers nothing |
| GeneratorProperties.TempNamedVariable | compiler/generator.ts:49 | a program variable named `temp9` triggers elision: `let temp9 = 5; let y = temp9;` gives a single `const y 5`, and `temp9` leaves the table |
| GeneratorProperties.CallLowering | compiler/generator.ts:108-118 | `print` appends one `print` with no `dest` and the argument names; any other callee emits nothing and does not lower its arguments; both yield null |
| GeneratorProperties.ArgsInOrder | compiler/generator.ts:110 | arguments are lowered left to right |
| GeneratorProperties.LowerWellFormed | compiler/generator.ts:25-118 | lowering a parsed statement emits only a `print` without `dest`, or instructions with a known opcode and a `dest` |
| GeneratorProperties.GeneratedWellFormed | compiler/generator.ts:8-16 | a parsed program lowers to well-formed instructions only |
| Optimizer.Pass | compiler/optimizer.ts:27-48 | one pass never grows the list |
| Optimizer.PassFull | compiler/optimizer.ts:36-43 | a pass removes nothing exactly when it keeps every instruction, and then returns its input |
| Optimizer.OptimizeIR | compiler/optimizer.ts:3-54 | the loop returns `Dce` of the input, and `removedCount` is the input length minus the output length |
| Optimizer.CollectUsed | compiler/optimizer.ts:17-24 | pass 1 collects every argument of every instruction |
| OptimizerProperties.PassSubseq | compiler/optimizer.ts:27-48 | a pass keeps a subsequence in the original order |
| OptimizerProperties.DceSubseq | compiler/optimizer.ts:11-53 | the output is a subsequence of the input, in order |
| OptimizerProperties.PassEffects | compiler/optimizer.ts:28-48 | every `print`, and every instruction without a `dest`, survives a pass, in order |
| OptimizerProperties.DceEffects | compiler/optimizer.ts:15-51 | every `print` and every instruction without a `dest` survives the whole loop |
| OptimizerProperties.UsedInMeans | compiler/optimizer.ts:20-24 | a name is collected exactly when it is an argument of some instruction |
| OptimizerProperties.DceFixpoint | compiler/optimizer.ts:15-51 | on exit one more pass removes nothing |
| OptimizerProperties.DceLive | compiler/optimizer.ts:15-51 | on exit, every surviving non-`print` instruction with a `dest` has that `dest` among the arguments of some survivor |
| OptimizerProperties.DceIdempotent | compiler/optimizer.ts:15-51 | optimizing the output again changes nothing, so it removes 0 |
| OptimizerProperties.SweepShrinks | compiler/optimizer.ts:36-43 | a pass that changes the list strictly shortens it, so the loop terminates |
| OptimizerProperties.ArgsInUsed | compiler/optimizer.ts:20-24 | the arguments of every instruction are collected |
| OptimizerProperties.PassKeeps | compiler/optimizer.ts:28-48 | an instruction the filter accepts survives the pass |
| OptimizerProperties.SelfUseKept | compiler/optimizer.ts:37 | an instruction whose `dest` is among its own arguments is never removed |
| OptimizerProperties.UseBeforeDefinition | compiler/optimizer.ts:20-24 | liveness is membership only: `print [x]` before `const x 5` keeps the `const` |
| Interpreter.ErrorStops | compiler/interpreter.ts:33 | a division by zero (where the source stores `Infinity` or `NaN`) ends the model's run: the instructions after it do not change the outcome |
| Interpreter.ExecuteIR | compiler/interpreter.ts:3-52 | the loop over the instructions returns `Execute`: the printed lines, or the closing message when there are none |
| Interpreter.PrintLine | compiler/interpreter.ts:40-41 | the line printed is `Line` of the arguments |
| InterpreterProperties.StepFrame | compiler/interpreter.ts:7-45 | an instruction changes at most its `dest`'s binding and keeps every other one; only `print` adds output: exactly the `Line` of its arguments when it has them, and nothing otherwise |
| InterpreterProperties.NoOp | compiler/interpreter.ts:8-45 | unknown opcodes and malformed instructions change neither the environment nor the output: no `dest`, `const` without a value, `id` without a bound source, arithmetic without exactly two arguments, `print` without arguments |
| InterpreterProperties.IdCopies | compiler/interpreter.ts:15-20 | `id` copies a bound source into `dest` |
| InterpreterProperties.ArithmeticStep | compiler/interpreter.ts:22-36 | `add`/`sub`/`mul` bind `v1 op v2`, reading unbound operands as 0; `div` binds the floor quotient and fails exactly on a zero divisor |
| InterpreterProperties.LineConcat | compiler/interpreter.ts:40-41 | a line is the values joined by single spaces |
| InterpreterProperties.UnboundArgs | compiler/interpreter.ts:40-41 | unbound arguments print as empty strings |
| InterpreterProperties.RunLogs | compiler/interpreter.ts:38-43 | a run keeps the earlier output as a prefix and appends exactly one line per `print` that has arguments |
| InterpreterProperties.ExecuteOutput | compiler/interpreter.ts:47-51 | with no `print` the output is exactly the closing message; otherwise it is the run's printed lines, one per `print` |
| Pipeline.LexWellFormed | compiler/lexer.ts:5-70 | every token list `tokenize` returns ends with its EOF token and holds only digit runs as number tokens, which is what the parser requires |
| Pipeline.SourceToIR | compiler/parser.ts:40-46 | a text that tokenizes is parsed into a program of well-formed statements, which lowers to well-formed instructions only, or rejected with an error quoting one of its tokens |
| Pipeline.AgreeLine | compiler/interpreter.ts:40-41 | arguments read alike in environments that agree on them |
| Pipeline.KeptStep | compiler/optimizer.ts:30-38 | a kept instruction behaves alike in states that agree on the collected names |
| Pipeline.DroppedStep | compiler/optimizer.ts:39-43 | a removed instruction only binds a name nobody reads, and prints nothing |
| Pipeline.PassRun | compiler/optimizer.ts:27-48 | running the instructions one pass keeps prints the same lines as the whole list |
| Pipeline.SweepRun | compiler/optimizer.ts:15-50 | one pass of the loop does not change the output |
| Pipeline.DcePreservesOutput | compiler/optimizer.ts:4-6 | dead-code elimination preserves the output of every program that runs without dividing by zero |
| Pipeline.DeclLiteral | compiler/generator.ts:45-56 | `let x = <literal>` emits one `const` writing `x` and registers `var x` |
| Pipeline.SampleGenerated | App.tsx:12-16 | the sample lowers to `[const x 10, const y 20, const z 30, add res [x,y], print [res]]` with symbols `x, y, z, res` |
| Pipeline.SampleOptimized | App.tsx:12-16 | the optimizer removes the dead `const z 30` and nothing else |
| Pipeline.SampleRuns | App.tsx:12-16 | the sample prints `["30"]` |
| Pipeline.SampleOptimizedRuns | App.tsx:12-16 | the optimized sample prints `["30"]` too |
| Pipeline.SampleProgram | App.tsx:12-16 | generation, then exactly one instruction removed, then `["30"]` printed before and after optimization |

## Left out

- JavaScript numbers: values are unbounded integers. Doubles beyond 2^53,
  `parseInt` of very long digit runs, and `NaN`/`Infinity` are not modelled.
- Division by zero: the source stores `Infinity` or `NaN`; the model stops
  the run with `DivisionByZero(index)`.
- Pipeline.DcePreservesOutput: stated only for programs whose unoptimized
  run has no division by zero. A removed division by zero would turn the
  model's error into a successful run. In the source that value is never
  read, so nothing printed differs.
- Error messages: the Portuguese text of the lexer and parser errors is
  not modelled. Errors keep the unexpected character or the expected item,
  the found lexeme, and the line.
- The `type: 'int'` tag on instructions and symbols is not modelled: it is
  constant and never read.
- White space: `/\s/` is an explicit list of the ECMAScript white-space and
  line-terminator characters. The source indexes UTF-16 code units, while
  the model works on Dafny characters.
- Parser.Parser.constructor: requires a token list that ends with EOF and
  whose number tokens are digit runs (`WellFormedTokens`). `tokenize`
  always produces such lists (`Pipeline.LexWellFormed`). On other input, the source reads past the end
  of the array.
- GeneratorProperties.DeclOfExpression: requires that no earlier symbol
  has the name of the initializer's last temporary. Without that, the splice
  removes the earlier entry; `TempNamedVariable` shows this case.
- Instruction objects are values. The source renames `lastInstr.dest` in
  place, and the optimizer's copy of the list shares instruction objects
  with the generator's. The model captures the rename, but not the sharing.
- Pipeline.SampleProgram: starts from the sample's syntax tree written out
  by hand (`Sample`). That lexing and parsing the sample text yields this tree
  is not derived: the parser's round-trip lemmas work on printed tokens,
  which all carry line 1, while the lexed tokens carry lines 1 to 5.
- App.tsx is not part of this model beyond its sample program:
  - the React state and handlers;
  - timing;
  - `calculateSymbolUsage`, which only recomputes the `used` flag for display.
- components/Panel.tsx is not part of this model: it is UI markup.
- I/O: there is none in the modelled phases. Output is the returned list of lines.
