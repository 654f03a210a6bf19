/**
 * The values that flow between the phases of the compiler: tokens, syntax
 * trees, IR instructions and symbol-table entries, plus the small Option and
 * Result wrappers that stand for JavaScript's `undefined`/`null` and for the
 * exceptions thrown by the lexer and the parser.
 */
module Types {

  datatype Option<+T> = None | Some(value: T)

  datatype Result<+T, +E> = Ok(value: T) | Err(error: E)

  // ---------------------------------------------------------------- tokens

  /** `TokenType`; its `Identifier` is called `Ident` here so as not to clash with the AST node. */
  datatype TokenKind = Keyword | Ident | Number | Operator | Punctuation | EOF

  /** A lexeme, its class and the 1-based line it starts on. */
  datatype Token = Token(kind: TokenKind, value: string, line: nat)

  /** The lexer's only failure: a character no rule accepts, and its line. */
  datatype LexError = UnexpectedChar(ch: char, line: nat)

  /** What the parser was looking for when it gave up. */
  datatype Expectation =
    | VariableName         // `expect(Ident, ...)` after `let`/`const`
    | AssignOperator       // `expect(Operator, ...)` after the declared name
    | CloseParenAfterArgs  // `expect(')')` after a call's arguments
    | CloseParenAfterExpr  // `expect(')')` after a parenthesised expression
    | PrimaryExpression    // no primary production matches

  /** A parse failure carries the line and the lexeme actually found. */
  datatype ParseError = ParseError(expected: Expectation, found: string, line: nat)

  // ------------------------------------------------------------------- AST

  /**
   * One variant per `NodeType`. A `Program` owns its statements, a `VarDecl`
   * its initializer, and so on; `let` and `const` are not distinguished.
   */
  datatype Node =
    | Program(body: seq<Node>)
    | VarDecl(name: string, init: Node)
    | BinaryExpr(left: Node, right: Node, operator: string)
    | CallExpr(callee: string, args: seq<Node>)
    | Literal(number: int)
    | Identifier(name: string)

  // -------------------------------------------------------------------- IR

  /**
   * The opcodes the generator emits; `Unknown` stands for any other `op`
   * (including the `undefined` that an unmapped operator produces), which
   * the optimizer and the interpreter treat alike without looking at it.
   */
  datatype Opcode = Const | Id | Add | Sub | Mul | Div | Print | Unknown

  /**
   * An argument of an instruction: a variable name, or `None` for the `null`
   * that lowering a value-less expression (a call) produces.
   */
  type Arg = Option<string>

  datatype Instr = Instr(op: Opcode, dest: Option<string>, args: Option<seq<Arg>>, value: Option<int>)

  datatype SymbolKind = VarSymbol | ConstSymbol | TempSymbol

  datatype SymbolInfo = SymbolInfo(name: string, kind: SymbolKind, used: bool)

  /** JavaScript truthiness of an optional string: present and non-empty. */
  predicate Truthy(s: Option<string>)
  {
    s.Some? && s.value != ""
  }

  predicate IsPrefix(p: string, s: string)
  {
    |p| <= |s| && s[..|p|] == p
  }
}
