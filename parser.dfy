/**
 * The recursive-descent parser (compiler/parser.ts): a cursor over the token
 * list and one method per grammar rule,
 *
 *   program        := statement* EOF
 *   statement      := ("let" | "const") IDENT OPERATOR expression ";"?
 *                   | expression ";"?
 *   expression     := additive
 *   additive       := multiplicative (("+" | "-") multiplicative)*
 *   multiplicative := primary (("*" | "/") primary)*
 *   primary        := NUMBER | IDENT | IDENT "(" ")" | IDENT "(" args PUNCT
 *                   | "(" expression PUNCT
 *   args           := expression ("," expression)*
 *
 * The pure functions below say what each rule yields from a position of a
 * token list (the tree and the position after it, or the error); the class
 * `Parser` does the same work by moving `current`, and each of its methods
 * is proved to agree with its rule.
 */
module Parser {
  import opened Types
  import opened Numeric

  /**
   * What the parser needs of its input, and what the lexer provides: the
   * list ends with an EOF token, and every number token is a non-empty run
   * of decimal digits.
   */
  predicate WellFormedTokens(ts: seq<Token>)
  {
    && |ts| > 0
    && ts[|ts| - 1].kind == EOF
    && forall k :: 0 <= k < |ts| && ts[k].kind == Number ==> |ts[k].value| > 0 && AllDigits(ts[k].value)
  }

  /** A parsed phrase and the position of the first token after it. */
  datatype Parsed<T> = Parsed(node: T, next: nat)

  // ------------------------------------------------------ cursor primitives

  predicate AtEnd(ts: seq<Token>, p: nat)
    requires p < |ts|
  {
    ts[p].kind == EOF
  }

  /** Where `advance` leaves the cursor: one step on, except at an EOF token. */
  function Skip(ts: seq<Token>, p: nat): nat
    requires p < |ts|
  {
    if AtEnd(ts, p) then p else p + 1
  }

  /** `match(kind, value)` succeeds; an empty `value` is not compared (it is falsy). */
  predicate Matches(ts: seq<Token>, p: nat, kind: TokenKind, value: string)
    requires p < |ts|
  {
    !AtEnd(ts, p) && ts[p].kind == kind && (value == "" || ts[p].value == value)
  }

  /** `expect(kind, …)`: only the kind of the token is checked. */
  function Expected(ts: seq<Token>, p: nat, kind: TokenKind, what: Expectation): Result<nat, ParseError>
    requires p < |ts|
  {
    if ts[p].kind == kind then Ok(Skip(ts, p)) else Err(ParseError(what, ts[p].value, ts[p].line))
  }

  /** The optional `;` that ends a statement. */
  function Semicolon(ts: seq<Token>, p: nat): (q: nat)
    requires p < |ts|
  {
    if Matches(ts, p, Punctuation, ";") then p + 1 else p
  }

  // ------------------------------------------------------------ the grammar

  function Expression(ts: seq<Token>, p: nat): (r: Result<Parsed<Node>, ParseError>)
    requires WellFormedTokens(ts) && p < |ts|
    ensures r.Ok? ==> p < r.value.next < |ts|
    ensures AtEnd(ts, p) ==> r.Err?
    decreases |ts| - p, 5
  {
    Additive(ts, p)
  }

  function Additive(ts: seq<Token>, p: nat): (r: Result<Parsed<Node>, ParseError>)
    requires WellFormedTokens(ts) && p < |ts|
    ensures r.Ok? ==> p < r.value.next < |ts|
    ensures AtEnd(ts, p) ==> r.Err?
    decreases |ts| - p, 4
  {
    match Multiplicative(ts, p)
    case Err(e) => Err(e)
    case Ok(pm) => AdditiveRest(ts, pm.node, pm.next)
  }

  /** The `while` loop of `parseAdditive`, with `left` the tree built so far. */
  function AdditiveRest(ts: seq<Token>, left: Node, p: nat): (r: Result<Parsed<Node>, ParseError>)
    requires WellFormedTokens(ts) && p < |ts|
    ensures r.Ok? ==> p <= r.value.next < |ts|
    decreases |ts| - p, 4
  {
    if ts[p].value == "+" || ts[p].value == "-" then
      match Multiplicative(ts, Skip(ts, p))
      case Err(e) => Err(e)
      case Ok(pm) => AdditiveRest(ts, BinaryExpr(left, pm.node, ts[p].value), pm.next)
    else
      Ok(Parsed(left, p))
  }

  function Multiplicative(ts: seq<Token>, p: nat): (r: Result<Parsed<Node>, ParseError>)
    requires WellFormedTokens(ts) && p < |ts|
    ensures r.Ok? ==> p < r.value.next < |ts|
    ensures AtEnd(ts, p) ==> r.Err?
    decreases |ts| - p, 3
  {
    match Primary(ts, p)
    case Err(e) => Err(e)
    case Ok(pp) => MultiplicativeRest(ts, pp.node, pp.next)
  }

  /** The `while` loop of `parseMultiplicative`. */
  function MultiplicativeRest(ts: seq<Token>, left: Node, p: nat): (r: Result<Parsed<Node>, ParseError>)
    requires WellFormedTokens(ts) && p < |ts|
    ensures r.Ok? ==> p <= r.value.next < |ts|
    decreases |ts| - p, 3
  {
    if ts[p].value == "*" || ts[p].value == "/" then
      match Primary(ts, Skip(ts, p))
      case Err(e) => Err(e)
      case Ok(pp) => MultiplicativeRest(ts, BinaryExpr(left, pp.node, ts[p].value), pp.next)
    else
      Ok(Parsed(left, p))
  }

  function Primary(ts: seq<Token>, p: nat): (r: Result<Parsed<Node>, ParseError>)
    requires WellFormedTokens(ts) && p < |ts|
    ensures r.Ok? ==> p < r.value.next < |ts|
    ensures AtEnd(ts, p) ==> r.Err?
    decreases |ts| - p, 2
  {
    var t := ts[p];
    if t.kind == Number then
      Ok(Parsed(Literal(ParseDigits(t.value)), p + 1))
    else if t.kind == Ident then
      if Matches(ts, p + 1, Punctuation, "(") then
        if Matches(ts, p + 2, Punctuation, ")") then
          Ok(Parsed(CallExpr(t.value, []), p + 3))
        else
          match Arguments(ts, [], p + 2)
          case Err(e) => Err(e)
          case Ok(pa) =>
            match Expected(ts, pa.next, Punctuation, CloseParenAfterArgs)
            case Err(e) => Err(e)
            case Ok(q) => Ok(Parsed(CallExpr(t.value, pa.node), q))
      else
        Ok(Parsed(Identifier(t.value), p + 1))
    else if Matches(ts, p, Punctuation, "(") then
      match Expression(ts, p + 1)
      case Err(e) => Err(e)
      case Ok(pe) =>
        match Expected(ts, pe.next, Punctuation, CloseParenAfterExpr)
        case Err(e) => Err(e)
        case Ok(q) => Ok(Parsed(pe.node, q))
    else
      Err(ParseError(PrimaryExpression, t.value, t.line))
  }

  /** The `do … while (match(','))` loop of a call, appending to `acc`. */
  function Arguments(ts: seq<Token>, acc: seq<Node>, p: nat): (r: Result<Parsed<seq<Node>>, ParseError>)
    requires WellFormedTokens(ts) && p < |ts|
    ensures r.Ok? ==> p < r.value.next < |ts|
    decreases |ts| - p, 6
  {
    match Expression(ts, p)
    case Err(e) => Err(e)
    case Ok(pe) =>
      if Matches(ts, pe.next, Punctuation, ",") then Arguments(ts, acc + [pe.node], pe.next + 1)
      else Ok(Parsed(acc + [pe.node], pe.next))
  }

  function Statement(ts: seq<Token>, p: nat): (r: Result<Parsed<Node>, ParseError>)
    requires WellFormedTokens(ts) && p < |ts| && !AtEnd(ts, p)
    ensures r.Ok? ==> p < r.value.next < |ts|
  {
    var t := ts[p];
    if t.kind == Keyword && (t.value == "let" || t.value == "const") then
      VarDeclaration(ts, p)
    else
      match Expression(ts, p)
      case Err(e) => Err(e)
      case Ok(pe) => Ok(Parsed(pe.node, Semicolon(ts, pe.next)))
  }

  /** `parseVarDecl`, entered on the `let`/`const` keyword at `p`. */
  function VarDeclaration(ts: seq<Token>, p: nat): (r: Result<Parsed<Node>, ParseError>)
    requires WellFormedTokens(ts) && p < |ts| && !AtEnd(ts, p)
    ensures r.Ok? ==> p < r.value.next < |ts|
  {
    match Expected(ts, p + 1, Ident, VariableName)
    case Err(e) => Err(e)
    case Ok(q) =>
      match Expected(ts, q, Operator, AssignOperator)
      case Err(e) => Err(e)
      case Ok(q') =>
        match Expression(ts, q')
        case Err(e) => Err(e)
        case Ok(pe) => Ok(Parsed(VarDecl(ts[p + 1].value, pe.node), Semicolon(ts, pe.next)))
  }

  /** The `while (!isAtEnd())` loop of `parse`, appending to `acc`. */
  function Statements(ts: seq<Token>, acc: seq<Node>, p: nat): (r: Result<seq<Node>, ParseError>)
    requires WellFormedTokens(ts) && p < |ts|
    decreases |ts| - p
  {
    if AtEnd(ts, p) then Ok(acc)
    else
      match Statement(ts, p)
      case Err(e) => Err(e)
      case Ok(ps) => Statements(ts, acc + [ps.node], ps.next)
  }

  /** What `parse` returns when started at position `p`. */
  function ParseProgram(ts: seq<Token>, p: nat): Result<Node, ParseError>
    requires WellFormedTokens(ts) && p < |ts|
  {
    match Statements(ts, [], p)
    case Err(e) => Err(e)
    case Ok(body) => Ok(Program(body))
  }

  /** A parsing method's result `r` and final cursor `pos` are those of the rule's outcome `o`. */
  predicate Agrees(r: Result<Node, ParseError>, pos: nat, o: Result<Parsed<Node>, ParseError>)
  {
    match o
    case Ok(pn) => r == Ok(pn.node) && pos == pn.next
    case Err(e) => r == Err(e)
  }

  // -------------------------------------------------------------- the class

  class Parser {
    const tokens: seq<Token>
    var current: nat

    ghost predicate Valid()
      reads this
    {
      WellFormedTokens(tokens) && current < |tokens|
    }

    constructor (tokens: seq<Token>)
      requires WellFormedTokens(tokens)
      ensures Valid() && this.tokens == tokens && current == 0
    {
      this.tokens := tokens;
      current := 0;
    }

    function Peek(): Token
      reads this
      requires Valid()
    {
      tokens[current]
    }

    predicate IsAtEnd()
      reads this
      requires Valid()
    {
      AtEnd(tokens, current)
    }

    /** Returns the token just passed; at position 0 on an EOF there is none. */
    method Advance() returns (t: Token)
      requires Valid() && (current > 0 || !IsAtEnd())
      modifies this
      ensures Valid() && current == Skip(tokens, old(current)) && t == tokens[current - 1]
    {
      if !IsAtEnd() {
        current := current + 1;
      }
      t := tokens[current - 1];
    }

    method Match(kind: TokenKind, value: string) returns (b: bool)
      requires Valid()
      modifies this
      ensures Valid() && b == Matches(tokens, old(current), kind, value)
      ensures current == if b then old(current) + 1 else old(current)
    {
      if IsAtEnd() {
        return false;
      }
      var token := Peek();
      if token.kind != kind {
        return false;
      }
      if value != "" && token.value != value {
        return false;
      }
      var _ := Advance();
      return true;
    }

    /** Never asked for an EOF token, so the token returned is the one checked. */
    method Expect(kind: TokenKind, what: Expectation) returns (r: Result<Token, ParseError>)
      requires Valid() && kind != EOF
      modifies this
      ensures Valid()
      ensures match Expected(tokens, old(current), kind, what)
              case Ok(q) => r == Ok(tokens[old(current)]) && current == q
              case Err(e) => r == Err(e)
    {
      if Peek().kind == kind {
        var t := Advance();
        return Ok(t);
      }
      return Err(ParseError(what, Peek().value, Peek().line));
    }

    method Parse() returns (r: Result<Node, ParseError>)
      requires Valid()
      modifies this
      ensures Valid() && r == ParseProgram(tokens, old(current))
    {
      var body: seq<Node> := [];
      while !IsAtEnd()
        invariant Valid()
        invariant Statements(tokens, [], old(current)) == Statements(tokens, body, current)
        decreases |tokens| - current
      {
        var s := ParseStatement();
        if s.Err? {
          return Err(s.error);
        }
        body := body + [s.value];
      }
      return Ok(Program(body));
    }

    method ParseStatement() returns (r: Result<Node, ParseError>)
      requires Valid() && !IsAtEnd()
      modifies this
      ensures Valid() && Agrees(r, current, Statement(tokens, old(current)))
    {
      var token := Peek();
      if token.kind == Keyword && (token.value == "let" || token.value == "const") {
        r := ParseVarDecl();
        return;
      }
      r := ParseExpression();
      if r.Ok? {
        var _ := Match(Punctuation, ";");
      }
    }

    method ParseVarDecl() returns (r: Result<Node, ParseError>)
      requires Valid() && !IsAtEnd()
      modifies this
      ensures Valid() && Agrees(r, current, VarDeclaration(tokens, old(current)))
    {
      var _ := Advance();
      var name := Expect(Ident, VariableName);
      if name.Err? {
        return Err(name.error);
      }
      var assign := Expect(Operator, AssignOperator);
      if assign.Err? {
        return Err(assign.error);
      }
      var value := ParseExpression();
      if value.Err? {
        return value;
      }
      var _ := Match(Punctuation, ";");
      return Ok(VarDecl(name.value.value, value.value));
    }

    method ParseExpression() returns (r: Result<Node, ParseError>)
      requires Valid()
      modifies this
      ensures Valid() && Agrees(r, current, Expression(tokens, old(current)))
      decreases |tokens| - current, 5
    {
      r := ParseAdditive();
    }

    method ParseAdditive() returns (r: Result<Node, ParseError>)
      requires Valid()
      modifies this
      ensures Valid() && Agrees(r, current, Additive(tokens, old(current)))
      decreases |tokens| - current, 4
    {
      var first := ParseMultiplicative();
      if first.Err? {
        return first;
      }
      var left := first.value;
      while Peek().value == "+" || Peek().value == "-"
        invariant Valid() && old(current) < current
        invariant Additive(tokens, old(current)) == AdditiveRest(tokens, left, current)
        decreases |tokens| - current
      {
        var op := Advance();
        var right := ParseMultiplicative();
        if right.Err? {
          return right;
        }
        left := BinaryExpr(left, right.value, op.value);
      }
      return Ok(left);
    }

    method ParseMultiplicative() returns (r: Result<Node, ParseError>)
      requires Valid()
      modifies this
      ensures Valid() && Agrees(r, current, Multiplicative(tokens, old(current)))
      decreases |tokens| - current, 3
    {
      var first := ParsePrimary();
      if first.Err? {
        return first;
      }
      var left := first.value;
      while Peek().value == "*" || Peek().value == "/"
        invariant Valid() && old(current) < current
        invariant Multiplicative(tokens, old(current)) == MultiplicativeRest(tokens, left, current)
        decreases |tokens| - current
      {
        var op := Advance();
        var right := ParsePrimary();
        if right.Err? {
          return right;
        }
        left := BinaryExpr(left, right.value, op.value);
      }
      return Ok(left);
    }

    method ParsePrimary() returns (r: Result<Node, ParseError>)
      requires Valid()
      modifies this
      ensures Valid() && Agrees(r, current, Primary(tokens, old(current)))
      decreases |tokens| - current, 2
    {
      var token := Peek();
      if token.kind == Number {
        var _ := Advance();
        return Ok(Literal(ParseDigits(token.value)));
      }
      if token.kind == Ident {
        var _ := Advance();
        var open := Match(Punctuation, "(");
        if open {
          r := ParseCallArguments(token.value);
          return;
        }
        return Ok(Identifier(token.value));
      }
      var open := Match(Punctuation, "(");
      if open {
        var e := ParseExpression();
        if e.Err? {
          return e;
        }
        var close := Expect(Punctuation, CloseParenAfterExpr);
        if close.Err? {
          return Err(close.error);
        }
        return e;
      }
      return Err(ParseError(PrimaryExpression, token.value, token.line));
    }

    /**
     * The body of the call branch of `parsePrimary`, entered just after
     * `callee (`.
     */
    method ParseCallArguments(callee: string) returns (r: Result<Node, ParseError>)
      requires Valid() && current >= 2
      requires tokens[current - 2].kind == Ident && tokens[current - 2].value == callee
      requires Matches(tokens, current - 1, Punctuation, "(")
      modifies this
      ensures Valid() && Agrees(r, current, Primary(tokens, old(current) - 2))
      decreases |tokens| - current, 6
    {
      ghost var start := current;
      var args: seq<Node> := [];
      var closed := Match(Punctuation, ")");
      if closed {
        return Ok(CallExpr(callee, args));
      }
      var more := true;
      while more
        invariant Valid() && start <= current
        invariant more ==> Arguments(tokens, [], start) == Arguments(tokens, args, current)
        invariant !more ==> Arguments(tokens, [], start) == Ok(Parsed(args, current))
        decreases |tokens| - current, more
      {
        var e := ParseExpression();
        if e.Err? {
          return e;
        }
        args := args + [e.value];
        more := Match(Punctuation, ",");
      }
      var close := Expect(Punctuation, CloseParenAfterArgs);
      if close.Err? {
        return Err(close.error);
      }
      return Ok(CallExpr(callee, args));
    }
  }
}
