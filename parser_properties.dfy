/**
 * What the grammar rules of `Parser` guarantee: every tree they build is a
 * well-formed expression or statement, every error names a token that is
 * really in the input, and printing a tree with the fewest parentheses and
 * parsing it back gives the same tree (so `+ -` and `* /` associate to the
 * left and `* /` bind tighter than `+ -`).
 */
module ParserProperties {
  import opened Types
  import opened Numeric
  import opened Parser
  import opened Syntax

  /** An error reports the lexeme and line of some token at or after `p`. */
  ghost predicate Reports(ts: seq<Token>, p: nat, e: ParseError)
  {
    exists k :: p <= k < |ts| && ts[k].value == e.found && ts[k].line == e.line
  }

  /** The shape and error guarantees of one rule's outcome, from position `p`. */
  ghost predicate Sound(ts: seq<Token>, p: nat, r: Result<Parsed<Node>, ParseError>)
  {
    match r
    case Ok(pn) => IsExpr(pn.node)
    case Err(e) => Reports(ts, p, e)
  }

  lemma {:induction false} ExpressionSound(ts: seq<Token>, p: nat)
    requires WellFormedTokens(ts) && p < |ts|
    ensures Sound(ts, p, Expression(ts, p))
    decreases |ts| - p, 5
  {
    AdditiveSound(ts, p);
  }

  lemma {:induction false} AdditiveSound(ts: seq<Token>, p: nat)
    requires WellFormedTokens(ts) && p < |ts|
    ensures Sound(ts, p, Additive(ts, p))
    decreases |ts| - p, 4
  {
    MultiplicativeSound(ts, p);
    if Multiplicative(ts, p).Ok? {
      var pm := Multiplicative(ts, p).value;
      AdditiveRestSound(ts, pm.node, pm.next);
    }
  }

  lemma {:induction false} AdditiveRestSound(ts: seq<Token>, left: Node, p: nat)
    requires WellFormedTokens(ts) && p < |ts| && IsExpr(left)
    ensures Sound(ts, p, AdditiveRest(ts, left, p))
    decreases |ts| - p, 4
  {
    if ts[p].value == "+" || ts[p].value == "-" {
      MultiplicativeSound(ts, Skip(ts, p));
      if Multiplicative(ts, Skip(ts, p)).Ok? {
        var pm := Multiplicative(ts, Skip(ts, p)).value;
        AdditiveRestSound(ts, BinaryExpr(left, pm.node, ts[p].value), pm.next);
      }
    }
  }

  lemma {:induction false} MultiplicativeSound(ts: seq<Token>, p: nat)
    requires WellFormedTokens(ts) && p < |ts|
    ensures Sound(ts, p, Multiplicative(ts, p))
    decreases |ts| - p, 3
  {
    PrimarySound(ts, p);
    if Primary(ts, p).Ok? {
      var pp := Primary(ts, p).value;
      MultiplicativeRestSound(ts, pp.node, pp.next);
    }
  }

  lemma {:induction false} MultiplicativeRestSound(ts: seq<Token>, left: Node, p: nat)
    requires WellFormedTokens(ts) && p < |ts| && IsExpr(left)
    ensures Sound(ts, p, MultiplicativeRest(ts, left, p))
    decreases |ts| - p, 3
  {
    if ts[p].value == "*" || ts[p].value == "/" {
      PrimarySound(ts, Skip(ts, p));
      if Primary(ts, Skip(ts, p)).Ok? {
        var pp := Primary(ts, Skip(ts, p)).value;
        MultiplicativeRestSound(ts, BinaryExpr(left, pp.node, ts[p].value), pp.next);
      }
    }
  }

  lemma {:induction false} PrimarySound(ts: seq<Token>, p: nat)
    requires WellFormedTokens(ts) && p < |ts|
    ensures Sound(ts, p, Primary(ts, p))
    decreases |ts| - p, 2
  {
    var t := ts[p];
    if t.kind == Number {
    } else if t.kind == Ident {
      if Matches(ts, p + 1, Punctuation, "(") && !Matches(ts, p + 2, Punctuation, ")") {
        ArgumentsSound(ts, [], p + 2);
      }
    } else if Matches(ts, p, Punctuation, "(") {
      ExpressionSound(ts, p + 1);
    } else {
      assert ts[p].value == t.value && ts[p].line == t.line;
    }
  }

  lemma {:induction false} ArgumentsSound(ts: seq<Token>, acc: seq<Node>, p: nat)
    requires WellFormedTokens(ts) && p < |ts| && forall a | a in acc :: IsExpr(a)
    ensures match Arguments(ts, acc, p)
            case Ok(pa) => forall a | a in pa.node :: IsExpr(a)
            case Err(e) => Reports(ts, p, e)
    decreases |ts| - p, 6
  {
    ExpressionSound(ts, p);
    if Expression(ts, p).Ok? {
      var pe := Expression(ts, p).value;
      if Matches(ts, pe.next, Punctuation, ",") {
        ArgumentsSound(ts, acc + [pe.node], pe.next + 1);
      }
    }
  }

  lemma {:induction false} StatementSound(ts: seq<Token>, p: nat)
    requires WellFormedTokens(ts) && p < |ts| && !AtEnd(ts, p)
    ensures match Statement(ts, p)
            case Ok(ps) => IsStatement(ps.node)
            case Err(e) => Reports(ts, p, e)
  {
    ExpressionSound(ts, p);
    if ts[p].kind == Keyword && (ts[p].value == "let" || ts[p].value == "const") {
      ExpressionSoundAfterDeclaration(ts, p);
    }
  }

  lemma ExpressionSoundAfterDeclaration(ts: seq<Token>, p: nat)
    requires WellFormedTokens(ts) && p < |ts| && !AtEnd(ts, p)
    ensures match VarDeclaration(ts, p)
            case Ok(ps) => IsStatement(ps.node)
            case Err(e) => Reports(ts, p, e)
  {
    match Expected(ts, p + 1, Ident, VariableName)
    case Err(e) =>
    case Ok(q) =>
      match Expected(ts, q, Operator, AssignOperator)
      case Err(e) =>
      case Ok(q') => ExpressionSound(ts, q');
  }

  lemma {:induction false} StatementsSound(ts: seq<Token>, acc: seq<Node>, p: nat)
    requires WellFormedTokens(ts) && p < |ts| && forall s | s in acc :: IsStatement(s)
    ensures match Statements(ts, acc, p)
            case Ok(body) => forall s | s in body :: IsStatement(s)
            case Err(e) => Reports(ts, p, e)
    decreases |ts| - p
  {
    if !AtEnd(ts, p) {
      StatementSound(ts, p);
      if Statement(ts, p).Ok? {
        var ps := Statement(ts, p).value;
        StatementsSound(ts, acc + [ps.node], ps.next);
      }
    }
  }

  /**
   * `parse` either yields a program whose statements are well-formed
   * declarations and expressions, or an error that quotes a token of the
   * input together with its line.
   */
  lemma ParseProgramSound(ts: seq<Token>)
    requires WellFormedTokens(ts)
    ensures match ParseProgram(ts, 0)
            case Ok(prog) => prog.Program? && forall s | s in prog.body :: IsStatement(s)
            case Err(e) => Reports(ts, 0, e)
  {
    StatementsSound(ts, [], 0);
  }

  // ------------------------------------------------------ parse errors

  /**
   * A token that starts no primary (EOF, a keyword, an operator, or any
   * punctuation but `(`) is rejected with its own lexeme and line, and so
   * is an expression that starts with it.
   */
  lemma NoPrimary(ts: seq<Token>, p: nat)
    requires WellFormedTokens(ts) && p < |ts|
    requires ts[p].kind != Number && ts[p].kind != Ident && !Matches(ts, p, Punctuation, "(")
    ensures Primary(ts, p) == Err(ParseError(PrimaryExpression, ts[p].value, ts[p].line))
    ensures Expression(ts, p) == Err(ParseError(PrimaryExpression, ts[p].value, ts[p].line))
  {
    assert Multiplicative(ts, p) == Primary(ts, p);
  }

  /**
   * After `(` and an expression, the closing `expect` checks only the kind:
   * any punctuation token ends the group, and any other token is reported
   * with its lexeme and line.
   */
  lemma ParenClose(ts: seq<Token>, p: nat)
    requires WellFormedTokens(ts) && p < |ts| && Matches(ts, p, Punctuation, "(")
    requires Expression(ts, p + 1).Ok?
    ensures var pe := Expression(ts, p + 1).value;
      && (ts[pe.next].kind == Punctuation ==> Primary(ts, p) == Ok(Parsed(pe.node, pe.next + 1)))
      && (ts[pe.next].kind != Punctuation ==>
            Primary(ts, p) == Err(ParseError(CloseParenAfterExpr, ts[pe.next].value, ts[pe.next].line)))
  {
  }

  /**
   * The same for the arguments of a call: any punctuation token closes the
   * list, any other token is reported.
   */
  lemma CallClose(ts: seq<Token>, p: nat)
    requires WellFormedTokens(ts) && p + 2 < |ts| && ts[p].kind == Ident
    requires Matches(ts, p + 1, Punctuation, "(") && !Matches(ts, p + 2, Punctuation, ")")
    requires Arguments(ts, [], p + 2).Ok?
    ensures var pa := Arguments(ts, [], p + 2).value;
      && (ts[pa.next].kind == Punctuation ==> Primary(ts, p) == Ok(Parsed(CallExpr(ts[p].value, pa.node), pa.next + 1)))
      && (ts[pa.next].kind != Punctuation ==>
            Primary(ts, p) == Err(ParseError(CloseParenAfterArgs, ts[pa.next].value, ts[pa.next].line)))
  {
  }

  /** A stray `;` is no statement: it is rejected as a token that starts no primary. */
  lemma StraySemicolon(ts: seq<Token>, q: nat)
    requires WellFormedTokens(ts) && q < |ts| && Matches(ts, q, Punctuation, ";")
    ensures !AtEnd(ts, q) && Statement(ts, q) == Err(ParseError(PrimaryExpression, ";", ts[q].line))
  {
    NoPrimary(ts, q);
  }

  // ------------------------------------------------------ round trips

  /** The token after a printed operand of `* /`: not a `(` that would start a call. */
  predicate EndsPrimary(t: Token)
  {
    !(t.kind == Punctuation && t.value == "(")
  }

  predicate EndsMultiplicative(t: Token)
  {
    EndsPrimary(t) && t.value != "*" && t.value != "/"
  }

  predicate EndsExpression(t: Token)
  {
    EndsMultiplicative(t) && t.value != "+" && t.value != "-"
  }

  // Ranks that order the round-trip lemmas when they call each other on one
  // and the same tree: by its level, a tree goes down the grammar from the
  // rule where it is printed without parentheses.
  function PrimaryRank(e: Node): nat { if Level(e) == 1 then 6 else if Level(e) == 2 then 7 else 1 }
  function ParenRank(e: Node): nat { if Level(e) == 1 then 5 else 6 }
  function ExpressionRank(e: Node): nat { if Level(e) == 1 then 4 else if Level(e) == 2 then 5 else 4 }
  function AdditiveRank(e: Node): nat { if Level(e) == 1 then 3 else if Level(e) == 2 then 4 else 3 }
  function MultiplicativeRank(e: Node): nat { if Level(e) == 1 then 7 else if Level(e) == 2 then 3 else 2 }

  lemma {:induction false} PrimaryRoundTrip(ts: seq<Token>, p: nat, e: Node)
    requires WellFormedTokens(ts) && IsExpr(e) && SpellsAt(ts, p, e, 3)
    requires p + WidthAt(e, 3) < |ts| && EndsPrimary(ts[p + WidthAt(e, 3)])
    ensures Primary(ts, p) == Ok(Parsed(e, p + WidthAt(e, 3)))
    decreases e, PrimaryRank(e)
  {
    if Level(e) < 3 {
      ParenRoundTrip(ts, p, e);
    } else if e.CallExpr? {
      CallRoundTrip(ts, p, e);
    } else if e.Literal? {
      ParseShowNat(e.number);
    }
  }

  /** A parenthesised operator tree. */
  lemma {:induction false} ParenRoundTrip(ts: seq<Token>, p: nat, e: Node)
    requires WellFormedTokens(ts) && IsExpr(e) && Level(e) < 3
    requires p + Width(e) + 2 < |ts| && ts[p] == OpenParen && Spells(ts, p + 1, e)
    requires ts[p + 1 + Width(e)] == CloseParen
    ensures Primary(ts, p) == Ok(Parsed(e, p + Width(e) + 2))
    decreases e, ParenRank(e)
  {
    var q := p + 1 + Width(e);
    ExpressionRoundTrip(ts, p + 1, e);
    assert Expected(ts, q, Punctuation, CloseParenAfterExpr) == Ok(q + 1);
  }

  /** A call `f(…)`, with or without arguments. */
  lemma {:induction false} CallRoundTrip(ts: seq<Token>, p: nat, e: Node)
    requires WellFormedTokens(ts) && IsExpr(e) && e.CallExpr? && Spells(ts, p, e)
    ensures Primary(ts, p) == Ok(Parsed(e, p + Width(e)))
    decreases e, 0
  {
    SpellsCall(ts, p, e);
    var q := p + 2 + ArgsWidth(e.args);
    assert Matches(ts, p + 1, Punctuation, "(");
    if e.args == [] {
      assert Matches(ts, p + 2, Punctuation, ")");
    } else {
      assert e.args[0] in e.args;
      SpellsStart(ts, p + 2, e.args[0]);
      ArgumentsRoundTrip(ts, p + 2, [], e.args);
      assert [] + e.args == e.args;
      CallStep(ts, p, e.args, q);
    }
  }

  /** A call whose argument list parses up to a closing `)`. */
  lemma CallStep(ts: seq<Token>, p: nat, args: seq<Node>, q: nat)
    requires WellFormedTokens(ts) && q + 1 < |ts| && p + 2 < |ts|
    requires ts[p].kind == Ident && Matches(ts, p + 1, Punctuation, "(") && !Matches(ts, p + 2, Punctuation, ")")
    requires Arguments(ts, [], p + 2) == Ok(Parsed(args, q)) && ts[q] == CloseParen
    ensures Primary(ts, p) == Ok(Parsed(CallExpr(ts[p].value, args), q + 1))
  {
    assert Expected(ts, q, Punctuation, CloseParenAfterArgs) == Ok(q + 1);
  }

  lemma {:induction false} ArgumentsRoundTrip(ts: seq<Token>, p: nat, acc: seq<Node>, args: seq<Node>)
    requires WellFormedTokens(ts) && args != [] && forall a | a in args :: IsExpr(a)
    requires SpellsArgs(ts, p, args) && p + ArgsWidth(args) < |ts| && ts[p + ArgsWidth(args)] == CloseParen
    ensures Arguments(ts, acc, p) == Ok(Parsed(acc + args, p + ArgsWidth(args)))
    decreases args, 1
  {
    if |args| == 1 {
      var first := args[0];
      assert first in args;
      ExpressionRoundTrip(ts, p, first);
      ArgumentsStep(ts, acc, p, first, p + Width(first));
      assert acc + [first] == acc + args;
    } else {
      ArgumentsConsRoundTrip(ts, p, acc, args);
    }
  }

  /** An argument followed by `,` and at least one more. */
  lemma {:induction false} ArgumentsConsRoundTrip(ts: seq<Token>, p: nat, acc: seq<Node>, args: seq<Node>)
    requires WellFormedTokens(ts) && |args| > 1 && forall a | a in args :: IsExpr(a)
    requires SpellsArgs(ts, p, args) && p + ArgsWidth(args) < |ts| && ts[p + ArgsWidth(args)] == CloseParen
    ensures Arguments(ts, acc, p) == Ok(Parsed(acc + args, p + ArgsWidth(args)))
    decreases args, 0
  {
    var first := args[0];
    assert first in args;
    var q := p + Width(first);
    ExpressionRoundTrip(ts, p, first);
    ArgumentsStep(ts, acc, p, first, q);
    ArgumentsRoundTrip(ts, q + 1, acc + [first], args[1..]);
    assert acc + [first] + args[1..] == acc + args;
  }

  /** One turn of the argument loop, once the argument is known to parse. */
  lemma ArgumentsStep(ts: seq<Token>, acc: seq<Node>, p: nat, a: Node, q: nat)
    requires WellFormedTokens(ts) && p < |ts| && q + 1 < |ts|
    requires Expression(ts, p) == Ok(Parsed(a, q))
    requires ts[q] == Comma || ts[q] == CloseParen
    ensures ts[q] == Comma ==> Arguments(ts, acc, p) == Arguments(ts, acc + [a], q + 1)
    ensures ts[q] == CloseParen ==> Arguments(ts, acc, p) == Ok(Parsed(acc + [a], q))
  {
  }

  /** One turn of the `* /` loop, over an operand already parsed. */
  lemma MultiplicativeStep(ts: seq<Token>, left: Node, q: nat, op: string, right: Node, end: nat)
    requires WellFormedTokens(ts) && q + 1 < |ts| && ts[q] == Token(Operator, op, 1)
    requires op == "*" || op == "/"
    requires Primary(ts, q + 1) == Ok(Parsed(right, end))
    ensures MultiplicativeRest(ts, left, q) == MultiplicativeRest(ts, BinaryExpr(left, right, op), end)
  {
    assert Skip(ts, q) == q + 1;
  }

  /** One turn of the `+ -` loop, over an operand already parsed. */
  lemma AdditiveStep(ts: seq<Token>, left: Node, q: nat, op: string, right: Node, end: nat)
    requires WellFormedTokens(ts) && q + 1 < |ts| && ts[q] == Token(Operator, op, 1)
    requires op == "+" || op == "-"
    requires end < |ts| && EndsMultiplicative(ts[end])
    requires Multiplicative(ts, q + 1) == MultiplicativeRest(ts, right, end)
    ensures AdditiveRest(ts, left, q) == AdditiveRest(ts, BinaryExpr(left, right, op), end)
  {
    assert Skip(ts, q) == q + 1;
    assert MultiplicativeRest(ts, right, end) == Ok(Parsed(right, end));
  }

  lemma {:induction false} MultiplicativeRoundTrip(ts: seq<Token>, p: nat, e: Node)
    requires WellFormedTokens(ts) && IsExpr(e) && SpellsAt(ts, p, e, 2)
    requires p + WidthAt(e, 2) < |ts| && EndsPrimary(ts[p + WidthAt(e, 2)])
    ensures Multiplicative(ts, p) == MultiplicativeRest(ts, e, p + WidthAt(e, 2))
    decreases e, MultiplicativeRank(e)
  {
    if Level(e) == 2 {
      ProductRoundTrip(ts, p, e);
    } else {
      assert WidthAt(e, 3) == WidthAt(e, 2) && SpellsAt(ts, p, e, 3);
      PrimaryRoundTrip(ts, p, e);
    }
  }

  /** A `*` or `/` tree: its left operand, the operator, its right operand. */
  lemma {:induction false} ProductRoundTrip(ts: seq<Token>, p: nat, e: Node)
    requires WellFormedTokens(ts) && IsExpr(e) && Level(e) == 2 && Spells(ts, p, e)
    requires EndsPrimary(ts[p + Width(e)])
    ensures Multiplicative(ts, p) == MultiplicativeRest(ts, e, p + Width(e))
    decreases e, 2
  {
    var q := ProductTail(ts, p, e);
    MultiplicativeRoundTrip(ts, p, e.left);
  }

  /** The operator and right operand of a `*` or `/` tree, after its left operand at `q`. */
  lemma {:induction false} ProductTail(ts: seq<Token>, p: nat, e: Node) returns (q: nat)
    requires WellFormedTokens(ts) && IsExpr(e) && Level(e) == 2 && Spells(ts, p, e)
    requires EndsPrimary(ts[p + Width(e)])
    ensures q == p + WidthAt(e.left, 2) && q < |ts| && EndsPrimary(ts[q]) && SpellsAt(ts, p, e.left, 2)
    ensures MultiplicativeRest(ts, e.left, q) == MultiplicativeRest(ts, e, p + Width(e))
    decreases e, 1
  {
    SpellsBinary(ts, p, e);
    assert Level(e) + 1 == 3;
    q := p + WidthAt(e.left, 2);
    PrimaryRoundTrip(ts, q + 1, e.right);
    MultiplicativeStep(ts, e.left, q, e.operator, e.right, p + Width(e));
  }

  lemma {:induction false} AdditiveRoundTrip(ts: seq<Token>, p: nat, e: Node)
    requires WellFormedTokens(ts) && IsExpr(e) && Spells(ts, p, e)
    requires EndsMultiplicative(ts[p + Width(e)])
    ensures Additive(ts, p) == AdditiveRest(ts, e, p + Width(e))
    decreases e, AdditiveRank(e)
  {
    if Level(e) != 1 {
      MultiplicativeRoundTrip(ts, p, e);
    } else {
      SumRoundTrip(ts, p, e);
    }
  }

  /** A `+` or `-` tree: its left operand, the operator, its right operand. */
  lemma {:induction false} SumRoundTrip(ts: seq<Token>, p: nat, e: Node)
    requires WellFormedTokens(ts) && IsExpr(e) && Level(e) == 1 && Spells(ts, p, e)
    requires EndsMultiplicative(ts[p + Width(e)])
    ensures Additive(ts, p) == AdditiveRest(ts, e, p + Width(e))
    decreases e, 2
  {
    var q := SumTail(ts, p, e);
    AdditiveRoundTrip(ts, p, e.left);
  }

  /** The operator and right operand of a `+` or `-` tree, after its left operand at `q`. */
  lemma {:induction false} SumTail(ts: seq<Token>, p: nat, e: Node) returns (q: nat)
    requires WellFormedTokens(ts) && IsExpr(e) && Level(e) == 1 && Spells(ts, p, e)
    requires EndsMultiplicative(ts[p + Width(e)])
    ensures q == p + Width(e.left) && q < |ts| && EndsMultiplicative(ts[q]) && Spells(ts, p, e.left)
    ensures AdditiveRest(ts, e.left, q) == AdditiveRest(ts, e, p + Width(e))
    decreases e, 1
  {
    SpellsBinary(ts, p, e);
    assert Level(e) + 1 == 2;
    SpellsAtSame(ts, p, e.left, 1);
    q := p + Width(e.left);
    assert e.operator == "+" || e.operator == "-";
    MultiplicativeRoundTrip(ts, q + 1, e.right);
    AdditiveStep(ts, e.left, q, e.operator, e.right, p + Width(e));
  }

  /** Parsing the printed form of a tree gives the tree back. */
  lemma {:induction false} ExpressionRoundTrip(ts: seq<Token>, p: nat, e: Node)
    requires WellFormedTokens(ts) && IsExpr(e) && Spells(ts, p, e)
    requires EndsExpression(ts[p + Width(e)])
    ensures Expression(ts, p) == Ok(Parsed(e, p + Width(e)))
    decreases e, ExpressionRank(e)
  {
    AdditiveRoundTrip(ts, p, e);
  }

  lemma StatementRoundTrip(ts: seq<Token>, p: nat, s: Node)
    requires WellFormedTokens(ts) && IsStatement(s) && SpellsStatement(ts, p, s)
    ensures !AtEnd(ts, p) && Statement(ts, p) == Ok(Parsed(s, p + StatementWidth(s)))
  {
    if s.VarDecl? {
      DeclarationRoundTrip(ts, p, s);
    } else {
      var q := p + Width(s);
      SpellsStart(ts, p, s);
      ExpressionRoundTrip(ts, p, s);
      assert Semicolon(ts, q) == q + 1;
    }
  }

  /**
   * The `;` after an expression statement is optional and at most one is
   * taken: a printed expression parses back as a statement that ends one
   * token after it when a `;` follows, and right after it otherwise.
   */
  lemma ExpressionStatementEnd(ts: seq<Token>, p: nat, e: Node)
    requires WellFormedTokens(ts) && IsExpr(e) && Spells(ts, p, e) && EndsExpression(ts[p + Width(e)])
    ensures !AtEnd(ts, p) && Statement(ts, p).Ok? && Statement(ts, p).value.node == e
    ensures Matches(ts, p + Width(e), Punctuation, ";") ==> Statement(ts, p).value.next == p + Width(e) + 1
    ensures !Matches(ts, p + Width(e), Punctuation, ";") ==> Statement(ts, p).value.next == p + Width(e)
  {
    SpellsStart(ts, p, e);
    ExpressionRoundTrip(ts, p, e);
  }

  lemma DeclarationRoundTrip(ts: seq<Token>, p: nat, s: Node)
    requires WellFormedTokens(ts) && IsStatement(s) && s.VarDecl? && SpellsStatement(ts, p, s)
    ensures !AtEnd(ts, p) && Statement(ts, p) == Ok(Parsed(s, p + StatementWidth(s)))
  {
    var q := p + 3 + Width(s.init);
    ExpressionRoundTrip(ts, p + 3, s.init);
    DeclarationStep(ts, p, s.name, s.init, q);
  }

  /** `let name = init;` once `init` is known to parse. */
  lemma DeclarationStep(ts: seq<Token>, p: nat, name: string, init: Node, q: nat)
    requires WellFormedTokens(ts) && p + 3 < |ts| && q < |ts|
    requires ts[p] == Token(Keyword, "let", 1) && ts[p + 1] == Token(Ident, name, 1) && ts[p + 2] == Token(Operator, "=", 1)
    requires Expression(ts, p + 3) == Ok(Parsed(init, q)) && ts[q] == SemicolonToken
    ensures !AtEnd(ts, p) && Statement(ts, p) == Ok(Parsed(VarDecl(name, init), q + 1))
  {
    assert Expected(ts, p + 1, Ident, VariableName) == Ok(p + 2);
    assert Expected(ts, p + 2, Operator, AssignOperator) == Ok(p + 3);
    assert Semicolon(ts, q) == q + 1;
  }

  /** One turn of the statement loop of `parse`. */
  lemma StatementsStep(ts: seq<Token>, acc: seq<Node>, p: nat, s: Node, q: nat)
    requires WellFormedTokens(ts) && p < |ts| && !AtEnd(ts, p)
    requires Statement(ts, p) == Ok(Parsed(s, q))
    ensures Statements(ts, acc, p) == Statements(ts, acc + [s], q)
  {
  }

  /**
   * The statement loop rebuilds printed statements in order. (The spelling
   * requirement is written as an equality so that it is not unfolded, case
   * by case, at the recursive call.)
   */
  lemma {:induction false} StatementsRoundTrip(ts: seq<Token>, p: nat, acc: seq<Node>, ss: seq<Node>, end: nat)
    requires WellFormedTokens(ts) && AllStatements(ss) && SpellsStatements(ts, p, ss, end) == true && end < |ts| && AtEnd(ts, end)
    ensures Statements(ts, acc, p) == Ok(acc + ss)
    decreases ss
  {
    if ss == [] {
      assert acc + ss == acc;
    } else {
      var s, tail := ss[0], ss[1..];
      var q := p + StatementWidth(s);
      SpellsStatementsCons(ts, p, ss, end);
      StatementsRoundTrip(ts, q, acc + [s], tail, end);
      FirstStatement(ts, acc, p, s);
      assert acc + [s] + tail == acc + ss;
    }
  }

  /** The statement loop takes a printed statement in one turn. */
  lemma FirstStatement(ts: seq<Token>, acc: seq<Node>, p: nat, s: Node)
    requires WellFormedTokens(ts) && IsStatement(s) && SpellsStatement(ts, p, s)
    ensures p < |ts| && Statements(ts, acc, p) == Statements(ts, acc + [s], p + StatementWidth(s))
  {
    StatementRoundTrip(ts, p, s);
    StatementsStep(ts, acc, p, s, p + StatementWidth(s));
  }

  /** A program printed statement by statement and ended by EOF parses back to itself. */
  lemma ProgramRoundTrip(ss: seq<Node>)
    requires AllStatements(ss)
    ensures WellFormedTokens(RenderStatements(ss) + [EndToken])
    ensures ParseProgram(RenderStatements(ss) + [EndToken], 0) == Ok(Program(ss))
  {
    var body := RenderStatements(ss);
    var ts := body + [EndToken];
    PrintedTokens(ss);
    ProgramSpells(ss, EndToken);
    StatementsRoundTrip(ts, 0, [], ss, |body|);
    assert [] + ss == ss;
  }

  /** The printed program, ended by EOF, is a well-formed token list. */
  lemma PrintedTokens(ss: seq<Node>)
    requires AllStatements(ss)
    ensures WellFormedTokens(RenderStatements(ss) + [EndToken])
    ensures AtEnd(RenderStatements(ss) + [EndToken], |RenderStatements(ss)|)
  {
    var body := RenderStatements(ss);
    var ts := body + [EndToken];
    RenderStatementsPrintable(ss);
    forall k | 0 <= k < |ts| && ts[k].kind == Number
      ensures |ts[k].value| > 0 && AllDigits(ts[k].value)
    {
      assert ts[k] in body;
    }
  }

  // ------------------------------------------------------ concrete phrases

  /** A name that is neither called nor multiplied is a whole operand of `+ -`. */
  lemma NameOperand(ts: seq<Token>, k: nat)
    requires WellFormedTokens(ts) && k + 1 < |ts| && ts[k].kind == Ident
    requires ts[k + 1].kind != Punctuation && ts[k + 1].value != "*" && ts[k + 1].value != "/"
    ensures Multiplicative(ts, k) == Ok(Parsed(Identifier(ts[k].value), k + 1))
  {
    assert Primary(ts, k) == Ok(Parsed(Identifier(ts[k].value), k + 1));
  }

  /** `a - b - c` groups to the left: `(a - b) - c`. */
  lemma LeftAssociative()
    ensures var ts := [Token(Ident, "a", 1), Token(Operator, "-", 1), Token(Ident, "b", 1),
                       Token(Operator, "-", 1), Token(Ident, "c", 1), Token(EOF, "EOF", 1)];
      && WellFormedTokens(ts)
      && Expression(ts, 0) == Ok(Parsed(BinaryExpr(BinaryExpr(Identifier("a"), Identifier("b"), "-"), Identifier("c"), "-"), 5))
  {
    var ts := [Token(Ident, "a", 1), Token(Operator, "-", 1), Token(Ident, "b", 1),
               Token(Operator, "-", 1), Token(Ident, "c", 1), Token(EOF, "EOF", 1)];
    var ab := BinaryExpr(Identifier("a"), Identifier("b"), "-");
    NameOperand(ts, 0);
    NameOperand(ts, 2);
    NameOperand(ts, 4);
    assert AdditiveRest(ts, BinaryExpr(ab, Identifier("c"), "-"), 5) == Ok(Parsed(BinaryExpr(ab, Identifier("c"), "-"), 5));
    assert AdditiveRest(ts, ab, 3) == AdditiveRest(ts, BinaryExpr(ab, Identifier("c"), "-"), 5);
    assert AdditiveRest(ts, Identifier("a"), 1) == AdditiveRest(ts, ab, 3);
  }

  /** `a + b * c` multiplies first: `a + (b * c)`. */
  lemma ProductBindsTighter()
    ensures var ts := [Token(Ident, "a", 1), Token(Operator, "+", 1), Token(Ident, "b", 1),
                       Token(Operator, "*", 1), Token(Ident, "c", 1), Token(EOF, "EOF", 1)];
      && WellFormedTokens(ts)
      && Expression(ts, 0) == Ok(Parsed(BinaryExpr(Identifier("a"), BinaryExpr(Identifier("b"), Identifier("c"), "*"), "+"), 5))
  {
    var ts := [Token(Ident, "a", 1), Token(Operator, "+", 1), Token(Ident, "b", 1),
               Token(Operator, "*", 1), Token(Ident, "c", 1), Token(EOF, "EOF", 1)];
    var bc := BinaryExpr(Identifier("b"), Identifier("c"), "*");
    NameOperand(ts, 0);
    assert Primary(ts, 2) == Ok(Parsed(Identifier("b"), 3));
    assert Primary(ts, 4) == Ok(Parsed(Identifier("c"), 5));
    assert MultiplicativeRest(ts, bc, 5) == Ok(Parsed(bc, 5));
    assert Multiplicative(ts, 2) == Ok(Parsed(bc, 5));
    assert AdditiveRest(ts, BinaryExpr(Identifier("a"), bc, "+"), 5) == Ok(Parsed(BinaryExpr(Identifier("a"), bc, "+"), 5));
  }

  /** Statements need no `;` between them: `x y` is two expression statements. */
  lemma NoSemicolonNeeded()
    ensures var ts := [Token(Ident, "x", 1), Token(Ident, "y", 1), Token(EOF, "EOF", 1)];
      && WellFormedTokens(ts)
      && ParseProgram(ts, 0) == Ok(Program([Identifier("x"), Identifier("y")]))
  {
    var ts := [Token(Ident, "x", 1), Token(Ident, "y", 1), Token(EOF, "EOF", 1)];
    NameOperand(ts, 0);
    assert Statement(ts, 0) == Ok(Parsed(Identifier("x"), 1));
    assert Primary(ts, 1) == Ok(Parsed(Identifier("y"), 2));
    assert Statement(ts, 1) == Ok(Parsed(Identifier("y"), 2));
    assert [] + [Identifier("x")] == [Identifier("x")];
    assert [Identifier("x")] + [Identifier("y")] == [Identifier("x"), Identifier("y")];
    assert Statements(ts, [Identifier("x"), Identifier("y")], 2) == Ok([Identifier("x"), Identifier("y")]);
    assert Statements(ts, [Identifier("x")], 1) == Statements(ts, [Identifier("x")] + [Identifier("y")], 2);
    assert Statements(ts, [], 0) == Statements(ts, [] + [Identifier("x")], 1);
  }

  /** Only one `;` ends a statement: in `x;;` the second is rejected as starting no primary. */
  lemma DoubleSemicolon()
    ensures var ts := [Token(Ident, "x", 1), Token(Punctuation, ";", 1), Token(Punctuation, ";", 1), Token(EOF, "EOF", 1)];
      && WellFormedTokens(ts)
      && ParseProgram(ts, 0) == Err(ParseError(PrimaryExpression, ";", 1))
  {
    var ts := [Token(Ident, "x", 1), Token(Punctuation, ";", 1), Token(Punctuation, ";", 1), Token(EOF, "EOF", 1)];
    assert Primary(ts, 0) == Ok(Parsed(Identifier("x"), 1));
    assert Expression(ts, 0) == Ok(Parsed(Identifier("x"), 1));
    assert Statement(ts, 0) == Ok(Parsed(Identifier("x"), 2));
    StraySemicolon(ts, 2);
    assert Statements(ts, [Identifier("x")], 2) == Err(ParseError(PrimaryExpression, ";", 1));
    assert Statements(ts, [], 0) == Statements(ts, [] + [Identifier("x")], 2);
  }

  /** The closing `expect` checks only the kind: `(1;` parses, the `;` standing for `)`. */
  lemma SemicolonClosesParen()
    ensures var ts := [Token(Punctuation, "(", 1), Token(Number, "1", 1), Token(Punctuation, ";", 1), Token(EOF, "EOF", 1)];
      && WellFormedTokens(ts)
      && ParseProgram(ts, 0) == Ok(Program([Literal(1)]))
  {
    var ts := [Token(Punctuation, "(", 1), Token(Number, "1", 1), Token(Punctuation, ";", 1), Token(EOF, "EOF", 1)];
    ParseShowNat(1);
    assert ShowNat(1) == "1";
    assert Primary(ts, 1) == Ok(Parsed(Literal(1), 2));
    assert Expression(ts, 1) == Ok(Parsed(Literal(1), 2));
    ParenClose(ts, 0);
    assert Primary(ts, 0) == Ok(Parsed(Literal(1), 3));
    assert Statement(ts, 0) == Ok(Parsed(Literal(1), 3));
    assert [] + [Literal(1)] == [Literal(1)];
    assert Statements(ts, [], 0) == Statements(ts, [] + [Literal(1)], 3);
  }

  /** Any operator may follow the declared name: `let x + 5` declares `x` as 5. */
  lemma AnyOperatorAssigns()
    ensures var ts := [Token(Keyword, "let", 1), Token(Ident, "x", 1), Token(Operator, "+", 1),
                       Token(Number, "5", 1), Token(EOF, "EOF", 1)];
      && WellFormedTokens(ts)
      && ParseProgram(ts, 0) == Ok(Program([VarDecl("x", Literal(5))]))
  {
    var ts := [Token(Keyword, "let", 1), Token(Ident, "x", 1), Token(Operator, "+", 1),
               Token(Number, "5", 1), Token(EOF, "EOF", 1)];
    ParseShowNat(5);
    assert ShowNat(5) == "5";
    assert Primary(ts, 3) == Ok(Parsed(Literal(5), 4));
    assert Expression(ts, 3) == Ok(Parsed(Literal(5), 4));
    assert Statement(ts, 0) == Ok(Parsed(VarDecl("x", Literal(5)), 4));
    assert Statements(ts, [VarDecl("x", Literal(5))], 4) == Ok([VarDecl("x", Literal(5))]);
    assert [] + [VarDecl("x", Literal(5))] == [VarDecl("x", Literal(5))];
    assert Statements(ts, [], 0) == Statements(ts, [] + [VarDecl("x", Literal(5))], 4);
  }
}
