/**
 * The trees the parser builds, and how to print them back as tokens.
 *
 * `Render` prints an expression with only the parentheses its operators
 * need. `Spells` says the same thing about a token list position by
 * position, without building the printed list: the round-trip proofs
 * about the grammar rules work with `Spells` and `Width`, and the lemmas
 * at the end of this module connect them with `Render`.
 */
module Syntax {
  import opened Types
  import opened Numeric

  // ------------------------------------------------------- tree shapes

  predicate IsOperator(op: string)
  {
    op == "+" || op == "-" || op == "*" || op == "/"
  }

  /** The expression trees the parser can build. */
  predicate IsExpr(e: Node)
  {
    match e
    case Literal(n) => n >= 0
    case Identifier(_) => true
    case BinaryExpr(l, r, op) => IsOperator(op) && IsExpr(l) && IsExpr(r)
    case CallExpr(_, args) => forall a | a in args :: IsExpr(a)
    case _ => false
  }

  /** A statement: a declaration or an expression. */
  predicate IsStatement(s: Node)
  {
    match s
    case VarDecl(_, init) => IsExpr(init)
    case _ => IsExpr(s)
  }

  /** Every element of `ss` is a statement. */
  predicate AllStatements(ss: seq<Node>)
  {
    ss == [] || (IsStatement(ss[0]) && AllStatements(ss[1..]))
  }

  lemma {:induction false} AllStatementsIn(ss: seq<Node>)
    requires forall s | s in ss :: IsStatement(s)
    ensures AllStatements(ss)
  {
    if ss != [] {
      assert ss[0] in ss;
      assert forall s | s in ss[1..] :: s in ss;
      AllStatementsIn(ss[1..]);
    }
  }

  /** 1 for `+ -`, 2 for `* /`, 3 for everything that needs no parentheses. */
  function Level(e: Node): nat
  {
    if e.BinaryExpr? then (if e.operator == "+" || e.operator == "-" then 1 else 2) else 3
  }

  const OpenParen := Token(Punctuation, "(", 1)
  const CloseParen := Token(Punctuation, ")", 1)
  const Comma := Token(Punctuation, ",", 1)
  const SemicolonToken := Token(Punctuation, ";", 1)
  const EndToken := Token(EOF, "EOF", 1)

  // ---------------------------------------------------------- printing

  /** The tokens of `e` with only the parentheses the grammar needs. */
  function Render(e: Node): seq<Token>
    requires IsExpr(e)
    decreases e, 1
  {
    match e
    case Literal(n) => [Token(Number, ShowNat(n), 1)]
    case Identifier(x) => [Token(Ident, x, 1)]
    case CallExpr(f, args) => [Token(Ident, f, 1), OpenParen] + RenderArgs(args) + [CloseParen]
    case BinaryExpr(l, r, op) => RenderAt(l, Level(e)) + [Token(Operator, op, 1)] + RenderAt(r, Level(e) + 1)
  }

  /** `e` as an operand that must bind at least as tightly as `level`. */
  function RenderAt(e: Node, level: nat): seq<Token>
    requires IsExpr(e)
    decreases e, 2
  {
    if Level(e) < level then [OpenParen] + Render(e) + [CloseParen] else Render(e)
  }

  /** Arguments separated by commas. */
  function RenderArgs(args: seq<Node>): seq<Token>
    requires forall a | a in args :: IsExpr(a)
    decreases args
  {
    if |args| == 0 then []
    else if |args| == 1 then Render(args[0])
    else Render(args[0]) + [Comma] + RenderArgs(args[1..])
  }

  /** `let x = e;` for a declaration, `e;` for an expression statement. */
  function RenderStatement(s: Node): seq<Token>
    requires IsStatement(s)
  {
    if s.VarDecl? then
      [Token(Keyword, "let", 1), Token(Ident, s.name, 1), Token(Operator, "=", 1)] + Render(s.init) + [SemicolonToken]
    else
      Render(s) + [SemicolonToken]
  }

  function RenderStatements(ss: seq<Node>): seq<Token>
    requires AllStatements(ss)
  {
    if ss == [] then [] else RenderStatement(ss[0]) + RenderStatements(ss[1..])
  }

  // ----------------------------------------------- widths of printed forms

  function Width(e: Node): nat
    requires IsExpr(e)
    decreases e, 1
  {
    match e
    case Literal(_) => 1
    case Identifier(_) => 1
    case CallExpr(_, args) => 3 + ArgsWidth(args)
    case BinaryExpr(l, r, _) => WidthAt(l, Level(e)) + 1 + WidthAt(r, Level(e) + 1)
  }

  function WidthAt(e: Node, level: nat): nat
    requires IsExpr(e)
    decreases e, 2
  {
    if Level(e) < level then Width(e) + 2 else Width(e)
  }

  function ArgsWidth(args: seq<Node>): nat
    requires forall a | a in args :: IsExpr(a)
    decreases args
  {
    if |args| == 0 then 0
    else if |args| == 1 then Width(args[0])
    else Width(args[0]) + 1 + ArgsWidth(args[1..])
  }

  function StatementWidth(s: Node): nat
    requires IsStatement(s)
  {
    if s.VarDecl? then Width(s.init) + 4 else Width(s) + 1
  }

  // ------------------------------------------- printed forms, position-wise

  /** From `p` on, `ts` holds the tokens of `Render(e)`, and at least one more. */
  predicate Spells(ts: seq<Token>, p: nat, e: Node)
    requires IsExpr(e)
    decreases e, 1
  {
    p + Width(e) < |ts| &&
    match e
    case Literal(n) => ts[p] == Token(Number, ShowNat(n), 1)
    case Identifier(x) => ts[p] == Token(Ident, x, 1)
    case CallExpr(f, args) =>
      && ts[p] == Token(Ident, f, 1)
      && ts[p + 1] == OpenParen
      && SpellsArgs(ts, p + 2, args)
      && ts[p + 2 + ArgsWidth(args)] == CloseParen
    case BinaryExpr(l, r, op) =>
      && SpellsAt(ts, p, l, Level(e))
      && ts[p + WidthAt(l, Level(e))] == Token(Operator, op, 1)
      && SpellsAt(ts, p + WidthAt(l, Level(e)) + 1, r, Level(e) + 1)
  }

  /** From `p` on, `ts` holds the tokens of `RenderAt(e, level)`, and at least one more. */
  predicate SpellsAt(ts: seq<Token>, p: nat, e: Node, level: nat)
    requires IsExpr(e)
    decreases e, 2
  {
    if Level(e) < level then
      p + Width(e) + 2 < |ts| && ts[p] == OpenParen && Spells(ts, p + 1, e) && ts[p + 1 + Width(e)] == CloseParen
    else
      Spells(ts, p, e)
  }

  /** From `p` on, `ts` holds the tokens of `RenderArgs(args)`, and at least one more. */
  predicate SpellsArgs(ts: seq<Token>, p: nat, args: seq<Node>)
    requires forall a | a in args :: IsExpr(a)
    decreases args
  {
    if |args| == 0 then p < |ts|
    else if |args| == 1 then Spells(ts, p, args[0])
    else Spells(ts, p, args[0]) && ts[p + Width(args[0])] == Comma && SpellsArgs(ts, p + Width(args[0]) + 1, args[1..])
  }

  /** From `p` on, `ts` holds the tokens of `RenderStatement(s)`, and at least one more. */
  predicate SpellsStatement(ts: seq<Token>, p: nat, s: Node)
    requires IsStatement(s)
  {
    if s.VarDecl? then
      && p + 3 + Width(s.init) < |ts|
      && ts[p] == Token(Keyword, "let", 1)
      && ts[p + 1] == Token(Ident, s.name, 1)
      && ts[p + 2] == Token(Operator, "=", 1)
      && Spells(ts, p + 3, s.init)
      && ts[p + 3 + Width(s.init)] == SemicolonToken
    else
      Spells(ts, p, s) && ts[p + Width(s)] == SemicolonToken
  }

  /**
   * From `p` on, `ts` holds the tokens of the statements `ss` one after
   * another, ending at `end`, and at least one more token.
   */
  predicate SpellsStatements(ts: seq<Token>, p: nat, ss: seq<Node>, end: nat)
    requires AllStatements(ss)
    decreases ss
  {
    if ss == [] then p == end && p < |ts|
    else SpellsStatement(ts, p, ss[0]) && SpellsStatements(ts, p + StatementWidth(ss[0]), ss[1..], end)
  }

  /** A spelled statement in front of the spelled rest. */
  lemma SpellsStatementsIntro(ts: seq<Token>, p: nat, ss: seq<Node>, q: nat, end: nat)
    requires ss != [] && AllStatements(ss) && SpellsStatement(ts, p, ss[0])
    requires q == p + StatementWidth(ss[0]) && SpellsStatements(ts, q, ss[1..], end)
    ensures SpellsStatements(ts, p, ss, end)
  {
  }

  /** The first printed statement, and the rest. */
  lemma SpellsStatementsCons(ts: seq<Token>, p: nat, ss: seq<Node>, end: nat)
    requires ss != [] && AllStatements(ss) && SpellsStatements(ts, p, ss, end)
    ensures IsStatement(ss[0]) && AllStatements(ss[1..])
    ensures SpellsStatement(ts, p, ss[0]) && SpellsStatements(ts, p + StatementWidth(ss[0]), ss[1..], end)
  {
  }

  /** The three parts of a printed operator tree. */
  lemma SpellsBinary(ts: seq<Token>, p: nat, e: Node)
    requires IsExpr(e) && e.BinaryExpr? && Spells(ts, p, e)
    ensures Width(e) == WidthAt(e.left, Level(e)) + 1 + WidthAt(e.right, Level(e) + 1)
    ensures SpellsAt(ts, p, e.left, Level(e))
    ensures ts[p + WidthAt(e.left, Level(e))] == Token(Operator, e.operator, 1)
    ensures SpellsAt(ts, p + WidthAt(e.left, Level(e)) + 1, e.right, Level(e) + 1)
  {
  }

  /** The parts of a printed call. */
  lemma SpellsCall(ts: seq<Token>, p: nat, e: Node)
    requires IsExpr(e) && e.CallExpr? && Spells(ts, p, e)
    ensures Width(e) == 3 + ArgsWidth(e.args) && p + Width(e) < |ts|
    ensures ts[p] == Token(Ident, e.callee, 1) && ts[p + 1] == OpenParen
    ensures SpellsArgs(ts, p + 2, e.args) && ts[p + 2 + ArgsWidth(e.args)] == CloseParen
  {
  }

  /** An operand printed without parentheses. */
  lemma SpellsAtSame(ts: seq<Token>, p: nat, e: Node, level: nat)
    requires IsExpr(e) && level <= Level(e)
    ensures WidthAt(e, level) == Width(e) && SpellsAt(ts, p, e, level) == Spells(ts, p, e)
  {
  }

  /** A printed operand begins with a number, a name or `(`. */
  lemma {:induction false} SpellsStart(ts: seq<Token>, p: nat, e: Node)
    requires IsExpr(e) && Spells(ts, p, e)
    ensures p < |ts| && (ts[p].kind == Number || ts[p].kind == Ident || ts[p] == OpenParen)
    decreases e
  {
    if e.BinaryExpr? && Level(e.left) >= Level(e) {
      SpellsStart(ts, p, e.left);
    }
  }

  // ------------------------------------------- the segment at a position

  /** The `n` tokens of `ts` from `p` on. */
  function Window(ts: seq<Token>, p: nat, n: nat): (w: seq<Token>)
    requires p + n <= |ts|
    ensures |w| == n
    decreases n
  {
    if n == 0 then [] else [ts[p]] + Window(ts, p + 1, n - 1)
  }

  lemma {:induction false} WindowIndex(ts: seq<Token>, p: nat, n: nat, k: nat)
    requires p + n <= |ts| && k < n
    ensures Window(ts, p, n)[k] == ts[p + k]
    decreases k
  {
    if k > 0 {
      WindowIndex(ts, p + 1, n - 1, k - 1);
    }
  }

  lemma {:induction false} WindowSplit(ts: seq<Token>, p: nat, m: nat, n: nat)
    requires p + m + n <= |ts|
    ensures Window(ts, p, m + n) == Window(ts, p, m) + Window(ts, p + m, n)
    decreases m
  {
    if m > 0 {
      WindowSplit(ts, p + 1, m - 1, n);
      assert Window(ts, p, m + n) == [ts[p]] + Window(ts, p + 1, m - 1 + n);
    }
  }

  /** The segment `seg` occurs in `ts` at `p`, followed by at least one token. */
  predicate At(ts: seq<Token>, p: nat, seg: seq<Token>)
  {
    p + |seg| < |ts| && Window(ts, p, |seg|) == seg
  }

  /** `At` from the tokens one by one. */
  lemma AtIntro(ts: seq<Token>, p: nat, seg: seq<Token>)
    requires p + |seg| < |ts| && forall k :: 0 <= k < |seg| ==> ts[p + k] == seg[k]
    ensures At(ts, p, seg)
  {
    forall k | 0 <= k < |seg|
      ensures Window(ts, p, |seg|)[k] == seg[k]
    {
      WindowIndex(ts, p, |seg|, k);
    }
  }

  lemma AtSplit(ts: seq<Token>, p: nat, a: seq<Token>, b: seq<Token>)
    requires At(ts, p, a + b)
    ensures At(ts, p, a) && At(ts, p + |a|, b)
  {
    var x, y := Window(ts, p, |a|), Window(ts, p + |a|, |b|);
    WindowSplit(ts, p, |a|, |b|);
    assert x + y == a + b;
    assert x == (x + y)[..|a|] == (a + b)[..|a|] == a;
    assert y == (x + y)[|a|..] == (a + b)[|a|..] == b;
  }

  /** Any one token of a segment, by its index. */
  lemma AtIndex(ts: seq<Token>, p: nat, seg: seq<Token>, k: nat)
    requires At(ts, p, seg) && k < |seg|
    ensures ts[p + k] == seg[k]
  {
    WindowIndex(ts, p, |seg|, k);
  }

  lemma AtHead(ts: seq<Token>, p: nat, seg: seq<Token>)
    requires At(ts, p, seg) && |seg| > 0
    ensures ts[p] == seg[0]
  {
    AtIndex(ts, p, seg, 0);
  }

  /** The three parts of `a + [t] + b` at `p`. */
  lemma SplitAround(ts: seq<Token>, p: nat, a: seq<Token>, t: Token, b: seq<Token>)
    requires At(ts, p, a + [t] + b)
    ensures At(ts, p, a) && ts[p + |a|] == t && At(ts, p + |a| + 1, b)
  {
    AtSplit(ts, p, a + [t], b);
    AtSplit(ts, p, a, [t]);
    AtHead(ts, p + |a|, [t]);
  }

  // ----------------------------------- printed forms, by list and by position

  lemma {:induction false} RenderSpells(ts: seq<Token>, p: nat, e: Node)
    requires IsExpr(e) && At(ts, p, Render(e))
    ensures |Render(e)| == Width(e) && Spells(ts, p, e)
    decreases e, 1
  {
    match e
    case Literal(n) =>
      AtHead(ts, p, Render(e));
    case Identifier(x) =>
      AtHead(ts, p, Render(e));
    case CallExpr(f, args) =>
      var body := RenderArgs(args);
      assert Render(e) == [Token(Ident, f, 1)] + [OpenParen] + body + [CloseParen];
      AtSplit(ts, p, [Token(Ident, f, 1)] + [OpenParen] + body, [CloseParen]);
      AtSplit(ts, p, [Token(Ident, f, 1)] + [OpenParen], body);
      AtSplit(ts, p, [Token(Ident, f, 1)], [OpenParen]);
      AtHead(ts, p, [Token(Ident, f, 1)]);
      AtHead(ts, p + 1, [OpenParen]);
      AtHead(ts, p + 2 + |body|, [CloseParen]);
      RenderArgsSpells(ts, p + 2, args);
    case BinaryExpr(l, r, op) =>
      var left, right := RenderAt(l, Level(e)), RenderAt(r, Level(e) + 1);
      assert Render(e) == left + [Token(Operator, op, 1)] + right;
      SplitAround(ts, p, left, Token(Operator, op, 1), right);
      RenderAtSpells(ts, p, l, Level(e));
      RenderAtSpells(ts, p + |left| + 1, r, Level(e) + 1);
  }

  lemma {:induction false} RenderAtSpells(ts: seq<Token>, p: nat, e: Node, level: nat)
    requires IsExpr(e) && At(ts, p, RenderAt(e, level))
    ensures |RenderAt(e, level)| == WidthAt(e, level) && SpellsAt(ts, p, e, level)
    decreases e, 2
  {
    if Level(e) < level {
      var inner := Render(e);
      assert RenderAt(e, level) == [OpenParen] + inner + [CloseParen];
      AtSplit(ts, p, [OpenParen] + inner, [CloseParen]);
      AtSplit(ts, p, [OpenParen], inner);
      AtHead(ts, p, [OpenParen]);
      AtHead(ts, p + 1 + |inner|, [CloseParen]);
      RenderSpells(ts, p + 1, e);
    } else {
      RenderSpells(ts, p, e);
    }
  }

  lemma {:induction false} RenderArgsSpells(ts: seq<Token>, p: nat, args: seq<Node>)
    requires (forall a | a in args :: IsExpr(a)) && At(ts, p, RenderArgs(args))
    ensures |RenderArgs(args)| == ArgsWidth(args) && SpellsArgs(ts, p, args)
    decreases args
  {
    if |args| == 1 {
      assert args[0] in args;
      RenderSpells(ts, p, args[0]);
    } else if |args| > 1 {
      assert args[0] in args;
      var first, rest := Render(args[0]), RenderArgs(args[1..]);
      assert RenderArgs(args) == first + [Comma] + rest;
      SplitAround(ts, p, first, Comma, rest);
      RenderSpells(ts, p, args[0]);
      RenderArgsSpells(ts, p + |first| + 1, args[1..]);
    }
  }

  lemma RenderStatementSpells(ts: seq<Token>, p: nat, s: Node)
    requires IsStatement(s) && At(ts, p, RenderStatement(s))
    ensures |RenderStatement(s)| == StatementWidth(s) && SpellsStatement(ts, p, s)
  {
    if s.VarDecl? {
      var head := [Token(Keyword, "let", 1), Token(Ident, s.name, 1), Token(Operator, "=", 1)];
      var init := Render(s.init);
      assert RenderStatement(s) == head + init + [SemicolonToken];
      AtSplit(ts, p, head + init, [SemicolonToken]);
      AtSplit(ts, p, head, init);
      AtHead(ts, p + |head| + |init|, [SemicolonToken]);
      AtIndex(ts, p, head, 0);
      AtIndex(ts, p, head, 1);
      AtIndex(ts, p, head, 2);
      RenderSpells(ts, p + 3, s.init);
    } else {
      AtSplit(ts, p, Render(s), [SemicolonToken]);
      AtHead(ts, p + |Render(s)|, [SemicolonToken]);
      RenderSpells(ts, p, s);
    }
  }

  /** A segment in the middle of a token list occurs at its offset. */
  lemma AtMiddle(pre: seq<Token>, seg: seq<Token>, post: seq<Token>)
    requires post != []
    ensures At(pre + seg + post, |pre|, seg)
  {
    var ts := pre + seg + post;
    forall k | 0 <= k < |seg|
      ensures ts[|pre| + k] == seg[k]
    {
    }
    AtIntro(ts, |pre|, seg);
  }

  lemma Regroup(pre: seq<Token>, a: seq<Token>, b: seq<Token>, post: seq<Token>)
    ensures pre + (a + b) + post == pre + a + b + post == pre + a + (b + post)
  {
  }

  /**
   * The statements `ss` printed one after another, between any tokens
   * before them and at least one after, spell them position by position.
   */
  lemma {:induction false} PrintedSpells(ts: seq<Token>, p: nat, ss: seq<Node>, end: nat)
    requires AllStatements(ss) && At(ts, p, RenderStatements(ss)) && end == p + |RenderStatements(ss)|
    ensures SpellsStatements(ts, p, ss, end)
    decreases ss
  {
    if ss != [] {
      var q := PrintedFirst(ts, p, ss);
      PrintedSpells(ts, q, ss[1..], end);
      SpellsStatementsIntro(ts, p, ss, q, end);
    }
  }

  /** The first printed statement is spelled at `p`; the rest are printed from `q` on. */
  lemma PrintedFirst(ts: seq<Token>, p: nat, ss: seq<Node>) returns (q: nat)
    requires ss != [] && AllStatements(ss) && At(ts, p, RenderStatements(ss))
    ensures IsStatement(ss[0]) && AllStatements(ss[1..])
    ensures q == p + StatementWidth(ss[0]) && SpellsStatement(ts, p, ss[0])
    ensures At(ts, q, RenderStatements(ss[1..]))
    ensures q + |RenderStatements(ss[1..])| == p + |RenderStatements(ss)|
  {
    var first, rest := RenderStatement(ss[0]), RenderStatements(ss[1..]);
    assert RenderStatements(ss) == first + rest;
    AtSplit(ts, p, first, rest);
    RenderStatementSpells(ts, p, ss[0]);
    q := p + |first|;
  }

  /** A printed program followed by an end token spells its statements from position 0. */
  lemma ProgramSpells(ss: seq<Node>, end: Token)
    requires AllStatements(ss)
    ensures SpellsStatements(RenderStatements(ss) + [end], 0, ss, |RenderStatements(ss)|)
  {
    var body := RenderStatements(ss);
    assert body + [end] == [] + body + [end];
    AtMiddle([], body, [end]);
    PrintedSpells(body + [end], 0, ss, |body|);
  }

  // ------------------------------------------------- printable tokens

  /** A token a printed tree may contain: not EOF, and a number only as digits. */
  predicate Printable(t: Token)
  {
    t.kind != EOF && (t.kind == Number ==> |t.value| > 0 && AllDigits(t.value))
  }

  lemma {:induction false} RenderPrintable(e: Node)
    requires IsExpr(e)
    ensures forall t | t in Render(e) :: Printable(t)
    decreases e, 1
  {
    match e
    case Literal(n) =>
    case Identifier(x) =>
    case CallExpr(f, args) => RenderArgsPrintable(args);
    case BinaryExpr(l, r, op) =>
      RenderAtPrintable(l, Level(e));
      RenderAtPrintable(r, Level(e) + 1);
  }

  lemma {:induction false} RenderAtPrintable(e: Node, level: nat)
    requires IsExpr(e)
    ensures forall t | t in RenderAt(e, level) :: Printable(t)
    decreases e, 2
  {
    RenderPrintable(e);
  }

  lemma {:induction false} RenderArgsPrintable(args: seq<Node>)
    requires forall a | a in args :: IsExpr(a)
    ensures forall t | t in RenderArgs(args) :: Printable(t)
    decreases args
  {
    if |args| > 0 {
      assert args[0] in args;
      RenderPrintable(args[0]);
      if |args| > 1 {
        RenderArgsPrintable(args[1..]);
      }
    }
  }

  lemma {:induction false} RenderStatementsPrintable(ss: seq<Node>)
    requires AllStatements(ss)
    ensures forall t | t in RenderStatements(ss) :: Printable(t)
  {
    if ss != [] {
      var s := ss[0];
      if s.VarDecl? {
        RenderPrintable(s.init);
      } else {
        RenderPrintable(s);
      }
      RenderStatementsPrintable(ss[1..]);
    }
  }
}
