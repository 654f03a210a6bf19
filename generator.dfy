/**
 * Lowering of syntax trees to the three-address IR.
 *
 * `Lower` says, as a function of the tree and of the generator's state
 * before the visit (instructions so far, symbol table, temporary counter),
 * what `visit` returns and what the state is afterwards. The class
 * `IRGenerator` does the same work by updating its three fields, and each
 * of its methods is proved to end in the state `Lower` describes.
 */
module Generator {
  import opened Types
  import opened Numeric
  import opened Syntax

  // ------------------------------------------------------------- the state

  /** The generator's three fields. */
  datatype Gen = Gen(ir: seq<Instr>, symbols: seq<SymbolInfo>, temps: nat)

  /** What a `visit` returns (a name, or `null`) and the state after it. */
  datatype Lowered = Lowered(name: Option<string>, gen: Gen)

  /** What `visit` returns for each argument of a call, and the state after them. */
  datatype LoweredArgs = LoweredArgs(names: seq<Arg>, gen: Gen)

  /** The state `generate` starts from. */
  const Start := Gen([], [], 0)

  /** The name of the `k`-th temporary: `temp` followed by `k` in decimal. */
  function TempName(k: nat): (name: string)
    ensures IsPrefix("temp", name) && |name| > 4
  {
    "temp" + ShowNat(k)
  }

  /** `newTemp`: the next temporary's name, registered in the symbol table. */
  function FreshTemp(g: Gen): (r: Lowered)
    ensures r.name == Some(TempName(g.temps)) && r.gen.temps == g.temps + 1 && r.gen.ir == g.ir
    ensures r.gen.symbols == g.symbols + [SymbolInfo(TempName(g.temps), TempSymbol, false)]
  {
    var name := TempName(g.temps);
    Lowered(Some(name), Gen(g.ir, g.symbols + [SymbolInfo(name, TempSymbol, false)], g.temps + 1))
  }

  /** `opMap[operator]`; an operator outside the map gives an unknown opcode. */
  function OpcodeOf(operator: string): (op: Opcode)
    ensures op == Unknown <==> !IsOperator(operator)
  {
    if operator == "+" then Add
    else if operator == "-" then Sub
    else if operator == "*" then Mul
    else if operator == "/" then Div
    else Unknown
  }

  /** `findIndex`: the first entry named `name`, or -1. */
  function FindSymbol(symbols: seq<SymbolInfo>, name: string): (k: int)
    ensures -1 <= k < |symbols|
    ensures k == -1 <==> forall j :: 0 <= j < |symbols| ==> symbols[j].name != name
    ensures k >= 0 ==> symbols[k].name == name && forall j :: 0 <= j < k ==> symbols[j].name != name
  {
    if symbols == [] then -1
    else if symbols[0].name == name then 0
    else
      var k := FindSymbol(symbols[1..], name);
      if k == -1 then -1 else k + 1
  }

  /** The symbol table after removing the first entry named `name`, if there is one. */
  function RemoveSymbol(symbols: seq<SymbolInfo>, name: string): seq<SymbolInfo>
  {
    var k := FindSymbol(symbols, name);
    if k == -1 then symbols else symbols[..k] + symbols[k + 1..]
  }

  // -------------------------------------------------------------- lowering

  /** Whether copy elision applies: the last instruction wrote `v`, and `v` starts with "temp". */
  predicate Elides(g: Gen, v: string)
  {
    |g.ir| > 0 && g.ir[|g.ir| - 1].dest == Some(v) && IsPrefix("temp", v)
  }

  /** `visitVarDecl`, after its initializer has been visited with outcome `init`. */
  function LowerDecl(name: string, init: Lowered): Lowered
  {
    var g := init.gen;
    if !Truthy(init.name) then
      Lowered(Some(name), g)
    else
      var v := init.name.value;
      var entry := SymbolInfo(name, VarSymbol, false);
      if Elides(g, v) then
        var last := |g.ir| - 1;
        Lowered(Some(name), Gen(g.ir[last := g.ir[last].(dest := Some(name))], RemoveSymbol(g.symbols, v) + [entry], g.temps))
      else
        Lowered(Some(name), Gen(g.ir + [Instr(Id, Some(name), Some([Some(v)]), None)], g.symbols + [entry], g.temps))
  }

  /** `visit(n)` started in state `g`. */
  function Lower(n: Node, g: Gen): Lowered
    decreases n, 1
  {
    match n
    case VarDecl(name, init) =>
      LowerDecl(name, Lower(init, g))
    case BinaryExpr(l, r, operator) =>
      var left := Lower(l, g);
      var right := Lower(r, left.gen);
      var t := FreshTemp(right.gen);
      var instr := Instr(OpcodeOf(operator), t.name, Some([left.name, right.name]), None);
      Lowered(t.name, t.gen.(ir := t.gen.ir + [instr]))
    case Literal(v) =>
      var t := FreshTemp(g);
      Lowered(t.name, t.gen.(ir := t.gen.ir + [Instr(Const, t.name, None, Some(v))]))
    case Identifier(x) =>
      Lowered(Some(x), g)
    case CallExpr(callee, args) =>
      if callee == "print" then
        var a := LowerArgs(args, g);
        Lowered(None, a.gen.(ir := a.gen.ir + [Instr(Print, None, Some(a.names), None)]))
      else
        Lowered(None, g)
    case Program(_) =>
      Lowered(None, g)
  }

  /** `args.map(arg => visit(arg))`, left to right. */
  function LowerArgs(args: seq<Node>, g: Gen): (r: LoweredArgs)
    ensures |r.names| == |args|
    decreases args
  {
    if args == [] then LoweredArgs([], g)
    else
      var init := LowerArgs(args[..|args| - 1], g);
      var last := Lower(args[|args| - 1], init.gen);
      LoweredArgs(init.names + [last.name], last.gen)
  }

  /** `ast.body.forEach(node => visit(node))` from state `g`. */
  function LowerAll(body: seq<Node>, g: Gen): Gen
    decreases |body|
  {
    if body == [] then g else Lower(body[|body| - 1], LowerAll(body[..|body| - 1], g)).gen
  }

  /** What `generate` returns for a program with statements `body`. */
  function Generated(body: seq<Node>): Gen
  {
    LowerAll(body, Start)
  }

  // -------------------------------------------------------------- the class

  class IRGenerator {
    var instructions: seq<Instr>
    var symbolTable: seq<SymbolInfo>
    var tempCounter: nat

    function State(): Gen
      reads this
    {
      Gen(instructions, symbolTable, tempCounter)
    }

    constructor ()
      ensures State() == Start
    {
      instructions := [];
      symbolTable := [];
      tempCounter := 0;
    }

    /** Every call starts afresh, so the result depends on `ast` alone. */
    method Generate(ast: Node) returns (ir: seq<Instr>, symbols: seq<SymbolInfo>)
      requires ast.Program?
      modifies this
      ensures State() == Generated(ast.body) && ir == instructions && symbols == symbolTable
    {
      instructions := [];
      symbolTable := [];
      tempCounter := 0;
      var i := 0;
      while i < |ast.body|
        invariant 0 <= i <= |ast.body|
        invariant State() == LowerAll(ast.body[..i], Start)
      {
        assert ast.body[..i + 1][..i] == ast.body[..i];
        var _ := Visit(ast.body[i]);
        i := i + 1;
      }
      assert ast.body[..i] == ast.body;
      return instructions, symbolTable;
    }

    method NewTemp() returns (tempName: string)
      modifies this
      ensures Lowered(Some(tempName), State()) == FreshTemp(old(State()))
    {
      tempName := TempName(tempCounter);
      tempCounter := tempCounter + 1;
      symbolTable := symbolTable + [SymbolInfo(tempName, TempSymbol, false)];
    }

    method Visit(node: Node) returns (r: Option<string>)
      modifies this
      ensures Lowered(r, State()) == Lower(node, old(State()))
      decreases node, 2
    {
      match node
      case VarDecl(_, _) => r := VisitVarDecl(node);
      case BinaryExpr(_, _, _) => var name := VisitBinaryExpr(node); r := Some(name);
      case Literal(_) => var name := VisitLiteral(node); r := Some(name);
      case Identifier(_) => var name := VisitIdentifier(node); r := Some(name);
      case CallExpr(_, _) => r := VisitCallExpr(node);
      case Program(_) => r := None;
    }

    method VisitVarDecl(node: Node) returns (r: Option<string>)
      requires node.VarDecl?
      modifies this
      ensures Lowered(r, State()) == Lower(node, old(State()))
      decreases node, 1
    {
      ghost var g0 := State();
      var resultVar := Visit(node.init);
      assert Lowered(resultVar, State()) == Lower(node.init, g0);
      if resultVar.Some? && resultVar.value != "" {
        var v := resultVar.value;
        if |instructions| > 0 && instructions[|instructions| - 1].dest == Some(v) && IsPrefix("temp", v) {
          var tempIndex := FindSymbol(symbolTable, v);
          if tempIndex != -1 {
            symbolTable := symbolTable[..tempIndex] + symbolTable[tempIndex + 1..];
          }
          var last := |instructions| - 1;
          instructions := instructions[last := instructions[last].(dest := Some(node.name))];
        } else {
          instructions := instructions + [Instr(Id, Some(node.name), Some([resultVar]), None)];
        }
        symbolTable := symbolTable + [SymbolInfo(node.name, VarSymbol, false)];
      }
      return Some(node.name);
    }

    method VisitBinaryExpr(node: Node) returns (dest: string)
      requires node.BinaryExpr?
      modifies this
      ensures Lowered(Some(dest), State()) == Lower(node, old(State()))
      decreases node, 1
    {
      var left := Visit(node.left);
      var right := Visit(node.right);
      dest := NewTemp();
      instructions := instructions + [Instr(OpcodeOf(node.operator), Some(dest), Some([left, right]), None)];
    }

    method VisitLiteral(node: Node) returns (dest: string)
      requires node.Literal?
      modifies this
      ensures Lowered(Some(dest), State()) == Lower(node, old(State()))
    {
      dest := NewTemp();
      instructions := instructions + [Instr(Const, Some(dest), None, Some(node.number))];
    }

    method VisitIdentifier(node: Node) returns (name: string)
      requires node.Identifier?
      ensures Some(name) == Lower(node, State()).name
    {
      return node.name;
    }

    /** Only `print` is lowered; its arguments are visited left to right. */
    method VisitCallExpr(node: Node) returns (r: Option<string>)
      requires node.CallExpr?
      modifies this
      ensures Lowered(r, State()) == Lower(node, old(State()))
      decreases node, 1
    {
      if node.callee == "print" {
        ghost var g0 := State();
        var args: seq<Arg> := [];
        var i := 0;
        while i < |node.args|
          invariant 0 <= i <= |node.args|
          invariant LoweredArgs(args, State()) == LowerArgs(node.args[..i], g0)
        {
          assert node.args[..i + 1][..i] == node.args[..i];
          var a := Visit(node.args[i]);
          args := args + [a];
          i := i + 1;
        }
        assert node.args[..i] == node.args;
        instructions := instructions + [Instr(Print, None, Some(args), None)];
      }
      return None;
    }
  }
}

/** What the lowering of a tree emits and registers. */
module GeneratorProperties {
  import opened Types
  import opened Numeric
  import opened Syntax
  import opened Generator

  /** Different counter values give different temporary names. */
  lemma {:induction false} TempNamesDistinct(i: nat, j: nat)
    ensures TempName(i) == TempName(j) <==> i == j
  {
    ShowNatInjective(i, j);
    if TempName(i) == TempName(j) {
      assert ShowNat(i) == TempName(i)[4..];
      assert ShowNat(j) == TempName(j)[4..];
    }
  }

  // ------------------------------------------------ temporaries, in order

  /** Expressions built from literals, names and the four operators only (no calls). */
  predicate Arithmetic(e: Node)
  {
    match e
    case Literal(_) => true
    case Identifier(_) => true
    case BinaryExpr(l, r, _) => Arithmetic(l) && Arithmetic(r)
    case _ => false
  }

  /** How many temporaries an arithmetic expression needs: one per literal and per operator. */
  function Temps(e: Node): nat
  {
    match e
    case BinaryExpr(l, r, _) => Temps(l) + Temps(r) + 1
    case Literal(_) => 1
    case _ => 0
  }

  /** The symbol-table entries of the temporaries `k` to `k + n - 1`, in creation order. */
  function TempEntries(k: nat, n: nat): (s: seq<SymbolInfo>)
    ensures |s| == n
  {
    if n == 0 then [] else TempEntries(k, n - 1) + [SymbolInfo(TempName(k + n - 1), TempSymbol, false)]
  }

  lemma {:induction false} TempEntriesAt(k: nat, n: nat, j: nat)
    requires j < n
    ensures TempEntries(k, n)[j] == SymbolInfo(TempName(k + j), TempSymbol, false)
  {
    if j < n - 1 {
      TempEntriesAt(k, n - 1, j);
    }
  }

  lemma {:induction false} TempEntriesSplit(k: nat, a: nat, b: nat)
    ensures TempEntries(k, a + b) == TempEntries(k, a) + TempEntries(k + a, b)
  {
    if b > 0 {
      TempEntriesSplit(k, a, b - 1);
    }
  }

  /** The `j`-th instruction of `instrs` writes the temporary `k + j`. */
  predicate WritesTemps(instrs: seq<Instr>, k: nat)
  {
    forall j :: 0 <= j < |instrs| ==> instrs[j].dest == Some(TempName(k + j))
  }

  lemma {:induction false} WritesTempsAppend(a: seq<Instr>, b: seq<Instr>, k: nat)
    requires WritesTemps(a, k) && WritesTemps(b, k + |a|)
    ensures WritesTemps(a + b, k)
  {
    forall j | 0 <= j < |a + b|
      ensures (a + b)[j].dest == Some(TempName(k + j))
    {
      if j >= |a| {
        assert (a + b)[j] == b[j - |a|];
      }
    }
  }

  /**
   * `r` is `g` with `n` more temporaries: `n` instructions appended, the
   * `j`-th of them writing `temp(k + j)` (`k` the counter in `g`), and the
   * same temporaries registered in the same order.
   */
  predicate Appended(g: Gen, r: Gen, n: nat)
  {
    && r.temps == g.temps + n
    && |r.ir| == |g.ir| + n && r.ir == g.ir + r.ir[|g.ir|..]
    && WritesTemps(r.ir[|g.ir|..], g.temps)
    && r.symbols == g.symbols + TempEntries(g.temps, n)
  }

  lemma {:induction false} AppendedOne(g: Gen, r: Gen, instr: Instr)
    requires instr.dest == Some(TempName(g.temps))
    requires r == Gen(g.ir + [instr], g.symbols + [SymbolInfo(TempName(g.temps), TempSymbol, false)], g.temps + 1)
    ensures Appended(g, r, 1)
  {
    assert r.ir[|g.ir|..] == [instr];
    assert TempEntries(g.temps, 1) == [SymbolInfo(TempName(g.temps), TempSymbol, false)];
  }

  lemma {:induction false} AppendedTrans(g: Gen, m: Gen, r: Gen, a: nat, b: nat)
    requires Appended(g, m, a) && Appended(m, r, b)
    ensures Appended(g, r, a + b)
  {
    InstrsTrans(g.ir, m.ir, r.ir, g.temps, a, b);
    SymbolsTrans(g.symbols, m.symbols, r.symbols, g.temps, a, b);
  }

  lemma {:induction false} SymbolsTrans(gs: seq<SymbolInfo>, ms: seq<SymbolInfo>, rs: seq<SymbolInfo>, k: nat, a: nat, b: nat)
    requires ms == gs + TempEntries(k, a) && rs == ms + TempEntries(k + a, b)
    ensures rs == gs + TempEntries(k, a + b)
  {
    TempEntriesSplit(k, a, b);
    assert (gs + TempEntries(k, a)) + TempEntries(k + a, b) == gs + (TempEntries(k, a) + TempEntries(k + a, b));
  }

  lemma {:induction false} InstrsTrans(gi: seq<Instr>, mi: seq<Instr>, ri: seq<Instr>, k: nat, a: nat, b: nat)
    requires |mi| == |gi| + a && mi == gi + mi[|gi|..] && WritesTemps(mi[|gi|..], k)
    requires |ri| == |mi| + b && ri == mi + ri[|mi|..] && WritesTemps(ri[|mi|..], k + a)
    ensures |ri| == |gi| + a + b && ri == gi + ri[|gi|..] && WritesTemps(ri[|gi|..], k)
  {
    var x, y := mi[|gi|..], ri[|mi|..];
    assert ri == gi + (x + y);
    assert ri[|gi|..] == x + y;
    WritesTempsAppend(x, y, k);
  }

  /** Two runs of temporaries followed by one more make one run. */
  lemma {:induction false} AppendedStep(g: Gen, m: Gen, r: Gen, res: Gen, a: nat, b: nat, instr: Instr)
    requires Appended(g, m, a) && Appended(m, r, b)
    requires instr.dest == Some(TempName(r.temps))
    requires res == Gen(r.ir + [instr], r.symbols + [SymbolInfo(TempName(r.temps), TempSymbol, false)], r.temps + 1)
    ensures Appended(g, res, a + b + 1) && r.temps == g.temps + a + b
  {
    AppendedTrans(g, m, r, a, b);
    AppendedOne(r, res, instr);
    AppendedTrans(g, r, res, a + b, 1);
  }

  /** A literal takes one temporary. */
  lemma {:induction false} LiteralAppended(v: int, g: Gen)
    ensures Appended(g, Lower(Literal(v), g).gen, 1)
    ensures Lower(Literal(v), g).name == Some(TempName(g.temps))
  {
    var t := TempName(g.temps);
    var instr := Instr(Const, Some(t), None, Some(v));
    var res := Gen(g.ir + [instr], g.symbols + [SymbolInfo(t, TempSymbol, false)], g.temps + 1);
    AppendedOne(g, res, instr);
    assert Lower(Literal(v), g) == Lowered(Some(t), res);
  }

  /** A bare name takes none. */
  lemma {:induction false} IdentifierAppended(x: string, g: Gen)
    ensures Appended(g, Lower(Identifier(x), g).gen, 0)
  {
    assert g.ir[|g.ir|..] == [];
  }

  /** An operator node lowers its operands, then appends one instruction writing a fresh temporary. */
  lemma {:induction false} BinaryShape(l: Node, r: Node, op: string, g: Gen) returns (instr: Instr)
    ensures var operands := Lower(r, Lower(l, g).gen).gen;
      && instr == Instr(OpcodeOf(op), Some(TempName(operands.temps)), Some([Lower(l, g).name, Lower(r, Lower(l, g).gen).name]), None)
      && Lower(BinaryExpr(l, r, op), g) == Lowered(Some(TempName(operands.temps)),
           Gen(operands.ir + [instr], operands.symbols + [SymbolInfo(TempName(operands.temps), TempSymbol, false)], operands.temps + 1))
  {
    var left := Lower(l, g);
    var right := Lower(r, left.gen);
    instr := Instr(OpcodeOf(op), Some(TempName(right.gen.temps)), Some([left.name, right.name]), None);
  }

  /**
   * Lowering an arithmetic expression appends one instruction per temporary,
   * numbered from the counter before, and registers them in the same order.
   * The expression's value ends up in the last of them (or, for a bare name,
   * in the name itself).
   */
  lemma {:induction false} LowerArithmetic(e: Node, g: Gen)
    requires Arithmetic(e)
    ensures Appended(g, Lower(e, g).gen, Temps(e))
    ensures Lower(e, g).name == if e.Identifier? then Some(e.name) else Some(TempName(g.temps + Temps(e) - 1))
  {
    if e.BinaryExpr? {
      LowerArithmetic(e.left, g);
      LowerArithmetic(e.right, Lower(e.left, g).gen);
      BinaryAppended(e, g);
    } else {
      LeafAppended(e, g);
    }
  }

  /** A literal adds one temporary; a name adds none and is its own value. */
  lemma LeafAppended(e: Node, g: Gen)
    requires e.Literal? || e.Identifier?
    ensures Appended(g, Lower(e, g).gen, Temps(e))
    ensures Lower(e, g).name == if e.Identifier? then Some(e.name) else Some(TempName(g.temps + Temps(e) - 1))
  {
    if e.Literal? {
      LiteralAppended(e.number, g);
      assert e == Literal(e.number) && Temps(e) == 1;
    } else {
      IdentifierAppended(e.name, g);
      assert e == Identifier(e.name) && Temps(e) == 0;
    }
  }

  /** An operator node adds one temporary to those of its operands. */
  lemma {:induction false} BinaryAppended(e: Node, g: Gen)
    requires e.BinaryExpr?
    requires Appended(g, Lower(e.left, g).gen, Temps(e.left))
    requires Appended(Lower(e.left, g).gen, Lower(e.right, Lower(e.left, g).gen).gen, Temps(e.right))
    ensures Appended(g, Lower(e, g).gen, Temps(e))
    ensures Lower(e, g).name == Some(TempName(g.temps + Temps(e) - 1))
  {
    BinaryStep(e.left, e.right, e.operator, g, Temps(e.left), Temps(e.right));
    assert e == BinaryExpr(e.left, e.right, e.operator);
    assert Temps(e) == Temps(e.left) + Temps(e.right) + 1;
  }

  lemma {:induction false} BinaryStep(l: Node, r: Node, op: string, g: Gen, a: nat, b: nat)
    requires Appended(g, Lower(l, g).gen, a) && Appended(Lower(l, g).gen, Lower(r, Lower(l, g).gen).gen, b)
    ensures Appended(g, Lower(BinaryExpr(l, r, op), g).gen, a + b + 1)
    ensures Lower(BinaryExpr(l, r, op), g).name == Some(TempName(g.temps + a + b))
  {
    var left := Lower(l, g).gen;
    var right := Lower(r, left).gen;
    var instr := BinaryShape(l, r, op, g);
    AppendedStep(g, left, right, Lower(BinaryExpr(l, r, op), g).gen, a, b, instr);
  }

  // ---------------------------------------------------------- declarations

  /** Removing the entry named `v` from a table whose only such entry is the last one. */
  lemma {:induction false} RemoveLast(prefix: seq<SymbolInfo>, entry: SymbolInfo, v: string)
    requires forall j :: 0 <= j < |prefix| ==> prefix[j].name != v
    requires entry.name == v
    ensures RemoveSymbol(prefix + [entry], v) == prefix
  {
    var s := prefix + [entry];
    var k := FindSymbol(s, v);
    assert s[|prefix|].name == v;
    assert forall j :: 0 <= j < |prefix| ==> s[j].name != v;
    assert k == |prefix|;
    assert s[..k] == prefix;
  }

  /** The first `m` temporaries from `k` are all named differently from temporary `k + m`. */
  lemma {:induction false} TempEntriesAvoid(k: nat, m: nat)
    ensures forall j :: 0 <= j < m ==> TempEntries(k, m)[j].name != TempName(k + m)
  {
    forall j | 0 <= j < m
      ensures TempEntries(k, m)[j].name != TempName(k + m)
    {
      TempEntriesAt(k, m, j);
      TempNamesDistinct(k + j, k + m);
    }
  }

  /**
   * The elision branch of `visitVarDecl`: the initializer yields `v`, which
   * starts with "temp" and which the last instruction writes, and the only
   * entry named `v` is the last one. That instruction then writes `x`
   * instead, and the entry for `v` gives way to one for `x`.
   */
  lemma {:induction false} DeclElision(x: string, init: Lowered, v: string, prefix: seq<SymbolInfo>, r: Lowered)
    requires init.name == Some(v) && IsPrefix("temp", v)
    requires |init.gen.ir| > 0 && init.gen.ir[|init.gen.ir| - 1].dest == Some(v)
    requires init.gen.symbols == prefix + [SymbolInfo(v, TempSymbol, false)]
    requires forall j :: 0 <= j < |prefix| ==> prefix[j].name != v
    requires r == LowerDecl(x, init)
    ensures var ir := init.gen.ir;
      && r.name == Some(x) && r.gen.temps == init.gen.temps
      && r.gen.ir == ir[..|ir| - 1] + [ir[|ir| - 1].(dest := Some(x))]
      && r.gen.symbols == prefix + [SymbolInfo(x, VarSymbol, false)]
  {
    var ir := init.gen.ir;
    var last := |ir| - 1;
    assert Elides(init.gen, v);
    RemoveLast(prefix, SymbolInfo(v, TempSymbol, false), v);
    assert ir[last := ir[last].(dest := Some(x))] == ir[..last] + [ir[last].(dest := Some(x))];
  }

  /** After `n >= 1` temporaries: the last instruction writes the last of them, the last entry registers it. */
  lemma {:induction false} LastTemp(g: Gen, init: Gen, n: nat) returns (prefix: seq<SymbolInfo>)
    requires Appended(g, init, n) && n >= 1
    requires forall j :: 0 <= j < |g.symbols| ==> g.symbols[j].name != TempName(g.temps + n - 1)
    ensures prefix == g.symbols + TempEntries(g.temps, n - 1)
    ensures |init.ir| == |g.ir| + n && init.ir[|init.ir| - 1].dest == Some(TempName(g.temps + n - 1))
    ensures init.symbols == prefix + [SymbolInfo(TempName(g.temps + n - 1), TempSymbol, false)]
    ensures forall j :: 0 <= j < |prefix| ==> prefix[j].name != TempName(g.temps + n - 1)
  {
    assert init.ir[|init.ir| - 1] == init.ir[|g.ir|..][n - 1];
    prefix := PrefixAvoids(g.symbols, g.temps, n - 1);
  }

  /** Earlier entries, then temporaries `k` to `k + m - 1`: none is named like temporary `k + m`. */
  lemma {:induction false} PrefixAvoids(symbols: seq<SymbolInfo>, k: nat, m: nat) returns (prefix: seq<SymbolInfo>)
    requires forall j :: 0 <= j < |symbols| ==> symbols[j].name != TempName(k + m)
    ensures prefix == symbols + TempEntries(k, m)
    ensures forall j :: 0 <= j < |prefix| ==> prefix[j].name != TempName(k + m)
  {
    TempEntriesAvoid(k, m);
    prefix := symbols + TempEntries(k, m);
    forall j | 0 <= j < |prefix|
      ensures prefix[j].name != TempName(k + m)
    {
      if j >= |symbols| {
        assert prefix[j] == TempEntries(k, m)[j - |symbols|];
      }
    }
  }

  /**
   * Copy elision: declaring `x` with an arithmetic expression other than a
   * bare name emits the expression's instructions, except that the last
   * one, which wrote the last temporary, writes `x` directly; that
   * temporary leaves the symbol table in favour of `x`. This needs the
   * symbol table not to hold an earlier entry with that temporary's name
   * (a variable the program itself called so).
   */
  lemma {:induction false} DeclOfExpression(x: string, e: Node, g: Gen)
    requires Arithmetic(e) && !e.Identifier?
    requires forall j :: 0 <= j < |g.symbols| ==> g.symbols[j].name != TempName(g.temps + Temps(e) - 1)
    ensures var r, ir := Lower(VarDecl(x, e), g), Lower(e, g).gen.ir;
      && r.name == Some(x) && r.gen.temps == g.temps + Temps(e)
      && |ir| == |g.ir| + Temps(e) && ir[|ir| - 1].dest == Some(TempName(g.temps + Temps(e) - 1))
      && r.gen.ir == ir[..|ir| - 1] + [ir[|ir| - 1].(dest := Some(x))]
      && r.gen.symbols == g.symbols + TempEntries(g.temps, Temps(e) - 1) + [SymbolInfo(x, VarSymbol, false)]
  {
    LowerArithmetic(e, g);
    ElisionOfTemps(x, g, Lower(e, g), Temps(e), Lower(VarDecl(x, e), g));
  }

  /** A declaration whose initializer wrote `n` temporaries, the last one holding its value. */
  lemma {:induction false} ElisionOfTemps(x: string, g: Gen, init: Lowered, n: nat, r: Lowered)
    requires n >= 1 && Appended(g, init.gen, n) && init.name == Some(TempName(g.temps + n - 1))
    requires forall j :: 0 <= j < |g.symbols| ==> g.symbols[j].name != TempName(g.temps + n - 1)
    requires r == LowerDecl(x, init)
    ensures var ir := init.gen.ir;
      && r.name == Some(x) && r.gen.temps == g.temps + n
      && |ir| == |g.ir| + n && ir[|ir| - 1].dest == Some(TempName(g.temps + n - 1))
      && r.gen.ir == ir[..|ir| - 1] + [ir[|ir| - 1].(dest := Some(x))]
      && r.gen.symbols == g.symbols + TempEntries(g.temps, n - 1) + [SymbolInfo(x, VarSymbol, false)]
  {
    var v := TempName(g.temps + n - 1);
    var prefix := LastTemp(g, init.gen, n);
    DeclElision(x, init, v, prefix, r);
  }

  /**
   * Without elision (the initializer is a name the last instruction did not
   * write, or does not start with "temp"), a declaration appends one `id`
   * copy and one `var` entry.
   */
  lemma {:induction false} DeclCopies(x: string, init: Node, g: Gen)
    requires Truthy(Lower(init, g).name) && !Elides(Lower(init, g).gen, Lower(init, g).name.value)
    ensures var r, i := Lower(VarDecl(x, init), g), Lower(init, g);
      && r.name == Some(x) && r.gen.temps == i.gen.temps
      && r.gen.ir == i.gen.ir + [Instr(Id, Some(x), Some([i.name]), None)]
      && r.gen.symbols == i.gen.symbols + [SymbolInfo(x, VarSymbol, false)]
  {
  }

  /** An initializer that yields no name (a call) leaves the declared name unregistered and emits no copy. */
  lemma {:induction false} DeclOfNothing(x: string, init: Node, g: Gen)
    requires !Truthy(Lower(init, g).name)
    ensures Lower(VarDecl(x, init), g) == Lowered(Some(x), Lower(init, g).gen)
  {
  }

  /**
   * The elision test looks at the name only: a program variable called
   * `temp9` passes it. Here `let temp9 = 5; let y = temp9;` ends with a
   * single instruction writing `y`: the instruction that wrote `temp9` is
   * taken over and `temp9` leaves the symbol table, so it is unbound in any
   * later statement.
   */
  lemma {:induction false} TempNamedVariable()
    ensures Generated([VarDecl("temp9", Literal(5)), VarDecl("y", Identifier("temp9"))])
      == Gen([Instr(Const, Some("y"), None, Some(5))], [SymbolInfo("y", VarSymbol, false)], 1)
  {
    var g0 := Gen([], [], 0);
    var g1 := Gen([Instr(Const, Some("temp9"), None, Some(5))], [SymbolInfo("temp9", VarSymbol, false)], 1);
    assert TempName(0) == "temp0";
    assert Lower(Literal(5), g0) == Lowered(Some("temp0"), Gen([Instr(Const, Some("temp0"), None, Some(5))], [SymbolInfo("temp0", TempSymbol, false)], 1));
    assert RemoveSymbol([SymbolInfo("temp0", TempSymbol, false)], "temp0") == [];
    assert Lower(VarDecl("temp9", Literal(5)), g0).gen == g1;
    assert RemoveSymbol(g1.symbols, "temp9") == [];
    assert Lower(VarDecl("y", Identifier("temp9")), g1).gen == Gen([Instr(Const, Some("y"), None, Some(5))], [SymbolInfo("y", VarSymbol, false)], 1);
    var body := [VarDecl("temp9", Literal(5)), VarDecl("y", Identifier("temp9"))];
    assert body[..1] == [VarDecl("temp9", Literal(5))] && body[..1][..0] == [];
    assert LowerAll(body[..1], Start) == g1;
  }

  // ----------------------------------------------------------------- calls

  /**
   * A `print` call lowers its arguments and appends one `print` with no
   * destination and their names; any other callee emits nothing and does
   * not lower its arguments. Either way the call yields no name.
   */
  lemma {:induction false} CallLowering(callee: string, args: seq<Node>, g: Gen)
    ensures var r, a := Lower(CallExpr(callee, args), g), LowerArgs(args, g);
      && r.name == None
      && (callee == "print" ==> r.gen == a.gen.(ir := a.gen.ir + [Instr(Print, None, Some(a.names), None)]))
      && (callee != "print" ==> r.gen == g)
  {
  }

  /** Arguments are visited left to right: each in the state the ones before it left. */
  lemma {:induction false} ArgsInOrder(args: seq<Node>, g: Gen, i: nat)
    requires i < |args|
    ensures LowerArgs(args, g).names[i] == Lower(args[i], LowerArgs(args[..i], g).gen).name
    decreases |args|
  {
    var front := args[..|args| - 1];
    if i < |args| - 1 {
      ArgsInOrder(front, g, i);
      assert front[i] == args[i] && front[..i] == args[..i];
    }
  }

  // ------------------------------------------------ well-formed instructions

  /** A `print` has no destination; every other instruction has a known opcode and a destination. */
  predicate WellFormedInstr(instr: Instr)
  {
    if instr.op == Print then instr.dest == None && instr.args.Some?
    else instr.op != Unknown && instr.dest.Some?
  }

  predicate WellFormedIR(ir: seq<Instr>)
  {
    forall j :: 0 <= j < |ir| ==> WellFormedInstr(ir[j])
  }

  lemma {:induction false} WellFormedAppend(ir: seq<Instr>, instr: Instr)
    requires WellFormedIR(ir) && WellFormedInstr(instr)
    ensures WellFormedIR(ir + [instr])
  {
    assert forall j :: 0 <= j < |ir| ==> (ir + [instr])[j] == ir[j];
  }

  /** Lowering a statement the parser can build emits well-formed instructions only. */
  lemma {:induction false} LowerWellFormed(n: Node, g: Gen)
    requires IsStatement(n) && WellFormedIR(g.ir)
    ensures WellFormedIR(Lower(n, g).gen.ir)
    decreases n, 1
  {
    match n
    case VarDecl(x, init) =>
      LowerWellFormed(init, g);
      var i := Lower(init, g);
      if Truthy(i.name) {
        var ir := i.gen.ir;
        if Elides(i.gen, i.name.value) {
          var last := |ir| - 1;
          assert WellFormedInstr(ir[last]);
          assert forall j :: 0 <= j < |ir| ==> ir[last := ir[last].(dest := Some(x))][j] == if j == last then ir[last].(dest := Some(x)) else ir[j];
        } else {
          WellFormedAppend(ir, Instr(Id, Some(x), Some([i.name]), None));
        }
      }
    case BinaryExpr(l, r, op) =>
      LowerWellFormed(l, g);
      LowerWellFormed(r, Lower(l, g).gen);
      var instr := BinaryShape(l, r, op, g);
      WellFormedAppend(Lower(r, Lower(l, g).gen).gen.ir, instr);
    case Literal(v) =>
      WellFormedAppend(g.ir, Instr(Const, Some(TempName(g.temps)), None, Some(v)));
    case Identifier(_) =>
    case CallExpr(callee, args) =>
      if callee == "print" {
        LowerArgsWellFormed(args, g);
        var a := LowerArgs(args, g);
        WellFormedAppend(a.gen.ir, Instr(Print, None, Some(a.names), None));
      }
    case Program(_) =>
  }

  lemma {:induction false} LowerArgsWellFormed(args: seq<Node>, g: Gen)
    requires (forall a | a in args :: IsExpr(a)) && WellFormedIR(g.ir)
    ensures WellFormedIR(LowerArgs(args, g).gen.ir)
    decreases args
  {
    if args != [] {
      var front := args[..|args| - 1];
      assert forall a | a in front :: a in args;
      LowerArgsWellFormed(front, g);
      assert args[|args| - 1] in args;
      LowerWellFormed(args[|args| - 1], LowerArgs(front, g).gen);
    }
  }

  /** Every element of a list of statements is one. */
  lemma {:induction false} StatementsEach(ss: seq<Node>, i: nat)
    requires AllStatements(ss) && i < |ss|
    ensures IsStatement(ss[i])
    decreases i
  {
    if i > 0 {
      StatementsEach(ss[1..], i - 1);
    }
  }

  /** A parsed program lowers to well-formed instructions only: every operator has an opcode. */
  lemma {:induction false} GeneratedWellFormed(ss: seq<Node>)
    requires AllStatements(ss)
    ensures WellFormedIR(Generated(ss).ir)
  {
    LowerAllWellFormed(ss, |ss|);
    assert ss[..|ss|] == ss;
  }

  lemma {:induction false} LowerAllWellFormed(ss: seq<Node>, i: nat)
    requires AllStatements(ss) && i <= |ss|
    ensures WellFormedIR(LowerAll(ss[..i], Start).ir)
  {
    if i > 0 {
      LowerAllWellFormed(ss, i - 1);
      assert ss[..i][..i - 1] == ss[..i - 1];
      StatementsEach(ss, i - 1);
      LowerWellFormed(ss[i - 1], LowerAll(ss[..i - 1], Start));
    }
  }
}
