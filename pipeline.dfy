/**
 * Lemmas across phases: every token list the lexer produces is one the
 * parser accepts as input, dead-code elimination does not change what a
 * program prints, and the playground's sample program (App.tsx) lowers to
 * the expected IR, loses its one dead instruction to the optimizer, and
 * prints `30` both before and after.
 */
module Pipeline {
  import opened Types
  import opened Generator
  import opened GeneratorProperties
  import opened Optimizer
  import opened Interpreter
  import opened Numeric
  import Lexer
  import LexerProperties
  import Parser
  import ParserProperties
  import Syntax

  // ------------------------------------------------ lexer to parser

  /**
   * What the lexer returns is what the parser needs: a list ending with the
   * EOF token whose number tokens are non-empty runs of digits.
   */
  lemma LexWellFormed(s: string)
    ensures Lexer.Lex(s).Ok? ==> Parser.WellFormedTokens(Lexer.Lex(s).value)
  {
    assert s[..0] == [];
    LexerProperties.ScanSound(s, 0, 1);
    LexerProperties.LexEndsWithEof(s);
    if Lexer.Lex(s).Ok? {
      var ls := Lexer.Scan(s, 0, 1).value;
      var ts := Lexer.Lex(s).value;
      assert ts == Lexer.Tokens(ls);
      forall k | 0 <= k < |ts| && ts[k].kind == Number
        ensures |ts[k].value| > 0 && AllDigits(ts[k].value)
      {
        assert ts[k] == ls[k].token;
        assert LexerProperties.WellLocated(s, ls[k]);
      }
    }
  }

  /**
   * From source text to IR: a text that tokenizes is either rejected by the
   * parser with an error quoting one of its tokens, or parsed into a
   * program of well-formed statements, which lowers to well-formed
   * instructions only.
   */
  lemma SourceToIR(s: string)
    requires Lexer.Lex(s).Ok?
    ensures Parser.WellFormedTokens(Lexer.Lex(s).value)
    ensures match Parser.ParseProgram(Lexer.Lex(s).value, 0)
            case Ok(prog) => prog.Program? && Syntax.AllStatements(prog.body) && WellFormedIR(Generated(prog.body).ir)
            case Err(e) => ParserProperties.Reports(Lexer.Lex(s).value, 0, e)
  {
    var ts := Lexer.Lex(s).value;
    LexWellFormed(s);
    ParserProperties.ParseProgramSound(ts);
    if Parser.ParseProgram(ts, 0).Ok? {
      var body := Parser.ParseProgram(ts, 0).value.body;
      Syntax.AllStatementsIn(body);
      GeneratedWellFormed(body);
    }
  }

  // ------------------------------------------------ DCE preserves output

  /** Two environments that agree on every name of `used`. */
  ghost predicate Agree(e1: Env, e2: Env, used: set<Arg>)
  {
    forall x :: Some(x) in used ==> (x in e1 <==> x in e2) && (x in e1 ==> e1[x] == e2[x])
  }

  /** Arguments drawn from `used` read the same in environments that agree on `used`. */
  lemma {:induction false} AgreeLine(e1: Env, e2: Env, used: set<Arg>, args: seq<Arg>)
    requires Agree(e1, e2, used) && forall a :: a in args ==> a in used
    ensures Line(e1, args) == Line(e2, args)
    ensures forall a :: a in args ==> Lookup(e1, a) == Lookup(e2, a)
    decreases |args|
  {
    if |args| > 1 {
      AgreeLine(e1, e2, used, args[..|args| - 1]);
    }
  }

  /** An instruction whose arguments are in `used` steps alike from states that agree on `used`. */
  lemma KeptStep(m1: Machine, m2: Machine, used: set<Arg>, instr: Instr)
    requires Agree(m1.env, m2.env, used) && m1.logs == m2.logs
    requires ArgsOf(instr) <= used
    requires Step(m1, instr).Some?
    ensures Step(m2, instr).Some?
    ensures Agree(Step(m1, instr).value.env, Step(m2, instr).value.env, used)
    ensures Step(m1, instr).value.logs == Step(m2, instr).value.logs
  {
    if instr.args.Some? {
      AgreeLine(m1.env, m2.env, used, instr.args.value);
    }
  }

  /** An instruction that `Pass` drops binds a name outside `used` and prints nothing. */
  lemma DroppedStep(m1: Machine, m2: Machine, used: set<Arg>, instr: Instr)
    requires Agree(m1.env, m2.env, used) && m1.logs == m2.logs
    requires !Keep(instr, used)
    requires Step(m1, instr).Some?
    ensures Agree(Step(m1, instr).value.env, m2.env, used)
    ensures Step(m1, instr).value.logs == m2.logs
  {
  }

  /**
   * Running the instructions that one pass keeps, with every argument of the
   * program in `used`, ends in a state that agrees on `used` and has printed
   * the same lines, whenever the whole program runs to its end.
   */
  lemma {:induction false} PassRun(ir: seq<Instr>, used: set<Arg>, m1: Machine, m2: Machine)
    requires UsedIn(ir) <= used
    requires Agree(m1.env, m2.env, used) && m1.logs == m2.logs
    requires Run(ir, m1).Ok?
    ensures Run(Pass(ir, used), m2).Ok?
    ensures Agree(Run(ir, m1).value.env, Run(Pass(ir, used), m2).value.env, used)
    ensures Run(ir, m1).value.logs == Run(Pass(ir, used), m2).value.logs
    decreases |ir|
  {
    if ir != [] {
      var front, last := ir[..|ir| - 1], ir[|ir| - 1];
      assert UsedIn(front) <= UsedIn(ir);
      PassRun(front, used, m1, m2);
      var s1, s2 := Run(front, m1).value, Run(Pass(front, used), m2).value;
      var kept := Pass(front, used);
      if Keep(last, used) {
        assert (kept + [last])[..|kept + [last]| - 1] == kept;
        KeptStep(s1, s2, used, last);
      } else {
        DroppedStep(s1, s2, used, last);
      }
    }
  }

  /** One sweep does not change what a program that runs to its end prints. */
  lemma SweepRun(ir: seq<Instr>)
    requires Run(ir, Empty).Ok?
    ensures Run(Sweep(ir), Empty).Ok?
    ensures Run(Sweep(ir), Empty).value.logs == Run(ir, Empty).value.logs
  {
    PassRun(ir, UsedIn(ir), Empty, Empty);
  }

  /**
   * Dead-code elimination preserves the observable behaviour: a program
   * that runs without dividing by zero prints exactly the same lines once
   * optimized.
   */
  lemma {:induction false} DcePreservesOutput(ir: seq<Instr>)
    requires Execute(ir).Ok?
    ensures Execute(Dce(ir)) == Execute(ir)
    decreases |ir|
  {
    var next := Sweep(ir);
    if |next| != |ir| {
      SweepRun(ir);
      DcePreservesOutput(next);
    }
  }

  // ------------------------------------------------------ sample program

  /** The statements of App.tsx's `INITIAL_CODE`: `let x = 10; let y = 20; let z = 30; let res = x + y; print(res);`. */
  const Sample: seq<Node> := [
    VarDecl("x", Literal(10)),
    VarDecl("y", Literal(20)),
    VarDecl("z", Literal(30)),
    VarDecl("res", BinaryExpr(Identifier("x"), Identifier("y"), "+")),
    CallExpr("print", [Identifier("res")])
  ]

  /** The instructions the sample lowers to: every temporary is elided into its variable. */
  const SampleIR: seq<Instr> := [
    Instr(Const, Some("x"), None, Some(10)),
    Instr(Const, Some("y"), None, Some(20)),
    Instr(Const, Some("z"), None, Some(30)),
    Instr(Add, Some("res"), Some([Some("x"), Some("y")]), None),
    Instr(Print, None, Some([Some("res")]), None)
  ]

  /** `generate` visits the statements one after the other. */
  lemma LowerAllStep(body: seq<Node>, g: Gen, k: nat)
    requires k < |body|
    ensures LowerAll(body[..k + 1], g) == Lower(body[k], LowerAll(body[..k], g)).gen
  {
    assert body[..k + 1][..k] == body[..k];
  }

  /** `let x = <literal>;` when no symbol bears the next temporary's name: the literal's temporary is renamed to `x`. */
  lemma DeclLiteral(x: string, v: int, g: Gen)
    requires forall j :: 0 <= j < |g.symbols| ==> g.symbols[j].name != TempName(g.temps)
    ensures Lower(VarDecl(x, Literal(v)), g).gen
         == Gen(g.ir + [Instr(Const, Some(x), None, Some(v))], g.symbols + [SymbolInfo(x, VarSymbol, false)], g.temps + 1)
  {
    var t := TempName(g.temps);
    var lit := Instr(Const, Some(t), None, Some(v));
    var init := Lower(Literal(v), g);
    assert init == Lowered(Some(t), Gen(g.ir + [lit], g.symbols + [SymbolInfo(t, TempSymbol, false)], g.temps + 1));
    DeclElision(x, init, t, g.symbols, Lower(VarDecl(x, Literal(v)), g));
    assert (g.ir + [lit])[..|g.ir|] == g.ir;
  }

  /** The symbol table after the sample: one `var` entry per variable, the temporaries all removed. */
  const SampleSymbols: seq<SymbolInfo> := [
    SymbolInfo("x", VarSymbol, false), SymbolInfo("y", VarSymbol, false),
    SymbolInfo("z", VarSymbol, false), SymbolInfo("res", VarSymbol, false)
  ]

  /** `let x = 10;` */
  lemma SampleDeclX()
    ensures LowerAll(Sample[..1], Start) == Gen([SampleIR[0]], [SampleSymbols[0]], 1)
  {
    assert Sample[..0] == [];
    LowerAllStep(Sample, Start, 0);
    DeclLiteral("x", 10, Start);
  }

  /** `let y = 20;` */
  lemma SampleDeclY()
    ensures LowerAll(Sample[..2], Start) == Gen([SampleIR[0], SampleIR[1]], [SampleSymbols[0], SampleSymbols[1]], 2)
  {
    SampleDeclX();
    LowerAllStep(Sample, Start, 1);
    DeclLiteral("y", 20, Gen([SampleIR[0]], [SampleSymbols[0]], 1));
  }

  /** `let z = 30;`: the three literal declarations each become one `const` writing the variable. */
  lemma SampleDecls()
    ensures LowerAll(Sample[..3], Start)
         == Gen([SampleIR[0], SampleIR[1], SampleIR[2]], [SampleSymbols[0], SampleSymbols[1], SampleSymbols[2]], 3)
  {
    SampleDeclY();
    LowerAllStep(Sample, Start, 2);
    DeclLiteral("z", 30, Gen([SampleIR[0], SampleIR[1]], [SampleSymbols[0], SampleSymbols[1]], 2));
  }

  /** `let res = x + y;` adds `temp3 = x + y` and renames `temp3` to `res`. */
  lemma SampleSum()
    ensures Lower(Sample[3], Gen([SampleIR[0], SampleIR[1], SampleIR[2]], [SampleSymbols[0], SampleSymbols[1], SampleSymbols[2]], 3)).gen
         == Gen(SampleIR[..4], SampleSymbols, 4)
  {
    var g3 := Gen([SampleIR[0], SampleIR[1], SampleIR[2]], [SampleSymbols[0], SampleSymbols[1], SampleSymbols[2]], 3);
    var t := TempName(3);
    var sum := BinaryShape(Identifier("x"), Identifier("y"), "+", g3);
    var init := Lower(BinaryExpr(Identifier("x"), Identifier("y"), "+"), g3);
    assert init == Lowered(Some(t), Gen(g3.ir + [sum], g3.symbols + [SymbolInfo(t, TempSymbol, false)], 4));
    assert t == "temp3";
    DeclElision("res", init, t, g3.symbols, Lower(Sample[3], g3));
    assert (g3.ir + [sum])[..3] == g3.ir;
  }

  /** `print(res);` appends `print [res]` and changes nothing else. */
  lemma SamplePrint()
    ensures Lower(Sample[4], Gen(SampleIR[..4], SampleSymbols, 4)).gen == Gen(SampleIR, SampleSymbols, 4)
  {
    var g4 := Gen(SampleIR[..4], SampleSymbols, 4);
    assert [Identifier("res")][..0] == [];
    assert LowerArgs([Identifier("res")], g4) == LoweredArgs([Some("res")], g4);
  }

  /** The sample lowers to `SampleIR`, with one `var` entry per variable and four temporaries used. */
  lemma SampleGenerated()
    ensures Generated(Sample) == Gen(SampleIR, SampleSymbols, 4)
  {
    SampleDecls();
    LowerAllStep(Sample, Start, 3);
    SampleSum();
    LowerAllStep(Sample, Start, 4);
    SamplePrint();
    assert Sample[..5] == Sample;
  }

  /** Pass 1 over one more instruction adds that instruction's arguments. */
  lemma UsedInSnoc(ir: seq<Instr>, instr: Instr)
    ensures UsedIn(ir + [instr]) == UsedIn(ir) + ArgsOf(instr)
  {
    assert (ir + [instr])[..|ir|] == ir;
  }

  /** Pass 2 over one more instruction decides that instruction alone. */
  lemma PassSnoc(ir: seq<Instr>, used: set<Arg>, instr: Instr)
    ensures Pass(ir + [instr], used) == Pass(ir, used) + if Keep(instr, used) then [instr] else []
  {
    assert (ir + [instr])[..|ir|] == ir;
  }

  /** Running one more instruction takes one more step. */
  lemma RunSnoc(ir: seq<Instr>, m: Machine, instr: Instr)
    requires Run(ir, m).Ok? && Step(Run(ir, m).value, instr).Some?
    ensures Run(ir + [instr], m) == Ok(Step(Run(ir, m).value, instr).value)
  {
    assert (ir + [instr])[..|ir|] == ir;
  }

  /** The arguments of the whole sample: `x` and `y` (read by the sum) and `res` (printed). */
  lemma SampleUsed(ir: seq<Instr>)
    requires ir == SampleIR || ir == SampleIR[..2] + SampleIR[3..]
    ensures UsedIn(ir) == {Some("x"), Some("y"), Some("res")}
  {
    var add, show := SampleIR[3], SampleIR[4];
    assert ArgsOf(add) == {Some("x"), Some("y")} by {
      assert add.args.value == [Some("x"), Some("y")];
    }
    assert ArgsOf(show) == {Some("res")} by {
      assert show.args.value == [Some("res")];
    }
    var front := ir[..|ir| - 2];
    assert ir == front + [add] + [show];
    assert UsedIn(front) == {} by {
      if |front| == 3 {
        assert front == [] + [SampleIR[0]] + [SampleIR[1]] + [SampleIR[2]];
        UsedInSnoc([] + [SampleIR[0]] + [SampleIR[1]], SampleIR[2]);
        UsedInSnoc([] + [SampleIR[0]], SampleIR[1]);
        UsedInSnoc([], SampleIR[0]);
      } else {
        assert front == [] + [SampleIR[0]] + [SampleIR[1]];
        UsedInSnoc([] + [SampleIR[0]], SampleIR[1]);
        UsedInSnoc([], SampleIR[0]);
      }
    }
    UsedInSnoc(front + [add], show);
    UsedInSnoc(front, add);
  }

  /** One sweep removes the dead `z`; the next removes nothing. */
  lemma SampleOptimized()
    ensures Dce(SampleIR) == SampleIR[..2] + SampleIR[3..]
  {
    var used := {Some("x"), Some("y"), Some("res")};
    var once := SampleIR[..2] + SampleIR[3..];
    SampleUsed(SampleIR);
    SampleUsed(once);
    var p0 := [] + [SampleIR[0]];
    var p1 := p0 + [SampleIR[1]];
    var p2 := p1 + [SampleIR[2]];
    var p3 := p2 + [SampleIR[3]];
    assert SampleIR == p3 + [SampleIR[4]];
    assert once == p1 + [SampleIR[3]] + [SampleIR[4]];
    PassSnoc([], used, SampleIR[0]);
    PassSnoc(p0, used, SampleIR[1]);
    PassSnoc(p1, used, SampleIR[2]);
    PassSnoc(p2, used, SampleIR[3]);
    PassSnoc(p3, used, SampleIR[4]);
    PassSnoc(p1, used, SampleIR[3]);
    PassSnoc(p1 + [SampleIR[3]], used, SampleIR[4]);
    assert Sweep(SampleIR) == once;
    assert Sweep(once) == once;
  }

  /** `print(res)` with `res` bound to 30 prints the line `30`. */
  lemma PrintRes(env: Env, logs: seq<string>)
    requires "res" in env && env["res"] == 30
    ensures Step(Machine(env, logs), SampleIR[4]) == Some(Machine(env, logs + ["30"]))
  {
    assert ShowInt(30) == "30";
    assert Line(env, [Some("res")]) == "30";
  }

  /** The sample binds `x`, `y` and the dead `z`, then `res` to 30, and prints `30`. */
  lemma SampleRuns()
    ensures Execute(SampleIR) == Ok(["30"])
  {
    var p0 := [] + [SampleIR[0]];
    var p1 := p0 + [SampleIR[1]];
    var p2 := p1 + [SampleIR[2]];
    var p3 := p2 + [SampleIR[3]];
    var env := map[]["x" := 10]["y" := 20]["z" := 30]["res" := 30];
    RunSnoc([], Empty, SampleIR[0]);
    RunSnoc(p0, Empty, SampleIR[1]);
    RunSnoc(p1, Empty, SampleIR[2]);
    RunSnoc(p2, Empty, SampleIR[3]);
    assert Run(p3, Empty) == Ok(Machine(env, []));
    PrintRes(env, []);
    assert [] + ["30"] == ["30"];
    RunSnoc(p3, Empty, SampleIR[4]);
    assert SampleIR == p3 + [SampleIR[4]];
    assert Run(SampleIR, Empty) == Ok(Machine(env, ["30"]));
  }

  /** Without the dead `const z 30` the sample still prints `30`. */
  lemma SampleOptimizedRuns()
    ensures Execute(SampleIR[..2] + SampleIR[3..]) == Ok(["30"])
  {
    var p0 := [] + [SampleIR[0]];
    var p1 := p0 + [SampleIR[1]];
    var p2 := p1 + [SampleIR[3]];
    var env := map[]["x" := 10]["y" := 20]["res" := 30];
    RunSnoc([], Empty, SampleIR[0]);
    RunSnoc(p0, Empty, SampleIR[1]);
    RunSnoc(p1, Empty, SampleIR[3]);
    assert Run(p2, Empty) == Ok(Machine(env, []));
    PrintRes(env, []);
    assert [] + ["30"] == ["30"];
    RunSnoc(p2, Empty, SampleIR[4]);
    assert SampleIR[..2] + SampleIR[3..] == p2 + [SampleIR[4]];
    assert Run(p2 + [SampleIR[4]], Empty) == Ok(Machine(env, ["30"]));
  }

  /**
   * `let x = 10; let y = 20; let z = 30; let res = x + y; print(res);`
   * lowers to five instructions, the optimizer removes the dead `z` and
   * nothing else, and the program prints `30` before and after.
   */
  lemma SampleProgram()
    ensures Generated(Sample) == Gen(SampleIR, SampleSymbols, 4)
    ensures |Generated(Sample).ir| - |Dce(Generated(Sample).ir)| == 1
    ensures Execute(Generated(Sample).ir) == Ok(["30"])
    ensures Execute(Dce(Generated(Sample).ir)) == Ok(["30"])
  {
    SampleGenerated();
    SampleOptimized();
    SampleRuns();
    SampleOptimizedRuns();
  }
}
