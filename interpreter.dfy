/**
 * Execution of the IR (`executeIR`).
 *
 * The state is the variable environment (a map from names to integers) and
 * the lines printed so far. `Step` is the effect of one instruction, `Run`
 * of a list of them, and `Execute` adds the closing message for a program
 * that printed nothing. Division by zero, where the source computes with
 * floating-point infinities, stops the run with an error instead.
 */
module Interpreter {
  import opened Types
  import opened Numeric

  type Env = map<string, int>

  /** The environment `env` and the output lines `logs`. */
  datatype Machine = Machine(env: Env, logs: seq<string>)

  /** The instruction at `index` divided by zero. */
  datatype RunError = DivisionByZero(index: nat)

  const Empty := Machine(map[], [])

  /** The line printed when no `print` ran. */
  const NoOutput := "Programa executado com sucesso (Sem saída)."

  // ------------------------------------------------------------- values

  /** `env.get(arg)`: the value bound to a name, if any (a `null` argument is never bound). */
  function Lookup(env: Env, a: Arg): Option<int>
  {
    if a.Some? && a.value in env then Some(env[a.value]) else None
  }

  /** `env.get(arg) ?? 0`. */
  function ValueOr0(env: Env, a: Arg): int
  {
    var v := Lookup(env, a);
    if v.Some? then v.value else 0
  }

  /** How `Array.join` renders one value: its decimal text, or nothing for `undefined`. */
  function Render(v: Option<int>): string
  {
    if v.Some? then ShowInt(v.value) else ""
  }

  /** `args.map(arg => env.get(arg)).join(' ')`. */
  function Line(env: Env, args: seq<Arg>): string
    decreases |args|
  {
    if |args| == 0 then ""
    else if |args| == 1 then Render(Lookup(env, args[0]))
    else Line(env, args[..|args| - 1]) + " " + Render(Lookup(env, args[|args| - 1]))
  }

  /** `v1 op v2` for the four arithmetic opcodes; `None` for a division by zero. */
  function Arith(op: Opcode, v1: int, v2: int): Option<int>
    requires op in {Add, Sub, Mul, Div}
  {
    match op
    case Add => Some(v1 + v2)
    case Sub => Some(v1 - v2)
    case Mul => Some(v1 * v2)
    case Div => if v2 == 0 then None else Some(FloorDiv(v1, v2))
  }

  // -------------------------------------------------------------- steps

  /** One iteration of the `for` loop: `None` when it divides by zero. */
  function Step(m: Machine, instr: Instr): Option<Machine>
  {
    match instr.op
    case Const =>
      if Truthy(instr.dest) && instr.value.Some? then Some(m.(env := m.env[instr.dest.value := instr.value.value]))
      else Some(m)
    case Id =>
      if Truthy(instr.dest) && instr.args.Some? && |instr.args.value| > 0 then
        var v := Lookup(m.env, instr.args.value[0]);
        if v.Some? then Some(m.(env := m.env[instr.dest.value := v.value])) else Some(m)
      else Some(m)
    case Print =>
      if instr.args.Some? then Some(m.(logs := m.logs + [Line(m.env, instr.args.value)])) else Some(m)
    case Unknown =>
      Some(m)
    case _ =>
      if Truthy(instr.dest) && instr.args.Some? && |instr.args.value| == 2 then
        var res := Arith(instr.op, ValueOr0(m.env, instr.args.value[0]), ValueOr0(m.env, instr.args.value[1]));
        if res.Some? then Some(m.(env := m.env[instr.dest.value := res.value])) else None
      else Some(m)
  }

  /** The instructions run in order from `m`. */
  function Run(ir: seq<Instr>, m: Machine): Result<Machine, RunError>
    decreases |ir|
  {
    if ir == [] then Ok(m)
    else
      match Run(ir[..|ir| - 1], m)
      case Err(e) => Err(e)
      case Ok(before) =>
        var after := Step(before, ir[|ir| - 1]);
        if after.Some? then Ok(after.value) else Err(DivisionByZero(|ir| - 1))
  }

  /** `executeIR`: the lines printed, or the closing message when there are none. */
  function Execute(ir: seq<Instr>): Result<seq<string>, RunError>
  {
    match Run(ir, Empty)
    case Err(e) => Err(e)
    case Ok(m) => Ok(if m.logs == [] then [NoOutput] else m.logs)
  }

  /** A run that failed stays failed: later instructions do not run. */
  lemma {:induction false} ErrorStops(ir: seq<Instr>, i: nat, m: Machine)
    requires i <= |ir| && Run(ir[..i], m).Err?
    ensures Run(ir, m) == Run(ir[..i], m)
    decreases |ir| - i
  {
    if i < |ir| {
      assert ir[..i + 1][..i] == ir[..i];
      ErrorStops(ir, i + 1, m);
    } else {
      assert ir[..i] == ir;
    }
  }

  // ------------------------------------------------------------- the loop

  method ExecuteIR(instructions: seq<Instr>) returns (r: Result<seq<string>, RunError>)
    ensures r == Execute(instructions)
  {
    var env: Env := map[];
    var logs: seq<string> := [];
    for i := 0 to |instructions|
      invariant Run(instructions[..i], Empty) == Ok(Machine(env, logs))
    {
      assert instructions[..i + 1][..i] == instructions[..i];
      var instr := instructions[i];
      if instr.op == Const {
        if instr.dest.Some? && instr.dest.value != "" && instr.value.Some? {
          env := env[instr.dest.value := instr.value.value];
        }
      } else if instr.op == Id {
        if instr.dest.Some? && instr.dest.value != "" && instr.args.Some? && |instr.args.value| > 0 {
          var val := Lookup(env, instr.args.value[0]);
          if val.Some? {
            env := env[instr.dest.value := val.value];
          }
        }
      } else if instr.op in {Add, Sub, Mul, Div} {
        if instr.dest.Some? && instr.dest.value != "" && instr.args.Some? && |instr.args.value| == 2 {
          var v1 := ValueOr0(env, instr.args.value[0]);
          var v2 := ValueOr0(env, instr.args.value[1]);
          var res := 0;
          if instr.op == Add { res := v1 + v2; }
          if instr.op == Sub { res := v1 - v2; }
          if instr.op == Mul { res := v1 * v2; }
          if instr.op == Div {
            if v2 == 0 {
              assert Run(instructions[..i + 1], Empty) == Err(DivisionByZero(i));
              ErrorStops(instructions, i + 1, Empty);
              return Err(DivisionByZero(i));
            }
            res := FloorDiv(v1, v2);
          }
          env := env[instr.dest.value := res];
        }
      } else if instr.op == Print {
        if instr.args.Some? {
          var line := PrintLine(env, instr.args.value);
          logs := logs + [line];
        }
      }
    }
    assert instructions[..|instructions|] == instructions;
    assert Run(instructions, Empty) == Ok(Machine(env, logs));
    if |logs| == 0 {
      assert logs == [];
      logs := logs + [NoOutput];
      assert logs == [NoOutput];
    }
    return Ok(logs);
  }

  /** `values.join(' ')`, one value at a time. */
  method PrintLine(env: Env, args: seq<Arg>) returns (line: string)
    ensures line == Line(env, args)
  {
    line := "";
    for k := 0 to |args|
      invariant line == Line(env, args[..k])
    {
      assert args[..k + 1][..k] == args[..k];
      if k > 0 {
        line := line + " ";
      }
      line := line + Render(Lookup(env, args[k]));
    }
    assert args[..|args|] == args;
  }
}

/** What one instruction, and a whole run, can and cannot change. */
module InterpreterProperties {
  import opened Types
  import opened Numeric
  import opened Interpreter

  /** The names an instruction may bind: its destination, when it has one. */
  function Writes(instr: Instr): set<string>
  {
    if Truthy(instr.dest) then {instr.dest.value} else {}
  }

  /**
   * One step changes at most the destination's binding, keeps every other
   * binding, and only a `print` adds output: exactly the line of its
   * arguments, or nothing when it has none.
   */
  lemma StepFrame(m: Machine, instr: Instr)
    requires Step(m, instr).Some?
    ensures var m' := Step(m, instr).value;
      && m'.env.Keys <= m.env.Keys + Writes(instr)
      && (forall x :: x in m.env && x !in Writes(instr) ==> x in m'.env && m'.env[x] == m.env[x])
      && (instr.op != Print ==> m'.logs == m.logs)
      && (instr.op == Print && instr.args.Some? ==> m'.logs == m.logs + [Line(m.env, instr.args.value)])
      && (instr.op == Print && instr.args.None? ==> m' == m)
  {
  }

  /**
   * The instructions that do nothing: an unknown opcode, an instruction
   * other than `print` without a destination, a `const` without a value,
   * an `id` without arguments or with an unbound source, an arithmetic
   * instruction without exactly two arguments, a `print` without arguments.
   */
  lemma NoOp(m: Machine, instr: Instr)
    requires || instr.op == Unknown
             || (instr.op != Print && !Truthy(instr.dest))
             || (instr.op == Const && instr.value.None?)
             || (instr.op == Id && (instr.args.None? || |instr.args.value| == 0 || Lookup(m.env, instr.args.value[0]).None?))
             || (instr.op in {Add, Sub, Mul, Div} && (instr.args.None? || |instr.args.value| != 2))
             || (instr.op == Print && instr.args.None?)
    ensures Step(m, instr) == Some(m)
  {
  }

  /** `id` copies its source's value into the destination when the source is bound. */
  lemma IdCopies(m: Machine, d: string, src: string, rest: seq<Arg>)
    requires d != "" && src in m.env
    ensures Step(m, Instr(Id, Some(d), Some([Some(src)] + rest), None)) == Some(m.(env := m.env[d := m.env[src]]))
  {
  }

  /**
   * Arithmetic reads an unbound operand as 0; a step fails exactly when it
   * is a well-formed `div` whose divisor is 0, and `div` rounds towards
   * minus infinity.
   */
  lemma ArithmeticStep(m: Machine, instr: Instr)
    requires instr.op in {Add, Sub, Mul, Div} && Truthy(instr.dest)
    requires instr.args.Some? && |instr.args.value| == 2
    ensures var v1, v2 := ValueOr0(m.env, instr.args.value[0]), ValueOr0(m.env, instr.args.value[1]);
      && (Step(m, instr).None? <==> instr.op == Div && v2 == 0)
      && (Step(m, instr).Some? ==> Step(m, instr).value.logs == m.logs && instr.dest.value in Step(m, instr).value.env)
      && (Step(m, instr).Some? && instr.op == Div ==> var q := Step(m, instr).value.env[instr.dest.value];
            (v2 > 0 ==> q * v2 <= v1 < q * v2 + v2) && (v2 < 0 ==> q * v2 + v2 < v1 <= q * v2))
      && (instr.op == Add ==> Step(m, instr).value.env[instr.dest.value] == v1 + v2)
      && (instr.op == Sub ==> Step(m, instr).value.env[instr.dest.value] == v1 - v2)
      && (instr.op == Mul ==> Step(m, instr).value.env[instr.dest.value] == v1 * v2)
  {
  }

  // --------------------------------------------------------------- output

  /** A line is the rendered values of two argument lists joined by one space. */
  lemma {:induction false} LineConcat(env: Env, a: seq<Arg>, b: seq<Arg>)
    requires a != [] && b != []
    ensures Line(env, a + b) == Line(env, a) + " " + Line(env, b)
    decreases |b|
  {
    var ab := a + b;
    assert ab[..|ab| - 1] == a + b[..|b| - 1];
    if |b| == 1 {
      assert ab[..|ab| - 1] == a;
    } else {
      LineConcat(env, a, b[..|b| - 1]);
    }
  }

  /** Unbound arguments render as nothing: `print(u, v)` with both unbound prints one space. */
  lemma UnboundArgs(env: Env, u: string, v: string)
    requires u !in env && v !in env
    ensures Line(env, [Some(u), Some(v)]) == " "
  {
    assert [Some(u), Some(v)][..1] == [Some(u)];
  }

  /** How many `print`s with arguments `ir` holds: each adds one line. */
  function Prints(ir: seq<Instr>): nat
    decreases |ir|
  {
    if ir == [] then 0
    else Prints(ir[..|ir| - 1]) + if ir[|ir| - 1].op == Print && ir[|ir| - 1].args.Some? then 1 else 0
  }

  /** A run only appends to the output: one line per `print` executed, in order. */
  lemma {:induction false} RunLogs(ir: seq<Instr>, m: Machine)
    requires Run(ir, m).Ok?
    ensures var logs := Run(ir, m).value.logs;
      |logs| == |m.logs| + Prints(ir) && logs[..|m.logs|] == m.logs
    decreases |ir|
  {
    if ir != [] {
      var front := ir[..|ir| - 1];
      RunLogs(front, m);
      StepFrame(Run(front, m).value, ir[|ir| - 1]);
    }
  }

  /** The output is the closing message exactly when no `print` ran, and one line per `print` otherwise. */
  lemma ExecuteOutput(ir: seq<Instr>)
    requires Execute(ir).Ok?
    ensures Prints(ir) == 0 ==> Execute(ir).value == [NoOutput]
    ensures Prints(ir) > 0 ==> |Execute(ir).value| == Prints(ir) && Execute(ir).value == Run(ir, Empty).value.logs
  {
    RunLogs(ir, Empty);
  }
}
