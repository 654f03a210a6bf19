/**
 * Dead-code elimination over the IR (`optimizeIR`).
 *
 * One pass collects every argument of every instruction, then keeps an
 * instruction when it is a `print`, when it has no destination, or when its
 * destination is among the collected arguments. `Dce` repeats passes until
 * one removes nothing; `OptimizeIR` is the loop that does this and counts
 * what it removed.
 */
module Optimizer {
  import opened Types

  // ------------------------------------------------------------ one pass

  /** What `instr.args.forEach(arg => usedVariables.add(arg))` adds, `null`s included. */
  function ArgsOf(instr: Instr): set<Arg>
  {
    if instr.args.None? then {} else set a | a in instr.args.value
  }

  /** Pass 1: the arguments of all instructions of `ir`. */
  function UsedIn(ir: seq<Instr>): set<Arg>
    decreases |ir|
  {
    if ir == [] then {} else UsedIn(ir[..|ir| - 1]) + ArgsOf(ir[|ir| - 1])
  }

  /** Whether pass 2 keeps `instr`: a `print`, no (truthy) destination, or a destination in `used`. */
  predicate Keep(instr: Instr, used: set<Arg>)
  {
    instr.op == Print || !Truthy(instr.dest) || instr.dest in used
  }

  /** Pass 2: the instructions of `ir` that `Keep` accepts, in order. */
  function Pass(ir: seq<Instr>, used: set<Arg>): (r: seq<Instr>)
    ensures |r| <= |ir|
    decreases |ir|
  {
    if ir == [] then []
    else
      var front := Pass(ir[..|ir| - 1], used);
      if Keep(ir[|ir| - 1], used) then front + [ir[|ir| - 1]] else front
  }

  /** One iteration of the `while (changed)` loop. */
  function Sweep(ir: seq<Instr>): seq<Instr>
  {
    Pass(ir, UsedIn(ir))
  }

  /** Sweeps until one removes nothing. */
  function Dce(ir: seq<Instr>): seq<Instr>
    decreases |ir|
  {
    var next := Sweep(ir);
    if |next| == |ir| then ir else Dce(next)
  }

  // ------------------------------------------------------------ the loop

  /** A pass that removes nothing returns its input. */
  lemma {:induction false} PassFull(ir: seq<Instr>, used: set<Arg>)
    ensures |Pass(ir, used)| == |ir| <==> forall j :: 0 <= j < |ir| ==> Keep(ir[j], used)
    ensures |Pass(ir, used)| == |ir| ==> Pass(ir, used) == ir
    decreases |ir|
  {
    if ir != [] {
      var front := ir[..|ir| - 1];
      PassFull(front, used);
      assert forall j :: 0 <= j < |front| ==> front[j] == ir[j];
      assert ir == front + [ir[|ir| - 1]];
    }
  }

  /**
   * `optimizeIR`: the input is copied, never changed; the result is `Dce`
   * of it, and the count is the number of instructions removed.
   */
  method OptimizeIR(instructions: seq<Instr>) returns (optimizedIr: seq<Instr>, removedCount: nat)
    ensures optimizedIr == Dce(instructions)
    ensures removedCount == |instructions| - |optimizedIr|
  {
    var currentIr := instructions;
    var removedTotal := 0;
    var changed := true;
    while changed
      invariant Dce(currentIr) == Dce(instructions)
      invariant |currentIr| <= |instructions| && removedTotal == |instructions| - |currentIr|
      invariant !changed ==> Dce(currentIr) == currentIr
      decreases |currentIr| + if changed then 1 else 0
    {
      changed := false;
      var usedVariables := CollectUsed(currentIr);
      var nextIr := [];
      ghost var removedBefore := removedTotal;
      var i := 0;
      while i < |currentIr|
        invariant 0 <= i <= |currentIr|
        invariant nextIr == Pass(currentIr[..i], usedVariables)
        invariant removedTotal == removedBefore + i - |nextIr|
        invariant changed <==> |nextIr| < i
      {
        var instr := currentIr[i];
        assert currentIr[..i + 1][..i] == currentIr[..i];
        if instr.op == Print {
          nextIr := nextIr + [instr];
        } else if instr.dest.Some? && instr.dest.value != "" {
          if instr.dest in usedVariables {
            nextIr := nextIr + [instr];
          } else {
            changed := true;
            removedTotal := removedTotal + 1;
          }
        } else {
          nextIr := nextIr + [instr];
        }
        i := i + 1;
      }
      assert currentIr[..i] == currentIr;
      PassFull(currentIr, usedVariables);
      currentIr := nextIr;
    }
    return currentIr, removedTotal;
  }

  /** Pass 1 as the source does it: every argument of every instruction, one at a time. */
  method CollectUsed(ir: seq<Instr>) returns (usedVariables: set<Arg>)
    ensures usedVariables == UsedIn(ir)
  {
    usedVariables := {};
    var i := 0;
    while i < |ir|
      invariant 0 <= i <= |ir|
      invariant usedVariables == UsedIn(ir[..i])
    {
      assert ir[..i + 1][..i] == ir[..i];
      if ir[i].args.Some? {
        var args := ir[i].args.value;
        ghost var before := usedVariables;
        var j := 0;
        while j < |args|
          invariant 0 <= j <= |args|
          invariant usedVariables == before + set a | a in args[..j]
        {
          assert args[..j + 1] == args[..j] + [args[j]];
          usedVariables := usedVariables + {args[j]};
          j := j + 1;
        }
        assert args[..j] == args;
      }
      i := i + 1;
    }
    assert ir[..i] == ir;
  }
}

/** What dead-code elimination keeps, removes and leaves alone. */
module OptimizerProperties {
  import opened Types
  import opened Optimizer

  // ----------------------------------------------------------- subsequence

  /** `a` is `b` with some elements left out, the rest in their order. */
  ghost predicate Subseq<T>(a: seq<T>, b: seq<T>)
    decreases |b|
  {
    a == [] || (b != [] &&
      ((a[|a| - 1] == b[|b| - 1] && Subseq(a[..|a| - 1], b[..|b| - 1])) || Subseq(a, b[..|b| - 1])))
  }

  lemma {:induction false} SubseqRefl<T>(a: seq<T>)
    ensures Subseq(a, a)
    decreases |a|
  {
    if a != [] {
      SubseqRefl(a[..|a| - 1]);
    }
  }

  lemma {:induction false} SubseqTrans<T>(a: seq<T>, b: seq<T>, c: seq<T>)
    requires Subseq(a, b) && Subseq(b, c)
    ensures Subseq(a, c)
    decreases |c|
  {
    if a != [] {
      var b', c' := b[..|b| - 1], c[..|c| - 1];
      if b[|b| - 1] == c[|c| - 1] && Subseq(b', c') {
        if a[|a| - 1] == b[|b| - 1] && Subseq(a[..|a| - 1], b') {
          SubseqTrans(a[..|a| - 1], b', c');
        } else {
          SubseqTrans(a, b', c');
        }
      } else {
        SubseqTrans(a, b, c');
      }
    }
  }

  /** Every element of a subsequence is an element of the whole. */
  lemma {:induction false} SubseqIn<T>(a: seq<T>, b: seq<T>, x: T)
    requires Subseq(a, b) && x in a
    ensures x in b
    decreases |b|
  {
    var b' := b[..|b| - 1];
    if a[|a| - 1] == b[|b| - 1] && Subseq(a[..|a| - 1], b') {
      if x != a[|a| - 1] {
        assert a == a[..|a| - 1] + [a[|a| - 1]];
        SubseqIn(a[..|a| - 1], b', x);
      }
      assert b == b' + [b[|b| - 1]];
    } else {
      SubseqIn(a, b', x);
      assert b == b' + [b[|b| - 1]];
    }
  }

  /** A pass keeps a subsequence of its input. */
  lemma {:induction false} PassSubseq(ir: seq<Instr>, used: set<Arg>)
    ensures Subseq(Pass(ir, used), ir)
    decreases |ir|
  {
    if ir != [] {
      var front := ir[..|ir| - 1];
      PassSubseq(front, used);
      var p := Pass(front, used);
      if Keep(ir[|ir| - 1], used) {
        assert (p + [ir[|ir| - 1]])[..|p|] == p;
      }
    }
  }

  /** Dead-code elimination keeps a subsequence of its input: nothing is added, moved or altered. */
  lemma {:induction false} DceSubseq(ir: seq<Instr>)
    ensures Subseq(Dce(ir), ir)
    decreases |ir|
  {
    if |Sweep(ir)| == |ir| {
      SubseqRefl(ir);
    } else {
      PassSubseq(ir, UsedIn(ir));
      DceSubseq(Sweep(ir));
      SubseqTrans(Dce(Sweep(ir)), Sweep(ir), ir);
    }
  }

  // ---------------------------------------------------------- side effects

  /** The instructions no pass can remove: prints and instructions without a destination. */
  function Effects(ir: seq<Instr>): seq<Instr>
  {
    Pass(ir, {})
  }

  lemma {:induction false} PassEffects(ir: seq<Instr>, used: set<Arg>)
    ensures Effects(Pass(ir, used)) == Effects(ir)
    decreases |ir|
  {
    if ir != [] {
      var front := ir[..|ir| - 1];
      PassEffects(front, used);
      var p := Pass(front, used);
      if Keep(ir[|ir| - 1], used) {
        assert (p + [ir[|ir| - 1]])[..|p|] == p;
      }
    }
  }

  /** Every print, and every instruction without a destination, survives, in the same order. */
  lemma {:induction false} DceEffects(ir: seq<Instr>)
    ensures Effects(Dce(ir)) == Effects(ir)
    decreases |ir|
  {
    if |Sweep(ir)| != |ir| {
      PassEffects(ir, UsedIn(ir));
      DceEffects(Sweep(ir));
    }
  }

  // ---------------------------------------------------------- the fixpoint

  /** An argument is used exactly when some instruction has it among its arguments. */
  lemma {:induction false} UsedInMeans(ir: seq<Instr>, a: Arg)
    ensures a in UsedIn(ir) <==> exists j :: 0 <= j < |ir| && a in ArgsOf(ir[j])
    decreases |ir|
  {
    if ir != [] {
      var front := ir[..|ir| - 1];
      UsedInMeans(front, a);
      assert forall j :: 0 <= j < |front| ==> front[j] == ir[j];
      if a in ArgsOf(ir[|ir| - 1]) {
        assert 0 <= |ir| - 1 < |ir|;
      }
    }
  }

  /** On exit a sweep removes nothing more. */
  lemma {:induction false} DceFixpoint(ir: seq<Instr>)
    ensures Sweep(Dce(ir)) == Dce(ir)
    decreases |ir|
  {
    if |Sweep(ir)| == |ir| {
      PassFull(ir, UsedIn(ir));
    } else {
      DceFixpoint(Sweep(ir));
    }
  }

  /**
   * On exit, the destination of every surviving instruction other than a
   * print is among the arguments of some surviving instruction.
   */
  lemma DceLive(ir: seq<Instr>, i: nat)
    requires i < |Dce(ir)| && Dce(ir)[i].op != Print && Truthy(Dce(ir)[i].dest)
    ensures exists j :: 0 <= j < |Dce(ir)| && Dce(ir)[i].dest in ArgsOf(Dce(ir)[j])
  {
    var out := Dce(ir);
    DceFixpoint(ir);
    PassFull(out, UsedIn(out));
    assert Keep(out[i], UsedIn(out));
    UsedInMeans(out, out[i].dest);
  }

  /** Optimizing the output again changes nothing. */
  lemma DceIdempotent(ir: seq<Instr>)
    ensures Dce(Dce(ir)) == Dce(ir)
  {
    DceFixpoint(ir);
  }

  /**
   * The loop stops: a pass that removes something is strictly shorter, and
   * one that removes nothing returns its input.
   */
  lemma SweepShrinks(ir: seq<Instr>)
    ensures Sweep(ir) != ir <==> |Sweep(ir)| < |ir|
  {
    PassFull(ir, UsedIn(ir));
  }

  // -------------------------------------------------------------- liveness

  lemma {:induction false} ArgsInUsed(ir: seq<Instr>, j: nat)
    requires j < |ir|
    ensures ArgsOf(ir[j]) <= UsedIn(ir)
  {
    UsedInMeans(ir, None);
    forall a | a in ArgsOf(ir[j])
      ensures a in UsedIn(ir)
    {
      UsedInMeans(ir, a);
    }
  }

  /** A pass keeps every instruction `Keep` accepts. */
  lemma {:induction false} PassKeeps(ir: seq<Instr>, used: set<Arg>, x: Instr)
    requires x in ir && Keep(x, used)
    ensures x in Pass(ir, used)
    decreases |ir|
  {
    var front := ir[..|ir| - 1];
    if x != ir[|ir| - 1] {
      assert ir == front + [ir[|ir| - 1]];
      PassKeeps(front, used, x);
    }
  }

  /** An instruction that uses its own destination is never removed: liveness is membership only. */
  lemma {:induction false} SelfUseKept(ir: seq<Instr>, x: Instr)
    requires x in ir && Truthy(x.dest) && x.dest in ArgsOf(x)
    ensures x in Dce(ir)
    decreases |ir|
  {
    if |Sweep(ir)| != |ir| {
      var j :| 0 <= j < |ir| && ir[j] == x;
      ArgsInUsed(ir, j);
      PassKeeps(ir, UsedIn(ir), x);
      SelfUseKept(Sweep(ir), x);
    }
  }

  /** A use before the definition counts: `print [x]` then `const x 5` keeps both. */
  lemma UseBeforeDefinition()
    ensures var ir := [Instr(Print, None, Some([Some("x")]), None), Instr(Const, Some("x"), None, Some(5))];
      Dce(ir) == ir
  {
    var ir := [Instr(Print, None, Some([Some("x")]), None), Instr(Const, Some("x"), None, Some(5))];
    assert ArgsOf(ir[0]) == {Some("x")};
    assert ir[..1][..0] == [] && ir[..1] == [ir[0]];
    assert UsedIn(ir) == {Some("x")};
    assert Sweep(ir) == ir;
  }
}
