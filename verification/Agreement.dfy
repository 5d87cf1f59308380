/** The two compilers agree: on the fragment both handle, the stack code and the register code of an
    expression compute the same value, and fail on the same inputs.
 */
module Agreement {
  import opened Ast
  import StackBuild
  import StackCode
  import StackExpr
  import StackPatch
  import StackProgram
  import Compilation
  import RegCode
  import RegExpr
  import RegisterCompiler

  lemma CompilersAgree(svm: StackCode.Vm, rvm: RegCode.RegVm, e: Expr, globals: map<string, Value>, regs: RegCode.Regs)
    returns (j: nat, k: nat)
    requires svm.p == rvm.p && StackCode.Wired(svm) && RegCode.RegWired(rvm)
    requires StackExpr.Placed(svm.prog, e, [], StackCode.Pools([], []), 0)
    requires RegCode.Simple(e) && RegExpr.ExprProgAt(rvm.prog.code, e)
    requires RegCode.NoClobber(e, 0) && RegCode.RegFits(e, []) && RegCode.RegConsts(e, []) <= rvm.prog.consts
    ensures var s := StackCode.Run(svm, StackCode.Machine(0, [], globals), j);
            var r := RegCode.RegRun(rvm, RegCode.RegMachine(0, regs, globals), k);
            && (s.Crashed? <==> r.Failed?) && (s.Running? <==> r.Returned?) && (s.Crashed? || s.Running?)
            && (s.Running? ==> s.m == StackCode.Machine(StackCode.SizeExpr(e), [r.v], globals) && r.m.regs[0] == r.v)
  {
    hide StackCode.Run, RegCode.RegRun, StackExpr.Placed, RegExpr.ExprProgAt, RegCode.NoClobber, RegCode.RegFits, RegCode.RegConsts, EvalExpr;
    var env := Env(globals, []);
    assert StackExpr.State(env, [], 0) == StackCode.Machine(0, [], globals);
    j := StackExpr.ExprRuns(svm, e, env, [], StackCode.Pools([], []), 0, []);
    k := RegExpr.ExprReturns(rvm, e, regs, globals);
    RegExpr.NoEffect(svm.p, e, env);
    var v := EvalExpr(svm.p, e, env);
    if v.Ok? {
      assert StackExpr.State(v.env, [] + [v.v], StackCode.SizeExpr(e)).stack == [v.v];
    }
  }

  // Both machines come to the same: a value, halted with it on the stack and returned in r0, or an error.
  ghost predicate Agree(svm: StackCode.Vm, rvm: RegCode.RegVm, globals: map<string, Value>, regs: RegCode.Regs) {
    exists j, k ::
      var s, r := StackCode.Run(svm, StackProgram.Start(globals), j), RegCode.RegRun(rvm, RegCode.RegMachine(0, regs, globals), k);
      || (s.Crashed? && r.Failed?)
      || (s.Halted? && r.Returned? && s.m.stack == [r.v] && s.m.globals == globals && r.m.regs[0] == r.v)
  }

  // The machines are alike but for the code they run.
  ghost predicate Alike(svm: StackCode.Vm, rvm: RegCode.RegVm, s: StackCode.Prog, r: RegCode.RegProg) {
    svm.p == rvm.p && StackCode.Wired(svm) && RegCode.RegWired(rvm) && svm.prog == s && rvm.prog == r
  }

  lemma AgreeAll(e: Expr, svm: StackCode.Vm, rvm: RegCode.RegVm, globals: map<string, Value>, regs: RegCode.Regs)
    requires RegCode.Simple(e) && Alike(svm, rvm, svm.prog, rvm.prog)
    requires StackProgram.ProgramPlaced(svm.prog, Then(Eval(e), Done), StackCode.Pools([], []), 0)
    requires RegExpr.ExprProgAt(rvm.prog.code, e) && RegCode.NoClobber(e, 0) && RegCode.RegFits(e, []) && RegCode.RegConsts(e, []) <= rvm.prog.consts
    ensures Agree(svm, rvm, globals, regs)
  {
    hide StackCode.Run, RegCode.RegRun, RegExpr.ExprProgAt, RegCode.NoClobber, RegCode.RegFits, RegCode.RegConsts, StackCode.Wired, RegCode.RegWired;
    AlonePlaced(svm.prog, e);
    var m := StackProgram.Start(globals);
    var j, k := CompilersAgree(svm, rvm, e, globals, regs);
    var s := StackCode.Run(svm, m, j);
    if s.Running? {
      StackProgram.HaltStep(svm, s.m);
      StackExpr.RunThen(svm, m, j, s.m, 1);
      j := j + 1;
    }
    var t, r := StackCode.Run(svm, m, j), RegCode.RegRun(rvm, RegCode.RegMachine(0, regs, globals), k);
    assert (t.Crashed? && r.Failed?) || (t.Halted? && r.Returned? && t.m.stack == [r.v] && t.m.globals == globals && r.m.regs[0] == r.v);
  }

  lemma AlonePlaced(prog: StackCode.Prog, e: Expr)
    requires StackProgram.ProgramPlaced(prog, Then(Eval(e), Done), StackCode.Pools([], []), 0)
    ensures StackExpr.Placed(prog, e, [], StackCode.Pools([], []), 0) && StackCode.OpAt(prog.code, StackCode.SizeExpr(e), StackCode.OP_HALT)
  {
    hide StackCode.ExprAt, StackCode.ExprFits, StackCode.ExprPools, StackCode.SizeExpr, StackCode.OpAt;
    var ss, pools := Then(Eval(e), Done), StackCode.Pools([], []);
    AloneFits(e);
    assert StackCode.ListPools(ss, StackCode.TOP, pools) == StackCode.StmtPools(Eval(e), StackCode.TOP, pools) == StackCode.ExprPools(e, [], pools);
    assert StackCode.ExprAt(prog.code, 0, e, [], pools);
    assert StackCode.SizeProgram(ss) == StackCode.SizeExpr(e) + 1;
  }

  lemma AloneFits(e: Expr)
    ensures var ss, pools := Then(Eval(e), Done), StackCode.Pools([], []);
            && (StackPatch.ListOk(ss, StackCode.TOP, [], 0, pools) <==> StackBuild.ExprOk(e, [], pools))
            && (StackCode.ListFits(ss, StackCode.TOP, pools) <==> StackCode.ExprFits(e, [], pools))
  {
    hide StackBuild.ExprOk, StackCode.ExprFits;
    assert StackPatch.StmtOk(Eval(e), StackCode.TOP, [], 0, StackCode.Pools([], [])) == StackBuild.ExprOk(e, [], StackCode.Pools([], []));
  }

  // What the two compilers emit for an expression agrees on every machine, for all globals, whatever the
  // operators mean, if the operands fit and no register is overwritten.
  method CompileBoth(e: Expr) returns (s: Option<StackCode.Prog>, r: Option<RegCode.RegProg>)
    requires RegCode.Simple(e)
    ensures s.None? <==> !StackBuild.ExprOk(e, [], StackCode.Pools([], []))
    ensures r.None? <==> !RegisterCompiler.ConstsOk(e, [])
    ensures s.Some? && r.Some? && StackCode.ExprFits(e, [], StackCode.Pools([], [])) && RegCode.RegFits(e, []) && RegCode.NoClobber(e, 0) ==>
              forall svm, rvm, globals, regs {:trigger Agree(svm, rvm, globals, regs)} ::
                Alike(svm, rvm, s.value, r.value) ==> Agree(svm, rvm, globals, regs)
  {
    hide StackBuild.ExprOk, RegisterCompiler.ConstsOk, StackCode.ExprFits, RegCode.RegFits, RegCode.NoClobber, RegCode.RegConsts, Agree,
         StackCode.ListFits, StackPatch.ListOk, StackProgram.ProgramPlaced, RegExpr.ExprProgAt, StackCode.ProgramAt, StackCode.ListPools, StackCode.SizeProgram;
    AloneFits(e);
    s := Compilation.Compile(Then(Eval(e), Done));
    r := RegisterCompiler.CompileExpression(e);
    if s.Some? && r.Some? && StackCode.ExprFits(e, [], StackCode.Pools([], [])) && RegCode.RegFits(e, []) && RegCode.NoClobber(e, 0) {
      forall svm, rvm, globals, regs | Alike(svm, rvm, s.value, r.value) ensures Agree(svm, rvm, globals, regs) {
        AgreeAll(e, svm, rvm, globals, regs);
      }
    }
  }
}
