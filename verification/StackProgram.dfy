/** Whole programs: a compiled program halts, crashes or runs on exactly as its execution does. */
module StackProgram {
  import opened Ast
  import opened StackCode
  import opened StackExpr
  import opened StackStmt

  // The code of the program, all of it, with every operand fitting its 16 bits.
  ghost predicate ProgramPlaced(prog: Prog, ss: Stmts, pools: Pools, a: nat) {
    && ListFits(ss, TOP, pools) && ProgramAt(prog.code, a, ss, pools)
    && Has(prog, ListPools(ss, TOP, pools)) && a + SizeProgram(ss) <= |prog.code|
  }

  // The value of the program's final expression, or what its final conditional leaves, if it ends in one and
  // gets to its end.
  function Answer(p: Prims, ss: Stmts, env: Env, fuel: nat): Option<Value> {
    match ss
    case Done => None
    case Then(s, rest) =>
      if rest.Done? then
        if s.Eval? && EvalExpr(p, s.e, env).Ok? then Some(EvalExpr(p, s.e, env).v)
        else if s.IfStmt? && ExecIf(p, s.branch, env, fuel).Normal? then Some(IfValue(p, s.branch, env, fuel))
        else None
      else
        match Exec(p, s, env, true, fuel)
        case Normal(env1) => Answer(p, rest, env1, fuel)
        case _ => None
  }

  function Only(v: Option<Value>): seq<Value> {
    if v.Some? then [v.value] else []
  }

  // How a whole program ends: halted with the globals of the execution, nothing but the answer on
  // the stack; crashed; or still running.
  ghost predicate Finishes(vm: Vm, m: Machine, k: nat, o: Outcome, fuel: nat, answer: Option<Value>) {
    match o
    case Normal(env) =>
      && Run(vm, m, k).Halted? && Run(vm, m, k).m.globals == env.globals
      && Run(vm, m, k).m.stack == Only(answer)
    case Error => Run(vm, m, k) == Crashed
    case OutOfFuel => k >= fuel && Run(vm, m, k).Running?
    case _ => false
  }

  lemma HaltStep(vm: Vm, m: Machine)
    requires Wired(vm) && OpAt(vm.prog.code, m.pc, OP_HALT)
    ensures Run(vm, m, 1) == Halted(m.(pc := m.pc + 1))
  {
    OneStep(vm, m);
  }

  lemma Halts(vm: Vm, m: Machine, k: nat, o: Outcome, fuel: nat, answer: Option<Value>, temps: seq<Value>, end: nat) returns (k': nat)
    requires Wired(vm) && OpAt(vm.prog.code, end, OP_HALT)
    requires Ends(vm, m, k, o, fuel, [], [], None, temps, end) && (o.Normal? ==> temps == Only(answer))
    ensures Finishes(vm, m, k', o, fuel, answer)
  {
    hide Run, OpAt, Wired;
    k' := k;
    if o.Normal? {
      var m1 := State(o.env, temps, end);
      HaltStep(vm, m1);
      RunThen(vm, m, k, m1, 1);
      assert Vals(o.env.locals) + temps == temps;
      k' := k + 1;
    }
  }

  lemma FinishesAfter(vm: Vm, m: Machine, j: nat, m1: Machine, k: nat, o: Outcome, fuel: nat, answer: Option<Value>)
    requires Run(vm, m, j) == Running(m1) && Finishes(vm, m1, k, o, fuel, answer)
    ensures Finishes(vm, m, j + k, o, fuel, answer)
  {
    RunThen(vm, m, j, m1, k);
  }

  lemma EndsFinishes(vm: Vm, m: Machine, k: nat, o: Outcome, fuel: nat, end: nat)
    requires !o.Normal? && Ends(vm, m, k, o, fuel, [], [], None, [], end)
    ensures Finishes(vm, m, k, o, fuel, None)
  {
  }

  predicate Final(ss: Stmts) {
    ss.Done? || ((ss.head.Eval? || ss.head.IfStmt?) && ss.tail.Done?)
  }

  lemma NotFinal(ss: Stmts)
    requires !Final(ss)
    ensures ss.Then?
  {
  }

  lemma ProgramParts(prog: Prog, ss: Stmts, pools: Pools, a: nat)
    requires ProgramPlaced(prog, ss, pools, a) && !Final(ss)
    ensures StmtPlaced(prog, ss.head, TOP, None, pools, a)
    ensures ProgramPlaced(prog, ss.tail, StmtPools(ss.head, TOP, pools), a + SizeStmt(ss.head, TOP))
    ensures After(ss.head, TOP) == TOP
  {
    hide StmtAt, StmtFits, StmtPools, SizeStmt, ExprAt, IfAt;
    ListPoolsGrow(ss.tail, TOP, StmtPools(ss.head, TOP, pools));
  }

  lemma AnswerMeaning(p: Prims, ss: Stmts, env: Env, fuel: nat)
    requires !Final(ss)
    ensures var o := Exec(p, ss.head, env, true, fuel);
            && (o.Normal? && ss.tail.Done? ==> Answer(p, ss, env, fuel) == None == Answer(p, ss.tail, o.env, fuel))
            && (o.Normal? && ss.tail.Then? ==> Answer(p, ss, env, fuel) == Answer(p, ss.tail, o.env, fuel))
            && (!o.Normal? ==> Answer(p, ss, env, fuel) == None)
  {
  }

  lemma TopFacts(env: Env)
    requires env.locals == []
    ensures Names(TOP.locals, env) && TOP.locals == [] && TOP.depth == 0 && Kept(TOP) == []
  {
  }

  lemma NoLocals(env: Env)
    requires Names([], env)
    ensures env.locals == []
  {
  }

  lemma FinalRuns(vm: Vm, ss: Stmts, env: Env, pools: Pools, a: nat, fuel: nat) returns (k: nat)
    requires Wired(vm) && env.locals == [] && Final(ss) && ProgramPlaced(vm.prog, ss, pools, a)
    ensures Finishes(vm, State(env, [], a), k, ExecList(vm.p, ss, env, true, fuel), fuel, Answer(vm.p, ss, env, fuel))
  {
    hide Run, Wired, OpAt, ExprAt, IfAt, IfFits, ExprFits, Exec, ExecIf, IfValue, Finishes, Lands;
    TopFacts(env);
    var m, o := State(env, [], a), ExecList(vm.p, ss, env, true, fuel);
    match ss
    case Done =>
      NoneRuns(vm, ss, env, TOP, None, a, fuel);
      k := Halts(vm, m, 0, o, fuel, None, [], a);
    case Then(s, _) =>
      ListMeaning(vm.p, ss, env, true, fuel);
      assert ListPools(ss, TOP, pools) == StmtPools(s, TOP, pools);
      if s.Eval? {
        assert StmtFits(s, TOP, pools);
        k := ExprRuns(vm, s.e, env, [], pools, a, []);
        var temps := LastEnds(vm, m, k, s, env, fuel, a + SizeExpr(s.e));
        k := Halts(vm, m, k, o, fuel, Answer(vm.p, ss, env, fuel), temps, a + SizeExpr(s.e));
      } else {
        var v;
        assert StmtFits(s, TOP, pools);
        assert Exec(vm.p, s, env, true, fuel) == ExecIf(vm.p, s.branch, env, fuel) by { NestedMeaning(vm.p, s, env, true, fuel); }
        k, v := IfRuns(vm, s.branch, env, TOP, None, pools, a, fuel);
        k := Halts(vm, m, k, o, fuel, Answer(vm.p, ss, env, fuel), [v], a + SizeIf(s.branch, TOP));
      }
  }

  lemma LastEnds(vm: Vm, m: Machine, k: nat, s: Stmt, env: Env, fuel: nat, end: nat) returns (temps: seq<Value>)
    requires s.Eval? && Lands(vm, m, k, EvalExpr(vm.p, s.e, env), [], [], end)
    ensures Ends(vm, m, k, Exec(vm.p, s, env, true, fuel), fuel, [], [], None, temps, end)
    ensures EvalExpr(vm.p, s.e, env).Ok? ==> temps == [EvalExpr(vm.p, s.e, env).v]
    ensures Exec(vm.p, s, env, true, fuel).Normal? <==> EvalExpr(vm.p, s.e, env).Ok?
  {
    var r := EvalExpr(vm.p, s.e, env);
    temps := if r.Ok? then [r.v] else [];
    if r.Ok? {
      assert [] + [r.v] == [r.v];
    }
  }

  // For every program, every starting globals and every fuel.
  lemma {:induction false} ProgramRuns(vm: Vm, ss: Stmts, env: Env, pools: Pools, a: nat, fuel: nat) returns (k: nat)
    requires Wired(vm) && env.locals == [] && ProgramPlaced(vm.prog, ss, pools, a)
    ensures Finishes(vm, State(env, [], a), k, ExecList(vm.p, ss, env, true, fuel), fuel, Answer(vm.p, ss, env, fuel))
    decreases ss
  {
    hide *;
    if Final(ss) {
      k := FinalRuns(vm, ss, env, pools, a, fuel);
    } else {
      NotFinal(ss);
      TopFacts(env);
      ProgramParts(vm.prog, ss, pools, a);
      ListMeaning(vm.p, ss, env, true, fuel);
      AnswerMeaning(vm.p, ss, env, fuel);
      var m, o, b := State(env, [], a), Exec(vm.p, ss.head, env, true, fuel), a + SizeStmt(ss.head, TOP);
      k := StmtRuns(vm, ss.head, env, TOP, None, pools, a, fuel);
      if o.Normal? {
        EndsNormal(vm, m, k, o, fuel, [], [], None, [], b);
        NoLocals(o.env);
        var j := ProgramRuns(vm, ss.tail, o.env, StmtPools(ss.head, TOP, pools), b, fuel);
        FinishesAfter(vm, m, k, State(o.env, [], b), j, ExecList(vm.p, ss.tail, o.env, true, fuel), fuel, Answer(vm.p, ss.tail, o.env, fuel));
        k := k + j;
      } else {
        EndsFinishes(vm, m, k, o, fuel, b);
      }
    }
  }

  // A stopped machine stays stopped.
  lemma {:induction false} Stopped(vm: Vm, m: Machine, k: nat, j: nat)
    requires !Run(vm, m, k).Running? && k <= j
    ensures Run(vm, m, j) == Run(vm, m, k)
    decreases k
  {
    if k > 0 && vm.step(m).Running? {
      Stopped(vm, vm.step(m).m, k - 1, j - 1);
    }
  }

  lemma Once(vm: Vm, m: Machine, k: nat, j: nat)
    requires !Run(vm, m, k).Running? && !Run(vm, m, j).Running?
    ensures Run(vm, m, k) == Run(vm, m, j)
  {
    if k <= j {
      Stopped(vm, m, k, j);
    } else {
      Stopped(vm, m, j, k);
    }
  }

  // The machine starts at the first byte with an empty stack.
  function Start(globals: map<string, Value>): Machine {
    Machine(0, [], globals)
  }

  function Execute(p: Prims, ss: Stmts, globals: map<string, Value>, fuel: nat): Outcome {
    ExecList(p, ss, Env(globals, []), true, fuel)
  }

  // Whatever the machine comes to, the execution comes to, and the other way round.
  lemma ProgramAgrees(vm: Vm, ss: Stmts, globals: map<string, Value>, k: nat) returns (fuel: nat)
    requires Wired(vm) && ProgramPlaced(vm.prog, ss, Pools([], []), 0) && !Run(vm, Start(globals), k).Running?
    ensures var r, o := Run(vm, Start(globals), k), Execute(vm.p, ss, globals, fuel);
            && (r.Crashed? <==> o.Error?) && (r.Halted? <==> o.Normal?)
            && (r.Halted? ==> r.m.globals == o.env.globals && r.m.stack == Only(Answer(vm.p, ss, Env(globals, []), fuel)))
  {
    fuel := k;
    var env := Env(globals, []);
    assert State(env, [], 0) == Start(globals);
    var j := ProgramRuns(vm, ss, env, Pools([], []), 0, fuel);
    var o := Execute(vm.p, ss, globals, fuel);
    if o.OutOfFuel? {
      Stopped(vm, Start(globals), k, j);
      assert false;
    }
    Once(vm, Start(globals), k, j);
  }

  lemma StillRunning(vm: Vm, ss: Stmts, globals: map<string, Value>, k: nat)
    requires Wired(vm) && ProgramPlaced(vm.prog, ss, Pools([], []), 0) && Execute(vm.p, ss, globals, k).OutOfFuel?
    ensures Run(vm, Start(globals), k).Running?
  {
    hide ProgramPlaced, Wired;
    assert State(Env(globals, []), [], 0) == Start(globals);
    var j := ProgramRuns(vm, ss, Env(globals, []), Pools([], []), 0, k);
    if !Run(vm, Start(globals), k).Running? {
      Stopped(vm, Start(globals), k, j);
    }
  }

  lemma StillOut(vm: Vm, ss: Stmts, globals: map<string, Value>, fuel: nat)
    requires Wired(vm) && ProgramPlaced(vm.prog, ss, Pools([], []), 0) && Forever(vm, Start(globals))
    ensures Execute(vm.p, ss, globals, fuel).OutOfFuel?
  {
    hide ProgramPlaced, Wired, Run;
    assert State(Env(globals, []), [], 0) == Start(globals);
    var j := ProgramRuns(vm, ss, Env(globals, []), Pools([], []), 0, fuel);
    assert Run(vm, Start(globals), j).Running?;
  }

  ghost predicate Forever(vm: Vm, m: Machine) {
    forall k: nat :: Run(vm, m, k).Running?
  }

  ghost predicate NeverEnds(p: Prims, ss: Stmts, globals: map<string, Value>) {
    forall fuel: nat :: Execute(p, ss, globals, fuel).OutOfFuel?
  }

  // The machine runs for ever exactly if the execution never ends.
  lemma ProgramDiverges(vm: Vm, ss: Stmts, globals: map<string, Value>)
    requires Wired(vm) && ProgramPlaced(vm.prog, ss, Pools([], []), 0)
    ensures Forever(vm, Start(globals)) <==> NeverEnds(vm.p, ss, globals)
  {
    hide Run, Execute, Start, Wired, ProgramPlaced;
    if Forever(vm, Start(globals)) {
      forall fuel: nat ensures Execute(vm.p, ss, globals, fuel).OutOfFuel? {
        StillOut(vm, ss, globals, fuel);
      }
    }
    if NeverEnds(vm.p, ss, globals) {
      forall k: nat ensures Run(vm, Start(globals), k).Running? {
        assert Execute(vm.p, ss, globals, k).OutOfFuel?;
        StillRunning(vm, ss, globals, k);
      }
    }
  }

  // What the compiler produces is placed, whenever its operands fit 16 bits.
  lemma CompiledPlaced(prog: Prog, ss: Stmts)
    requires ProgramAt(prog.code, 0, ss, Pools([], [])) && |prog.code| == SizeProgram(ss)
    requires Pools(prog.consts, prog.strings) == ListPools(ss, TOP, Pools([], [])) && ListFits(ss, TOP, Pools([], []))
    ensures ProgramPlaced(prog, ss, Pools([], []), 0)
  {
    hide ProgramAt, SizeProgram, ListPools, ListFits;
  }

  // if true { let x = 1; x + 1 } is answered with 1, though its last expression is 2.
  lemma LocalAnswers(p: Prims, globals: map<string, Value>, fuel: nat)
    requires p.truthy(Bool(true)) && p.bin(Add, Int(1), Int(1)) == Some(Int(2))
    ensures var branch := Then(Let("x", false, Lit(Int(1))), Then(Eval(Binary(Add, Ident("x"), Lit(Int(1)))), Done));
            && TailValue(p, branch, Env(globals, []), fuel) == Int(2)
            && Answer(p, Then(IfStmt(If(Lit(Bool(true)), branch, NoElse)), Done), Env(globals, []), fuel) == Some(Int(1))
  {
    var env, last := Env(globals, [("x", Int(1))]), Eval(Binary(Add, Ident("x"), Lit(Int(1))));
    var branch := Then(Let("x", false, Lit(Int(1))), Then(last, Done));
    assert EvalExpr(p, last.e, env) == Ok(Int(2), env);
    assert Exec(p, branch.head, Env(globals, []), false, fuel) == Normal(env);
    hide Exec, EvalBin;
    assert Exec(p, last, env, false, fuel) == Normal(env) by { SimpleMeaning(p, last, env, fuel); }
    assert ExecList(p, Then(last, Done), env, false, fuel) == Normal(env);
    assert ExecList(p, branch, Env(globals, []), false, fuel) == Normal(env);
    assert EvalExpr(p, Lit(Bool(true)), Env(globals, [])) == Ok(Bool(true), Env(globals, []));
    assert BranchValue(p, branch, Env(globals, []), fuel) == Int(1);
    assert IfValue(p, If(Lit(Bool(true)), branch, NoElse), Env(globals, []), fuel) == Int(1);
    IfMeaning(p, If(Lit(Bool(true)), branch, NoElse), Env(globals, []), fuel);
  }

  lemma SimpleMeaning(p: Prims, s: Stmt, env: Env, fuel: nat)
    requires s.Eval? && EvalExpr(p, s.e, env).Ok?
    ensures Exec(p, s, env, false, fuel) == Normal(EvalExpr(p, s.e, env).env)
  {
  }
}
