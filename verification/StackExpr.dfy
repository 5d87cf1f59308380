/** The stack compiler's expression code computes the value of the expression.

    Running the bytes of any expression, from any starting stack whose bottom holds the local
    variables, pushes exactly the expression's value and ends right behind the bytes; if the
    expression fails, so does the machine.
 */
module StackExpr {
  import opened Ast
  import opened StackCode

  // --- Pools only grow ---

  predicate Within(a: Pools, b: Pools) {
    a.consts <= b.consts && a.strings <= b.strings
  }

  lemma {:induction false} PoolsGrow(e: Expr, locals: seq<Local>, pools: Pools)
    ensures Within(pools, ExprPools(e, locals, pools))
    decreases e
  {
    match e
    case Lit(v) =>
    case Ident(name) =>
    case Binary(_, l, r) => PoolsGrow(l, locals, pools); PoolsGrow(r, locals, ExprPools(l, locals, pools));
    case And(l, r) => PoolsGrow(l, locals, pools); PoolsGrow(r, locals, ExprPools(l, locals, pools));
    case Or(l, r) => PoolsGrow(l, locals, pools); PoolsGrow(r, locals, ExprPools(l, locals, pools));
    case Unary(_, x) => PoolsGrow(x, locals, pools);
    case Ternary(c, t, f) =>
      var p1 := ExprPools(c, locals, pools);
      PoolsGrow(c, locals, pools);
      PoolsGrow(t, locals, p1);
      PoolsGrow(f, locals, ExprPools(t, locals, p1));
    case Assign(name, aop, rhs) =>
      PoolsGrow(rhs, locals, if aop.Some? then VarPools(name, locals, pools) else pools);
  }

  lemma AddStringFinds(strings: seq<string>, name: string, all: seq<string>)
    requires AddString(strings, name) <= all
    ensures IndexOf(strings, name) < |all| && all[IndexOf(strings, name)] == name
  {
  }

  // --- Environments and stacks ---

  // The compiler's locals name the bindings of the environment, in order.
  ghost predicate Names(locals: seq<Local>, env: Env) {
    |locals| == |env.locals| && forall i :: 0 <= i < |locals| ==> locals[i].name == env.locals[i].0
  }

  lemma {:induction false} LookupResolve(locals: seq<Local>, bs: seq<(string, Value)>, name: string)
    requires |locals| == |bs| && forall i :: 0 <= i < |locals| ==> locals[i].name == bs[i].0
    ensures Lookup(bs, name) == Resolve(locals, name)
    decreases |bs|
  {
    if bs != [] && bs[|bs| - 1].0 != name {
      LookupResolve(locals[..|bs| - 1], bs[..|bs| - 1], name);
    }
  }

  function Vals(bs: seq<(string, Value)>): (r: seq<Value>)
    ensures |r| == |bs|
  {
    seq(|bs|, i requires 0 <= i < |bs| => bs[i].1)
  }

  // The machine at `pc` with the locals at the bottom of the stack and `temps` above them.
  function State(env: Env, temps: seq<Value>, pc: nat): Machine {
    Machine(pc, Vals(env.locals) + temps, env.globals)
  }

  // --- Running ---

  lemma {:induction false} RunThen(vm: Vm, m: Machine, j: nat, m1: Machine, k: nat)
    requires Run(vm, m, j) == Running(m1)
    ensures Run(vm, m, j + k) == Run(vm, m1, k)
    decreases j
  {
    if j > 0 {
      RunThen(vm, vm.step(m).m, j - 1, m1, k);
    }
  }

  lemma OneStep(vm: Vm, m: Machine)
    requires Wired(vm)
    ensures Run(vm, m, 1) == Step(vm.p, vm.prog, m)
  {
    if Step(vm.p, vm.prog, m).Running? {
      assert Run(vm, Step(vm.p, vm.prog, m).m, 0) == Running(Step(vm.p, vm.prog, m).m);
    }
  }

  // The run of `k` steps from `m` ends as evaluation says: at `pc` with the value pushed, or in a crash.
  ghost predicate Lands(vm: Vm, m: Machine, k: nat, r: Result, locals: seq<Local>, temps: seq<Value>, pc: nat) {
    match r
    case Ok(v, env) => k >= 1 && Names(locals, env) && Run(vm, m, k) == Running(State(env, temps + [v], pc))
    case Fail => Run(vm, m, k) == Crashed
  }

  // After a prefix of j steps to m1, the rest of the run decides.
  lemma Prefix(vm: Vm, m: Machine, j: nat, m1: Machine, k: nat, r: Result, locals: seq<Local>, temps: seq<Value>, pc: nat)
    requires Run(vm, m, j) == Running(m1) && Lands(vm, m1, k, r, locals, temps, pc)
    ensures Lands(vm, m, j + k, r, locals, temps, pc)
  {
    RunThen(vm, m, j, m1, k);
  }

  lemma LandsNames(vm: Vm, m: Machine, k: nat, r: Result, locals: seq<Local>, temps: seq<Value>, pc: nat)
    requires Lands(vm, m, k, r, locals, temps, pc) && r.Ok?
    ensures Names(locals, r.env)
  {
  }

  // --- Instructions ---

  lemma LitRuns(vm: Vm, v: Value, env: Env, locals: seq<Local>, pools: Pools, a: nat, temps: seq<Value>)
    requires Wired(vm) && Names(locals, env) && (v.Nil? || v.Bool? || |pools.consts| <= 0xFFFF)
    requires LitAt(vm.prog.code, a, v, pools) && LitPools(v, pools).consts <= vm.prog.consts
    ensures Lands(vm, State(env, temps, a), 1, Ok(v, env), locals, temps, a + if v.Nil? || v.Bool? then 1 else 3)
  {
    var m := State(env, temps, a);
    OneStep(vm, m);
    assert m.stack + [v] == Vals(env.locals) + (temps + [v]);
  }

  // One variable access, in the machine's own terms.
  lemma AccessStep(vm: Vm, m: Machine, i: nat)
    requires Wired(vm) && i <= 0xFFFF && m.stack != []
    ensures ArgAt(vm.prog.code, m.pc, OP_SET_LOCAL, i) && i < |m.stack|
            ==> Run(vm, m, 1) == Running(m.(pc := m.pc + 3, stack := m.stack[i := Top(m.stack)]))
    ensures ArgAt(vm.prog.code, m.pc, OP_SET_GLOBAL, i) && i < |vm.prog.strings|
            ==> Run(vm, m, 1) == Running(m.(pc := m.pc + 3, globals := m.globals[vm.prog.strings[i] := Top(m.stack)]))
  {
    OneStep(vm, m);
  }

  lemma FetchStep(vm: Vm, m: Machine, i: nat)
    requires Wired(vm) && i <= 0xFFFF
    ensures ArgAt(vm.prog.code, m.pc, OP_GET_LOCAL, i) && i < |m.stack|
            ==> Run(vm, m, 1) == Running(m.(pc := m.pc + 3, stack := m.stack + [m.stack[i]]))
    ensures ArgAt(vm.prog.code, m.pc, OP_GET_GLOBAL, i) && i < |vm.prog.strings|
            ==> Run(vm, m, 1) == if vm.prog.strings[i] in m.globals
                                 then Running(m.(pc := m.pc + 3, stack := m.stack + [m.globals[vm.prog.strings[i]]]))
                                 else Crashed
  {
    OneStep(vm, m);
  }

  lemma GetRuns(vm: Vm, name: string, env: Env, locals: seq<Local>, pools: Pools, a: nat, temps: seq<Value>)
    requires Wired(vm) && Names(locals, env) && VarFits(name, locals, pools)
    requires VarAt(vm.prog.code, a, OP_GET_LOCAL, OP_GET_GLOBAL, name, locals, pools)
    requires VarPools(name, locals, pools).strings <= vm.prog.strings
    ensures Lands(vm, State(env, temps, a), 1, match Get(env, name) case None => Fail case Some(v) => Ok(v, env), locals, temps, a + 3)
  {
    hide Run, ArgAt, Resolve, IndexOf, Lookup, Wired;
    var m := State(env, temps, a);
    LookupResolve(locals, env.locals, name);
    var slot := Resolve(locals, name);
    if slot >= 0 {
      FetchStep(vm, m, slot);
      var v := env.locals[slot].1;
      assert m.stack[slot] == v;
      assert m.stack + [v] == Vals(env.locals) + (temps + [v]);
    } else {
      AddStringFinds(pools.strings, name, vm.prog.strings);
      FetchStep(vm, m, IndexOf(pools.strings, name));
      if name in env.globals {
        assert m.stack + [env.globals[name]] == Vals(env.locals) + (temps + [env.globals[name]]);
      }
    }
  }

  lemma SetRuns(vm: Vm, name: string, v: Value, env: Env, locals: seq<Local>, pools: Pools, a: nat, temps: seq<Value>)
    requires Wired(vm) && Names(locals, env) && VarFits(name, locals, pools)
    requires VarAt(vm.prog.code, a, OP_SET_LOCAL, OP_SET_GLOBAL, name, locals, pools)
    requires VarPools(name, locals, pools).strings <= vm.prog.strings
    ensures Lands(vm, State(env, temps + [v], a), 1, Ok(v, Set(env, name, v)), locals, temps, a + 3)
  {
    hide Run, ArgAt, Resolve, IndexOf, Lookup, Wired;
    var m := State(env, temps + [v], a);
    LookupResolve(locals, env.locals, name);
    var slot := Resolve(locals, name);
    assert Top(m.stack) == v;
    if slot >= 0 {
      AccessStep(vm, m, slot);
      var env' := Set(env, name, v);
      assert m.stack[slot := v] == Vals(env'.locals) + (temps + [v]);
    } else {
      AddStringFinds(pools.strings, name, vm.prog.strings);
      AccessStep(vm, m, IndexOf(pools.strings, name));
    }
  }

  lemma BinRuns(vm: Vm, op: BinOp, x: Value, y: Value, env: Env, locals: seq<Local>, a: nat, temps: seq<Value>)
    requires Wired(vm) && Names(locals, env) && OpAt(vm.prog.code, a, BinCode(op))
    ensures Lands(vm, State(env, temps + [x] + [y], a), 1, EvalBin(vm.p, op, x, y, env), locals, temps, a + 1)
  {
    var m := State(env, temps + [x] + [y], a);
    OneStep(vm, m);
    var n := |m.stack|;
    assert m.stack[n - 2] == x && m.stack[n - 1] == y;
    assert m.stack[..n - 2] == Vals(env.locals) + temps;
    if vm.p.bin(op, x, y).Some? {
      var v := vm.p.bin(op, x, y).value;
      assert m.stack[..n - 2] + [v] == Vals(env.locals) + (temps + [v]);
    }
  }

  lemma UnRuns(vm: Vm, op: UnOp, x: Value, env: Env, locals: seq<Local>, a: nat, temps: seq<Value>)
    requires Wired(vm) && Names(locals, env) && OpAt(vm.prog.code, a, UnCode(op))
    ensures Lands(vm, State(env, temps + [x], a), 1, EvalUn(vm.p, op, x, env), locals, temps, a + 1)
  {
    var m := State(env, temps + [x], a);
    OneStep(vm, m);
    assert m.stack[..|m.stack| - 1] == Vals(env.locals) + temps;
    if vm.p.un(op, x).Some? {
      var v := vm.p.un(op, x).value;
      assert m.stack[..|m.stack| - 1] + [v] == Vals(env.locals) + (temps + [v]);
    }
  }

  lemma PopRuns(vm: Vm, env: Env, a: nat, temps: seq<Value>, v: Value)
    requires Wired(vm) && OpAt(vm.prog.code, a, OP_POP)
    ensures Run(vm, State(env, temps + [v], a), 1) == Running(State(env, temps, a + 1))
  {
    var m := State(env, temps + [v], a);
    OneStep(vm, m);
    assert m.stack[..|m.stack| - 1] == Vals(env.locals) + temps;
  }

  lemma JumpRuns(vm: Vm, env: Env, a: nat, temps: seq<Value>, d: nat)
    requires Wired(vm) && JumpAt(vm.prog.code, a, OP_JUMP, d) && d <= 0xFFFF && a + 3 + d <= |vm.prog.code|
    ensures Run(vm, State(env, temps, a), 1) == Running(State(env, temps, a + 3 + d))
  {
    OneStep(vm, State(env, temps, a));
  }

  lemma UnlessRuns(vm: Vm, env: Env, a: nat, temps: seq<Value>, v: Value, d: nat)
    requires Wired(vm) && JumpAt(vm.prog.code, a, OP_JUMP_UNLESS, d) && d <= 0xFFFF && a + 3 + d <= |vm.prog.code|
    ensures Run(vm, State(env, temps + [v], a), 1)
         == Running(State(env, temps + [v], if vm.p.truthy(v) then a + 3 else a + 3 + d))
  {
    var m := State(env, temps + [v], a);
    OneStep(vm, m);
    assert Top(m.stack) == v;
  }

  // A test: the conditional jump peeks the condition, and each side starts by popping it.
  lemma TestRuns(vm: Vm, env: Env, a: nat, temps: seq<Value>, v: Value, d: nat)
    requires Wired(vm) && JumpAt(vm.prog.code, a, OP_JUMP_UNLESS, d) && d <= 0xFFFF
    requires OpAt(vm.prog.code, a + 3, OP_POP) && OpAt(vm.prog.code, a + 3 + d, OP_POP)
    ensures Run(vm, State(env, temps + [v], a), 2) == Running(State(env, temps, if vm.p.truthy(v) then a + 4 else a + 4 + d))
  {
    UnlessRuns(vm, env, a, temps, v, d);
    var b := if vm.p.truthy(v) then a + 3 else a + 3 + d;
    PopRuns(vm, env, b, temps, v);
    RunThen(vm, State(env, temps + [v], a), 1, State(env, temps + [v], b), 1);
  }

  // --- Composition: from the runs of the parts to the run of the whole ---

  lemma BinaryCompose(vm: Vm, m: Machine, k: nat, l: Result, j: nat, r: Result, op: BinOp, locals: seq<Local>, temps: seq<Value>, al: nat, ar: nat)
    returns (i: nat)
    requires Wired(vm) && Lands(vm, m, k, l, locals, temps, al) && OpAt(vm.prog.code, ar, BinCode(op))
    requires l.Ok? ==> Lands(vm, State(l.env, temps + [l.v], al), j, r, locals, temps + [l.v], ar)
    ensures Lands(vm, m, i, if l.Fail? || r.Fail? then Fail else EvalBin(vm.p, op, l.v, r.v, r.env), locals, temps, ar + 1)
  {
    i := k;
    if l.Ok? {
      RunThen(vm, m, k, State(l.env, temps + [l.v], al), j);
      i := k + j;
      if r.Ok? {
        BinRuns(vm, op, l.v, r.v, r.env, locals, ar, temps);
        Prefix(vm, m, k + j, State(r.env, temps + [l.v] + [r.v], ar), 1, EvalBin(vm.p, op, l.v, r.v, r.env), locals, temps, ar + 1);
        i := k + j + 1;
      }
    }
  }

  lemma UnaryCompose(vm: Vm, m: Machine, k: nat, x: Result, op: UnOp, locals: seq<Local>, temps: seq<Value>, a: nat) returns (i: nat)
    requires Wired(vm) && Lands(vm, m, k, x, locals, temps, a) && OpAt(vm.prog.code, a, UnCode(op))
    ensures Lands(vm, m, i, if x.Fail? then Fail else EvalUn(vm.p, op, x.v, x.env), locals, temps, a + 1)
  {
    i := k;
    if x.Ok? {
      UnRuns(vm, op, x.v, x.env, locals, a, temps);
      Prefix(vm, m, k, State(x.env, temps + [x.v], a), 1, EvalUn(vm.p, op, x.v, x.env), locals, temps, a + 1);
      i := k + 1;
    }
  }

  lemma SetCompose(vm: Vm, m: Machine, k: nat, x: Result, name: string, locals: seq<Local>, pools: Pools, temps: seq<Value>, a: nat) returns (i: nat)
    requires Wired(vm) && Lands(vm, m, k, x, locals, temps, a) && VarFits(name, locals, pools)
    requires VarAt(vm.prog.code, a, OP_SET_LOCAL, OP_SET_GLOBAL, name, locals, pools)
    requires VarPools(name, locals, pools).strings <= vm.prog.strings
    ensures Lands(vm, m, i, Stored(x, name), locals, temps, a + 3)
  {
    i := k;
    if x.Ok? {
      SetRuns(vm, name, x.v, x.env, locals, pools, a, temps);
      Prefix(vm, m, k, State(x.env, temps + [x.v], a), 1, Stored(x, name), locals, temps, a + 3);
      i := k + 1;
    }
  }

  // Short circuit: the left value stays if it decides, and is replaced by the right one if not.
  lemma AndCompose(vm: Vm, m: Machine, k: nat, l: Result, locals: seq<Local>, temps: seq<Value>, al: nat, n: nat, j: nat, r: Result) returns (i: nat)
    requires Wired(vm) && Lands(vm, m, k, l, locals, temps, al)
    requires JumpAt(vm.prog.code, al, OP_JUMP_UNLESS, 1 + n) && 1 + n <= 0xFFFF && OpAt(vm.prog.code, al + 3, OP_POP)
    requires al + 4 + n <= |vm.prog.code|
    requires l.Ok? && vm.p.truthy(l.v) ==> Lands(vm, State(l.env, temps, al + 4), j, r, locals, temps, al + 4 + n)
    ensures Lands(vm, m, i, if l.Ok? && vm.p.truthy(l.v) then r else l, locals, temps, al + 4 + n)
  {
    i := k;
    if l.Ok? {
      UnlessRuns(vm, l.env, al, temps, l.v, 1 + n);
      RunThen(vm, m, k, State(l.env, temps + [l.v], al), 1);
      i := k + 1;
      if vm.p.truthy(l.v) {
        PopRuns(vm, l.env, al + 3, temps, l.v);
        RunThen(vm, m, k + 1, State(l.env, temps + [l.v], al + 3), 1);
        Prefix(vm, m, k + 2, State(l.env, temps, al + 4), j, r, locals, temps, al + 4 + n);
        i := k + 2 + j;
      }
    }
  }

  lemma OrCompose(vm: Vm, m: Machine, k: nat, l: Result, locals: seq<Local>, temps: seq<Value>, al: nat, n: nat, j: nat, r: Result) returns (i: nat)
    requires Wired(vm) && Lands(vm, m, k, l, locals, temps, al)
    requires JumpAt(vm.prog.code, al, OP_JUMP_UNLESS, 3) && JumpAt(vm.prog.code, al + 3, OP_JUMP, 1 + n)
    requires 1 + n <= 0xFFFF && OpAt(vm.prog.code, al + 6, OP_POP) && al + 7 + n <= |vm.prog.code|
    requires l.Ok? && !vm.p.truthy(l.v) ==> Lands(vm, State(l.env, temps, al + 7), j, r, locals, temps, al + 7 + n)
    ensures Lands(vm, m, i, if l.Ok? && !vm.p.truthy(l.v) then r else l, locals, temps, al + 7 + n)
  {
    i := k;
    if l.Ok? {
      UnlessRuns(vm, l.env, al, temps, l.v, 3);
      RunThen(vm, m, k, State(l.env, temps + [l.v], al), 1);
      i := k + 2;
      if vm.p.truthy(l.v) {
        JumpRuns(vm, l.env, al + 3, temps + [l.v], 1 + n);
        RunThen(vm, m, k + 1, State(l.env, temps + [l.v], al + 3), 1);
      } else {
        PopRuns(vm, l.env, al + 6, temps, l.v);
        RunThen(vm, m, k + 1, State(l.env, temps + [l.v], al + 6), 1);
        Prefix(vm, m, k + 2, State(l.env, temps, al + 7), j, r, locals, temps, al + 7 + n);
        i := k + 2 + j;
      }
    }
  }

  // A test followed by the chosen arm.
  lemma TernaryCompose(vm: Vm, m: Machine, k: nat, c: Result, locals: seq<Local>, temps: seq<Value>, ac: nat, d: nat, end: nat, j: nat, r: Result)
    returns (i: nat)
    requires Wired(vm) && Lands(vm, m, k, c, locals, temps, ac)
    requires JumpAt(vm.prog.code, ac, OP_JUMP_UNLESS, d) && d <= 0xFFFF
    requires OpAt(vm.prog.code, ac + 3, OP_POP) && OpAt(vm.prog.code, ac + 3 + d, OP_POP)
    requires c.Ok? ==> Lands(vm, State(c.env, temps, if vm.p.truthy(c.v) then ac + 4 else ac + 4 + d), j, r, locals, temps, end)
    ensures Lands(vm, m, i, if c.Ok? then r else Fail, locals, temps, end)
  {
    i := k;
    if c.Ok? {
      TestRuns(vm, c.env, ac, temps, c.v, d);
      RunThen(vm, m, k, State(c.env, temps + [c.v], ac), 2);
      Prefix(vm, m, k + 2, State(c.env, temps, if vm.p.truthy(c.v) then ac + 4 else ac + 4 + d), j, r, locals, temps, end);
      i := k + 2 + j;
    }
  }

  lemma JumpCompose(vm: Vm, m: Machine, k: nat, r: Result, locals: seq<Local>, temps: seq<Value>, a: nat, d: nat) returns (i: nat)
    requires Wired(vm) && Lands(vm, m, k, r, locals, temps, a)
    requires JumpAt(vm.prog.code, a, OP_JUMP, d) && d <= 0xFFFF && a + 3 + d <= |vm.prog.code|
    ensures Lands(vm, m, i, r, locals, temps, a + 3 + d)
  {
    i := k;
    if r.Ok? {
      JumpRuns(vm, r.env, a, temps + [r.v], d);
      RunThen(vm, m, k, State(r.env, temps + [r.v], a), 1);
      i := k + 1;
    }
  }

  // --- Expressions ---

  // The expression's code stands at `a`, all its operands fit, and the program has its pools.
  ghost predicate Placed(prog: Prog, e: Expr, locals: seq<Local>, pools: Pools, a: nat) {
    && ExprFits(e, locals, pools)
    && ExprAt(prog.code, a, e, locals, pools)
    && Within(ExprPools(e, locals, pools), Pools(prog.consts, prog.strings))
  }

  lemma {:induction false} PlacedEnds(code: seq<byte>, e: Expr, locals: seq<Local>, pools: Pools, a: nat)
    requires ExprAt(code, a, e, locals, pools)
    ensures a + SizeExpr(e) <= |code|
    decreases e
  {
    if e.And? || e.Or? || e.Ternary? {
      JumpingEnds(code, e, locals, pools, a);
    } else {
      hide ExprPools, BinCode, UnCode, Resolve, IndexOf;
    }
  }

  // Code that ends with a nested expression.
  lemma {:induction false} JumpingEnds(code: seq<byte>, e: Expr, locals: seq<Local>, pools: Pools, a: nat)
    requires (e.And? || e.Or? || e.Ternary?) && ExprAt(code, a, e, locals, pools)
    ensures a + SizeExpr(e) <= |code|
    decreases e, 0
  {
    hide *;
    match e
    case And(l, r) =>
      PairSize(e);
      AndShape(code, a, e, locals, pools);
      PlacedEnds(code, r, locals, ExprPools(l, locals, pools), a + SizeExpr(l) + 4);
    case Or(l, r) =>
      PairSize(e);
      OrShape(code, a, e, locals, pools);
      PlacedEnds(code, r, locals, ExprPools(l, locals, pools), a + SizeExpr(l) + 7);
    case Ternary(c, t, f) =>
      TernarySize(e);
      TernaryShape(code, a, e, locals, pools);
      PlacedEnds(code, f, locals, ExprPools(t, locals, ExprPools(c, locals, pools)), a + SizeExpr(c) + 4 + SizeExpr(t) + 4);
  }

  // What the code of a two-operand expression consists of.
  lemma PairParts(prog: Prog, e: Expr, locals: seq<Local>, pools: Pools, a: nat)
    requires (e.Binary? || e.And? || e.Or?) && Placed(prog, e, locals, pools, a)
    ensures var b, n := a + SizeExpr(e.left), SizeExpr(e.right);
            var gap := if e.Binary? then 0 else if e.And? then 4 else 7;
            && SizeExpr(e) == SizeExpr(e.left) + gap + n + (if e.Binary? then 1 else 0)
            && b + gap + n <= |prog.code|
            && Placed(prog, e.left, locals, pools, a)
            && Placed(prog, e.right, locals, ExprPools(e.left, locals, pools), b + gap)
            && (e.Binary? ==> OpAt(prog.code, b + n, BinCode(e.op)))
            && (e.And? ==> JumpAt(prog.code, b, OP_JUMP_UNLESS, 1 + n) && OpAt(prog.code, b + 3, OP_POP) && 1 + n <= 0xFFFF)
            && (e.Or? ==> JumpAt(prog.code, b, OP_JUMP_UNLESS, 3) && JumpAt(prog.code, b + 3, OP_JUMP, 1 + n)
                          && OpAt(prog.code, b + 6, OP_POP) && 1 + n <= 0xFFFF)
  {
    hide ExprAt, ExprFits, ExprPools, SizeExpr, OpAt, JumpAt, BinCode;
    PlacedEnds(prog.code, e, locals, pools, a);
    PairSize(e);
    PairFits(e, locals, pools);
    PoolsGrow(e.right, locals, ExprPools(e.left, locals, pools));
    match e
    case Binary(_, _, _) => BinaryShape(prog.code, a, e, locals, pools);
    case And(_, _) => AndShape(prog.code, a, e, locals, pools);
    case Or(_, _) => OrShape(prog.code, a, e, locals, pools);
  }

  lemma PairMeaning(p: Prims, e: Expr, env: Env)
    requires e.Binary? || e.And? || e.Or?
    ensures var l := EvalExpr(p, e.left, env);
            var r := if l.Ok? then EvalExpr(p, e.right, l.env) else Fail;
            EvalExpr(p, e, env) ==
              if e.Binary? then (if l.Fail? || r.Fail? then Fail else EvalBin(p, e.op, l.v, r.v, r.env))
              else if l.Ok? && p.truthy(l.v) == e.And? then r else l
  {
  }

  lemma PairRuns(vm: Vm, e: Expr, env: Env, locals: seq<Local>, pools: Pools, a: nat, temps: seq<Value>) returns (k: nat)
    requires Wired(vm) && (e.Binary? || e.And? || e.Or?) && Names(locals, env) && Placed(vm.prog, e, locals, pools, a)
    ensures Lands(vm, State(env, temps, a), k, EvalExpr(vm.p, e, env), locals, temps, a + SizeExpr(e))
    decreases e, 0
  {
    hide *;
    PairParts(vm.prog, e, locals, pools, a);
    PairMeaning(vm.p, e, env);
    var al, n := a + SizeExpr(e.left), SizeExpr(e.right);
    var m, pr := State(env, temps, a), ExprPools(e.left, locals, pools);
    k := ExprRuns(vm, e.left, env, locals, pools, a, temps);
    var l := EvalExpr(vm.p, e.left, env);
    var j, r := 0, Fail;
    if l.Ok? {
      LandsNames(vm, m, k, l, locals, temps, al);
      r := EvalExpr(vm.p, e.right, l.env);
    }
    if e.Binary? {
      if l.Ok? {
        j := ExprRuns(vm, e.right, l.env, locals, pr, al, temps + [l.v]);
      }
      k := BinaryCompose(vm, m, k, l, j, r, e.op, locals, temps, al, al + n);
    } else if e.And? {
      if l.Ok? {
        j := ExprRuns(vm, e.right, l.env, locals, pr, al + 4, temps);
      }
      k := AndCompose(vm, m, k, l, locals, temps, al, n, j, r);
    } else {
      if l.Ok? {
        j := ExprRuns(vm, e.right, l.env, locals, pr, al + 7, temps);
      }
      k := OrCompose(vm, m, k, l, locals, temps, al, n, j, r);
    }
  }

  lemma TernaryParts(prog: Prog, e: Expr, locals: seq<Local>, pools: Pools, a: nat)
    requires e.Ternary? && Placed(prog, e, locals, pools, a)
    ensures var c, t, f := SizeExpr(e.cond), SizeExpr(e.thn), SizeExpr(e.els);
            var p1 := ExprPools(e.cond, locals, pools);
            && SizeExpr(e) == c + 4 + t + 4 + f && a + c + 4 + t + 4 + f <= |prog.code|
            && Placed(prog, e.cond, locals, pools, a)
            && JumpAt(prog.code, a + c, OP_JUMP_UNLESS, 1 + t + 3) && 1 + t + 3 <= 0xFFFF
            && OpAt(prog.code, a + c + 3, OP_POP)
            && Placed(prog, e.thn, locals, p1, a + c + 4)
            && JumpAt(prog.code, a + c + 4 + t, OP_JUMP, 1 + f) && 1 + f <= 0xFFFF
            && OpAt(prog.code, a + c + 4 + t + 3, OP_POP)
            && Placed(prog, e.els, locals, ExprPools(e.thn, locals, p1), a + c + 4 + t + 4)
  {
    hide ExprAt, ExprFits, ExprPools, SizeExpr, OpAt, JumpAt;
    var p1 := ExprPools(e.cond, locals, pools);
    PlacedEnds(prog.code, e, locals, pools, a);
    TernarySize(e);
    TernaryFits(e, locals, pools);
    TernaryShape(prog.code, a, e, locals, pools);
    PoolsGrow(e.thn, locals, p1);
    PoolsGrow(e.els, locals, ExprPools(e.thn, locals, p1));
  }

  lemma TernaryMeaning(p: Prims, e: Expr, env: Env)
    requires e.Ternary?
    ensures var c := EvalExpr(p, e.cond, env);
            EvalExpr(p, e, env) == if c.Fail? then Fail else EvalExpr(p, if p.truthy(c.v) then e.thn else e.els, c.env)
  {
  }

  lemma TernaryRuns(vm: Vm, e: Expr, env: Env, locals: seq<Local>, pools: Pools, a: nat, temps: seq<Value>) returns (k: nat)
    requires Wired(vm) && e.Ternary? && Names(locals, env) && Placed(vm.prog, e, locals, pools, a)
    ensures Lands(vm, State(env, temps, a), k, EvalExpr(vm.p, e, env), locals, temps, a + SizeExpr(e))
    decreases e, 0
  {
    hide *;
    TernaryParts(vm.prog, e, locals, pools, a);
    TernaryMeaning(vm.p, e, env);
    var c, t, f := SizeExpr(e.cond), SizeExpr(e.thn), SizeExpr(e.els);
    var m, p1 := State(env, temps, a), ExprPools(e.cond, locals, pools);
    var at := a + c + 4;
    k := ExprRuns(vm, e.cond, env, locals, pools, a, temps);
    var r := EvalExpr(vm.p, e.cond, env);
    var j, s := 0, Fail;
    if r.Ok? {
      LandsNames(vm, m, k, r, locals, temps, a + c);
      if vm.p.truthy(r.v) {
        j := ExprRuns(vm, e.thn, r.env, locals, p1, at, temps);
        j := JumpCompose(vm, State(r.env, temps, at), j, EvalExpr(vm.p, e.thn, r.env), locals, temps, at + t, 1 + f);
      } else {
        j := ExprRuns(vm, e.els, r.env, locals, ExprPools(e.thn, locals, p1), at + t + 4, temps);
      }
      s := EvalExpr(vm.p, if vm.p.truthy(r.v) then e.thn else e.els, r.env);
    }
    k := TernaryCompose(vm, m, k, r, locals, temps, a + c, 1 + t + 3, at + t + 4 + f, j, s);
  }

  lemma AssignParts(prog: Prog, e: Expr, locals: seq<Local>, pools: Pools, a: nat)
    requires e.Assign? && e.aop.None? && Placed(prog, e, locals, pools, a)
    ensures var n, p2 := SizeExpr(e.rhs), ExprPools(e.rhs, locals, pools);
            && SizeExpr(e) == n + 3
            && Placed(prog, e.rhs, locals, pools, a)
            && VarAt(prog.code, a + n, OP_SET_LOCAL, OP_SET_GLOBAL, e.target, locals, p2)
            && VarPools(e.target, locals, p2).strings <= prog.strings && VarFits(e.target, locals, p2)
  {
    PoolsGrow(e.rhs, locals, pools);
  }

  lemma CompoundParts(prog: Prog, e: Expr, locals: seq<Local>, pools: Pools, a: nat)
    requires e.Assign? && e.aop.Some? && Placed(prog, e, locals, pools, a)
    ensures var p1, n := VarPools(e.target, locals, pools), SizeExpr(e.rhs);
            var p2 := ExprPools(e.rhs, locals, p1);
            && SizeExpr(e) == n + 7
            && VarAt(prog.code, a, OP_GET_LOCAL, OP_GET_GLOBAL, e.target, locals, pools)
            && p1.strings <= prog.strings && VarFits(e.target, locals, pools)
            && Placed(prog, e.rhs, locals, p1, a + 3)
            && OpAt(prog.code, a + 3 + n, BinCode(e.aop.value))
            && VarAt(prog.code, a + 3 + n + 1, OP_SET_LOCAL, OP_SET_GLOBAL, e.target, locals, p2)
            && VarPools(e.target, locals, p2).strings <= prog.strings && VarFits(e.target, locals, p2)
  {
    PoolsGrow(e.rhs, locals, VarPools(e.target, locals, pools));
  }

  // The result of storing what was computed.
  function Stored(x: Result, name: string): Result {
    if x.Fail? then Fail else Ok(x.v, Set(x.env, name, x.v))
  }

  lemma AssignMeaning(p: Prims, e: Expr, env: Env)
    requires e.Assign?
    ensures var y := EvalExpr(p, e.rhs, env);
            EvalExpr(p, e, env) ==
              Stored(if e.aop.None? then y
                     else if Get(env, e.target).None? || y.Fail? then Fail
                     else EvalBin(p, e.aop.value, Get(env, e.target).value, y.v, y.env), e.target)
  {
  }

  lemma AssignRuns(vm: Vm, e: Expr, env: Env, locals: seq<Local>, pools: Pools, a: nat, temps: seq<Value>) returns (k: nat)
    requires Wired(vm) && e.Assign? && Names(locals, env) && Placed(vm.prog, e, locals, pools, a)
    ensures Lands(vm, State(env, temps, a), k, EvalExpr(vm.p, e, env), locals, temps, a + SizeExpr(e))
    decreases e, 0
  {
    hide *;
    AssignMeaning(vm.p, e, env);
    var m, n := State(env, temps, a), SizeExpr(e.rhs);
    var y := EvalExpr(vm.p, e.rhs, env);
    if e.aop.None? {
      AssignParts(vm.prog, e, locals, pools, a);
      k := ExprRuns(vm, e.rhs, env, locals, pools, a, temps);
      k := SetCompose(vm, m, k, y, e.target, locals, ExprPools(e.rhs, locals, pools), temps, a + n);
    } else {
      CompoundParts(vm.prog, e, locals, pools, a);
      var p1 := VarPools(e.target, locals, pools);
      GetRuns(vm, e.target, env, locals, pools, a, temps);
      var g := match Get(env, e.target) case None => Fail case Some(v) => Ok(v, env);
      var j, r := 0, Fail;
      if g.Ok? {
        j := ExprRuns(vm, e.rhs, env, locals, p1, a + 3, temps + [g.v]);
        r := y;
      }
      k := BinaryCompose(vm, m, 1, g, j, r, e.aop.value, locals, temps, a + 3, a + 3 + n);
      k := SetCompose(vm, m, k, if g.Fail? || r.Fail? then Fail else EvalBin(vm.p, e.aop.value, g.v, r.v, r.env),
                      e.target, locals, ExprPools(e.rhs, locals, p1), temps, a + 3 + n + 1);
    }
  }

  lemma UnaryMeaning(p: Prims, e: Expr, env: Env)
    requires e.Unary?
    ensures var x := EvalExpr(p, e.operand, env);
            EvalExpr(p, e, env) == if x.Fail? then Fail else EvalUn(p, e.uop, x.v, x.env)
  {
  }

  lemma UnaryRuns(vm: Vm, e: Expr, env: Env, locals: seq<Local>, pools: Pools, a: nat, temps: seq<Value>) returns (k: nat)
    requires Wired(vm) && e.Unary? && Names(locals, env) && Placed(vm.prog, e, locals, pools, a)
    ensures Lands(vm, State(env, temps, a), k, EvalExpr(vm.p, e, env), locals, temps, a + SizeExpr(e))
    decreases e, 0
  {
    hide Lands;
    UnaryMeaning(vm.p, e, env);
    k := ExprRuns(vm, e.operand, env, locals, pools, a, temps);
    k := UnaryCompose(vm, State(env, temps, a), k, EvalExpr(vm.p, e.operand, env), e.uop, locals, temps, a + SizeExpr(e.operand));
  }

  // For any expression, any chunk it stands in, any environment and any temporaries below it.
  lemma ExprRuns(vm: Vm, e: Expr, env: Env, locals: seq<Local>, pools: Pools, a: nat, temps: seq<Value>) returns (k: nat)
    requires Wired(vm) && Names(locals, env) && Placed(vm.prog, e, locals, pools, a)
    ensures Lands(vm, State(env, temps, a), k, EvalExpr(vm.p, e, env), locals, temps, a + SizeExpr(e))
    decreases e, 1
  {
    match e
    case Lit(v) => LitRuns(vm, v, env, locals, pools, a, temps); k := 1;
    case Ident(name) => GetRuns(vm, name, env, locals, pools, a, temps); k := 1;
    case Binary(_, _, _) => k := PairRuns(vm, e, env, locals, pools, a, temps);
    case And(_, _) => k := PairRuns(vm, e, env, locals, pools, a, temps);
    case Or(_, _) => k := PairRuns(vm, e, env, locals, pools, a, temps);
    case Unary(_, _) => k := UnaryRuns(vm, e, env, locals, pools, a, temps);
    case Ternary(_, _, _) => k := TernaryRuns(vm, e, env, locals, pools, a, temps);
    case Assign(_, _, _) => k := AssignRuns(vm, e, env, locals, pools, a, temps);
  }
}
