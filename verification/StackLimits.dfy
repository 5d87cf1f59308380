/** What happens beyond 16 bits: when a jump of the stack compiler's code goes wrong, when a global is taken
    for another one, and programs that the compiler accepts for which it happens.
 */
module StackLimits {
  import opened Ast
  import opened StackCode
  import opened StackExpr
  import opened StackStmt
  import opened StackProgram
  import opened StackPatch
  import StackBuild

  // --- Jumps ---

  function Landing(d: nat): nat {
    if d <= 0xFFFF then d else 0xFFFF
  }

  lemma TakenJump(vm: Vm, env: Env, a: nat, temps: seq<Value>, v: Value, op: byte, d: nat)
    requires Wired(vm) && JumpAt(vm.prog.code, a, op, d) && a + 3 + d <= |vm.prog.code|
    requires op == OP_JUMP || (op == OP_JUMP_UNLESS && !vm.p.truthy(v))
    ensures Run(vm, State(env, temps + [v], a), 1) == Running(State(env, temps + [v], a + 3 + Landing(d)))
  {
    var m := State(env, temps + [v], a);
    OneStep(vm, m);
    assert Top(m.stack) == v;
  }

  // Short-circuit "and" whose left operand turns out false: the machine is behind the expression if and only
  // if the right operand fits the jump, and otherwise in the middle of the right operand.
  lemma AndLands(vm: Vm, e: Expr, env: Env, locals: seq<Local>, pools: Pools, a: nat, temps: seq<Value>) returns (k: nat, pc: nat)
    requires Wired(vm) && e.And? && Names(locals, env) && ExprAt(vm.prog.code, a, e, locals, pools) && a + SizeExpr(e) <= |vm.prog.code|
    requires Placed(vm.prog, e.left, locals, pools, a)
    requires var l := EvalExpr(vm.p, e.left, env); l.Ok? && !vm.p.truthy(l.v)
    ensures var l := EvalExpr(vm.p, e.left, env); Run(vm, State(env, temps, a), k) == Running(State(l.env, temps + [l.v], pc))
    ensures a + SizeExpr(e.left) + 4 <= pc <= a + SizeExpr(e) && (pc == a + SizeExpr(e) <==> 1 + SizeExpr(e.right) <= 0xFFFF)
  {
    hide Run, Wired, Placed, ExprAt, SizeExpr, JumpAt, EvalExpr, ExprPools, OpAt;
    AndShape(vm.prog.code, a, e, locals, pools);
    PairSize(e);
    var l, b := EvalExpr(vm.p, e.left, env), a + SizeExpr(e.left);
    k := ExprRuns(vm, e.left, env, locals, pools, a, temps);
    TakenJump(vm, l.env, b, temps, l.v, OP_JUMP_UNLESS, 1 + SizeExpr(e.right));
    RunThen(vm, State(env, temps, a), k, State(l.env, temps + [l.v], b), 1);
    k, pc := k + 1, b + 3 + Landing(1 + SizeExpr(e.right));
    Positive(e.right);
  }

  lemma {:induction false} Positive(e: Expr)
    ensures SizeExpr(e) >= 1
  {
  }

  // Short-circuit "or" whose left operand turns out true.
  lemma OrLands(vm: Vm, e: Expr, env: Env, locals: seq<Local>, pools: Pools, a: nat, temps: seq<Value>) returns (k: nat, pc: nat)
    requires Wired(vm) && e.Or? && Names(locals, env) && ExprAt(vm.prog.code, a, e, locals, pools) && a + SizeExpr(e) <= |vm.prog.code|
    requires Placed(vm.prog, e.left, locals, pools, a)
    requires var l := EvalExpr(vm.p, e.left, env); l.Ok? && vm.p.truthy(l.v)
    ensures var l := EvalExpr(vm.p, e.left, env); Run(vm, State(env, temps, a), k) == Running(State(l.env, temps + [l.v], pc))
    ensures a + SizeExpr(e.left) + 7 <= pc <= a + SizeExpr(e) && (pc == a + SizeExpr(e) <==> 1 + SizeExpr(e.right) <= 0xFFFF)
  {
    hide Run, Wired, Placed, ExprAt, SizeExpr, JumpAt, EvalExpr, ExprPools, OpAt;
    OrShape(vm.prog.code, a, e, locals, pools);
    PairSize(e);
    var l, b := EvalExpr(vm.p, e.left, env), a + SizeExpr(e.left);
    k := ExprRuns(vm, e.left, env, locals, pools, a, temps);
    UnlessRuns(vm, l.env, b, temps, l.v, 3);
    RunThen(vm, State(env, temps, a), k, State(l.env, temps + [l.v], b), 1);
    TakenJump(vm, l.env, b + 3, temps, l.v, OP_JUMP, 1 + SizeExpr(e.right));
    RunThen(vm, State(env, temps, a), k + 1, State(l.env, temps + [l.v], b + 3), 1);
    k, pc := k + 2, b + 6 + Landing(1 + SizeExpr(e.right));
    Positive(e.right);
  }

  // A conditional whose condition turns out false: the machine is at the else arm if and only if the then arm
  // fits the jump.
  lemma TestLands(vm: Vm, e: Expr, env: Env, locals: seq<Local>, pools: Pools, a: nat, temps: seq<Value>) returns (k: nat, pc: nat)
    requires Wired(vm) && e.Ternary? && Names(locals, env) && ExprAt(vm.prog.code, a, e, locals, pools) && a + SizeExpr(e) <= |vm.prog.code|
    requires Placed(vm.prog, e.cond, locals, pools, a)
    requires var c := EvalExpr(vm.p, e.cond, env); c.Ok? && !vm.p.truthy(c.v)
    ensures var c := EvalExpr(vm.p, e.cond, env); Run(vm, State(env, temps, a), k) == Running(State(c.env, temps + [c.v], pc))
    ensures pc == a + SizeExpr(e.cond) + 4 + SizeExpr(e.thn) + 3 <==> SizeExpr(e.thn) + 4 <= 0xFFFF
  {
    hide Run, Wired, Placed, ExprAt, SizeExpr, JumpAt, EvalExpr, ExprPools, OpAt;
    TernaryShape(vm.prog.code, a, e, locals, pools);
    TernarySize(e);
    var c, b := EvalExpr(vm.p, e.cond, env), a + SizeExpr(e.cond);
    k := ExprRuns(vm, e.cond, env, locals, pools, a, temps);
    TakenJump(vm, c.env, b, temps, c.v, OP_JUMP_UNLESS, 1 + SizeExpr(e.thn) + 3);
    RunThen(vm, State(env, temps, a), k, State(c.env, temps + [c.v], b), 1);
    k, pc := k + 1, b + 3 + Landing(1 + SizeExpr(e.thn) + 3);
  }

  // Behind its then arm, the machine leaves the conditional if and only if the else arm fits the jump.
  lemma ArmLands(vm: Vm, e: Expr, env: Env, locals: seq<Local>, pools: Pools, a: nat, temps: seq<Value>, v: Value) returns (pc: nat)
    requires Wired(vm) && e.Ternary? && ExprAt(vm.prog.code, a, e, locals, pools) && a + SizeExpr(e) <= |vm.prog.code|
    ensures Run(vm, State(env, temps + [v], a + SizeExpr(e.cond) + 4 + SizeExpr(e.thn)), 1) == Running(State(env, temps + [v], pc))
    ensures pc == a + SizeExpr(e) <==> 1 + SizeExpr(e.els) <= 0xFFFF
  {
    hide Run, Wired, ExprAt, SizeExpr, JumpAt, ExprPools, OpAt;
    TernaryShape(vm.prog.code, a, e, locals, pools);
    TernarySize(e);
    var b := a + SizeExpr(e.cond) + 4 + SizeExpr(e.thn);
    TakenJump(vm, env, b, temps, v, OP_JUMP, 1 + SizeExpr(e.els));
    pc := b + 3 + Landing(1 + SizeExpr(e.els));
  }

  // --- A program with a jump that is too long ---

  // (not false) == false == false == ... with n comparisons.
  function Flips(n: nat): Expr {
    if n == 0 then Unary(Not, Lit(Bool(false))) else Binary(Eq, Flips(n - 1), Lit(Bool(false)))
  }

  lemma {:induction false} FlipsFacts(n: nat, locals: seq<Local>, pools: Pools)
    ensures SizeExpr(Flips(n)) == 2 * n + 2 && ExprPools(Flips(n), locals, pools) == pools && StackBuild.ExprOk(Flips(n), locals, pools)
    decreases n
  {
    if n > 0 {
      FlipsFacts(n - 1, locals, pools);
    }
  }

  lemma FlipAt(code: seq<byte>, a: nat, n: nat, locals: seq<Local>, pools: Pools)
    requires ExprAt(code, a, Flips(n), locals, pools) && n > 0
    ensures ExprAt(code, a, Flips(n - 1), locals, pools)
    ensures OpAt(code, a + 2 * n, OP_FALSE) && OpAt(code, a + 2 * n + 1, BinCode(Eq))
  {
    FlipsFacts(n - 1, locals, pools);
    hide OpAt, BinCode;
  }

  // Each comparison is two bytes long.
  lemma {:induction false} FlipsBytes(code: seq<byte>, a: nat, n: nat, locals: seq<Local>, pools: Pools, i: nat)
    requires ExprAt(code, a, Flips(n), locals, pools) && 1 <= i <= n
    ensures OpAt(code, a + 2 * i, OP_FALSE) && OpAt(code, a + 2 * i + 1, BinCode(Eq))
    decreases n
  {
    FlipAt(code, a, n, locals, pools);
    hide ExprAt, Flips, OpAt, BinCode;
    if i < n {
      FlipsBytes(code, a, n - 1, locals, pools, i);
    }
  }

  // The source: false and (not false) == false == ...
  function FarSource(n: nat): Stmts {
    Then(Eval(And(Lit(Bool(false)), Flips(n))), Done)
  }

  // The compiler accepts it, and its answer is false, for every number of comparisons.
  lemma FarMeaning(p: Prims, n: nat, globals: map<string, Value>, fuel: nat)
    requires !p.truthy(Bool(false))
    ensures ListOk(FarSource(n), TOP, [], 0, Pools([], []))
    ensures Execute(p, FarSource(n), globals, fuel) == Normal(Env(globals, []))
    ensures Answer(p, FarSource(n), Env(globals, []), fuel) == Some(Bool(false))
  {
    hide Flips;
    var e, env, pools := And(Lit(Bool(false)), Flips(n)), Env(globals, []), Pools([], []);
    FlipsFacts(n, [], pools);
    StackBuild.PairOk(e, [], pools);
    assert StackBuild.ExprOk(Lit(Bool(false)), [], pools) && ExprPools(Lit(Bool(false)), [], pools) == pools;
    assert EvalExpr(p, Lit(Bool(false)), env) == Ok(Bool(false), env);
    assert EvalExpr(p, e, env) == Ok(Bool(false), env);
    Alone(p, e, env, fuel);
  }

  // A program of one expression.
  lemma Alone(p: Prims, e: Expr, env: Env, fuel: nat)
    ensures var ss := Then(Eval(e), Done);
            && (StackBuild.ExprOk(e, [], Pools([], [])) ==> ListOk(ss, TOP, [], 0, Pools([], [])))
            && (EvalExpr(p, e, env).Ok? ==> ExecList(p, ss, env, true, fuel) == Normal(EvalExpr(p, e, env).env)
                                            && Answer(p, ss, env, fuel) == Some(EvalExpr(p, e, env).v))
  {
    hide EvalExpr, StackBuild.ExprOk;
    var ss := Then(Eval(e), Done);
    ListMeaning(p, ss, env, true, fuel);
    assert StmtOk(Eval(e), TOP, [], 0, Pools([], [])) == StackBuild.ExprOk(e, [], Pools([], []));
  }

  ghost predicate Compares(p: Prims) {
    forall a, b :: p.bin(Eq, Bool(a), Bool(b)) == Some(Bool(a == b))
  }

  // But from 32767 comparisons on, its code jumps into the middle of them, with the false that is to be the
  // answer for an operand. The comparisons that are left turn it around, so that the machine halts with
  // the wrong answer if their number is odd.
  lemma FarAnswer(vm: Vm, n: nat, globals: map<string, Value>) returns (k: nat)
    requires Wired(vm) && !vm.p.truthy(Bool(false)) && Compares(vm.p) && n >= 0x7FFF
    requires ProgramAt(vm.prog.code, 0, FarSource(n), Pools([], [])) && |vm.prog.code| == SizeProgram(FarSource(n))
    ensures var r := Run(vm, Start(globals), k); r.Halted? && r.m.stack == [Bool(n % 2 == 1)]
  {
    hide Run, ExprAt, Flips, FarSource, ProgramAt, SizeProgram, JumpAt, OpAt, Compares;
    FarLayout(vm.prog.code, n);
    var m1, m2 := Machine(1, [Bool(false)], globals), Machine(0x10003, [Bool(false)], globals);
    FarSteps(vm, globals);
    RunThen(vm, Start(globals), 1, m1, 1);
    var j := FlipsRun(vm, n, 0x7FFF, false, globals);
    RunThen(vm, Start(globals), 2, m2, j);
    k := 2 + j;
  }

  // The comparisons from the i-th on.
  lemma {:induction false} FlipsRun(vm: Vm, n: nat, i: nat, b: bool, globals: map<string, Value>) returns (k: nat)
    requires Wired(vm) && Compares(vm.p) && FlipsFrom(vm.prog.code, i, n) && i <= n + 1
    ensures var r := Run(vm, Machine(5 + 2 * i, [Bool(b)], globals), k); r.Halted? && r.m.stack == [Bool(if (n + 1 - i) % 2 == 0 then b else !b)]
    decreases n + 1 - i
  {
    hide Run, OpAt, Compares;
    var m := Machine(5 + 2 * i, [Bool(b)], globals);
    if i == n + 1 {
      HaltStep(vm, m);
      k := 1;
    } else {
      FlipRuns(vm, i, b, globals);
      var j := FlipsRun(vm, n, i + 1, !b, globals);
      RunThen(vm, m, 2, Machine(5 + 2 * (i + 1), [Bool(!b)], globals), j);
      k := 2 + j;
    }
  }

  ghost predicate FlipsFrom(code: seq<byte>, i: nat, n: nat) {
    && (forall j {:trigger OpAt(code, 5 + 2 * j, OP_FALSE)} :: i <= j <= n ==> OpAt(code, 5 + 2 * j, OP_FALSE) && OpAt(code, 6 + 2 * j, BinCode(Eq)))
    && OpAt(code, 7 + 2 * n, OP_HALT)
  }

  lemma FlipRuns(vm: Vm, i: nat, b: bool, globals: map<string, Value>)
    requires Wired(vm) && Compares(vm.p) && OpAt(vm.prog.code, 5 + 2 * i, OP_FALSE) && OpAt(vm.prog.code, 6 + 2 * i, BinCode(Eq))
    ensures Run(vm, Machine(5 + 2 * i, [Bool(b)], globals), 2) == Running(Machine(7 + 2 * i, [Bool(!b)], globals))
  {
    var m, m1 := Machine(5 + 2 * i, [Bool(b)], globals), Machine(6 + 2 * i, [Bool(b), Bool(false)], globals);
    OneStep(vm, m);
    OneStep(vm, m1);
    RunThen(vm, m, 1, m1, 1);
  }

  lemma FarLayout(code: seq<byte>, n: nat)
    requires n >= 0x7FFF && ProgramAt(code, 0, FarSource(n), Pools([], [])) && |code| == SizeProgram(FarSource(n))
    ensures OpAt(code, 0, OP_FALSE) && JumpAt(code, 1, OP_JUMP_UNLESS, 2 * n + 3) && FlipsFrom(code, 0x7FFF, n) && |code| > 0x10003
  {
    hide OpAt, JumpAt, Flips, ExprAt, SizeExpr, BinCode;
    var e, pools := And(Lit(Bool(false)), Flips(n)), Pools([], []);
    FlipsFacts(n, [], pools);
    FalseFacts(code, pools);
    AloneAt(code, e, pools);
    AndShape(code, 0, e, [], pools);
    PairSize(e);
    forall j | 0x7FFF <= j <= n ensures OpAt(code, 5 + 2 * j, OP_FALSE) && OpAt(code, 6 + 2 * j, BinCode(Eq)) {
      FlipsBytes(code, 5, n, [], pools, j);
    }
  }

  lemma AloneAt(code: seq<byte>, e: Expr, pools: Pools)
    requires ProgramAt(code, 0, Then(Eval(e), Done), pools)
    ensures ExprAt(code, 0, e, [], pools) && OpAt(code, SizeExpr(e), OP_HALT) && SizeProgram(Then(Eval(e), Done)) == SizeExpr(e) + 1
  {
    hide ExprAt, SizeExpr, OpAt;
  }

  lemma FalseFacts(code: seq<byte>, pools: Pools)
    ensures ExprAt(code, 0, Lit(Bool(false)), [], pools) ==> OpAt(code, 0, OP_FALSE)
    ensures SizeExpr(Lit(Bool(false))) == 1 && ExprPools(Lit(Bool(false)), [], pools) == pools
  {
  }

  lemma FarSteps(vm: Vm, globals: map<string, Value>)
    requires Wired(vm) && !vm.p.truthy(Bool(false)) && OpAt(vm.prog.code, 0, OP_FALSE) && |vm.prog.code| > 0x10003
    requires exists d :: d > 0xFFFF && JumpAt(vm.prog.code, 1, OP_JUMP_UNLESS, d)
    ensures Run(vm, Start(globals), 1) == Running(Machine(1, [Bool(false)], globals))
    ensures Run(vm, Machine(1, [Bool(false)], globals), 1) == Running(Machine(0x10003, [Bool(false)], globals))
  {
    OneStep(vm, Start(globals));
    OneStep(vm, Machine(1, [Bool(false)], globals));
  }

  // --- Names ---

  // Reading a global whose name has the i-th place in the string table: the machine reads the one in place
  // i modulo 2^16, which is another one if and only if i does not fit.
  lemma GetReads(vm: Vm, name: string, env: Env, locals: seq<Local>, pools: Pools, a: nat, temps: seq<Value>)
    requires Wired(vm) && Resolve(locals, name) < 0 && VarAt(vm.prog.code, a, OP_GET_LOCAL, OP_GET_GLOBAL, name, locals, pools)
    requires VarPools(name, locals, pools).strings <= vm.prog.strings
    ensures var i := IndexOf(pools.strings, name);
            && i < |vm.prog.strings| && i % 0x10000 < |vm.prog.strings|
            && var other := vm.prog.strings[i % 0x10000];
               && (other == name <==> i <= 0xFFFF)
               && Run(vm, State(env, temps, a), 1) ==
                  if other in env.globals then Running(State(env, temps + [env.globals[other]], a + 3)) else Crashed
  {
    var m, i := State(env, temps, a), IndexOf(pools.strings, name);
    AddStringFinds(pools.strings, name, vm.prog.strings);
    OneStep(vm, m);
    assert forall j :: 0 <= j < i ==> pools.strings[j] == vm.prog.strings[j] by { AddedPrefix(pools.strings, name, vm.prog.strings); }
    var other := vm.prog.strings[i % 0x10000];
    if other in env.globals {
      assert m.stack + [env.globals[other]] == Vals(env.locals) + (temps + [env.globals[other]]);
    }
  }

  lemma AddedPrefix(strings: seq<string>, name: string, all: seq<string>)
    requires AddString(strings, name) <= all
    ensures strings <= all
  {
  }

  function Nth(i: nat): string {
    seq(i, _ => 'n')
  }

  function FirstNames(n: nat): (r: seq<string>)
    ensures |r| == n && forall i :: 0 <= i < n ==> r[i] == Nth(i)
  {
    seq(n, i requires 0 <= i => Nth(i))
  }

  // The source: each of the first n globals is mentioned once, and the next one is the answer.
  function Mentions(i: nat, n: nat): Stmts
    decreases n - i
  {
    Then(Eval(Ident(Nth(i))), if i >= n then Done else Mentions(i + 1, n))
  }

  lemma NextName(i: nat)
    ensures IndexOf(FirstNames(i), Nth(i)) == i && AddString(FirstNames(i), Nth(i)) == FirstNames(i + 1)
  {
    var k := IndexOf(FirstNames(i), Nth(i));
    assert k < i ==> |Nth(k)| == k;
    assert |Nth(i)| == i;
    assert FirstNames(i) + [Nth(i)] == FirstNames(i + 1);
  }

  lemma {:induction false} MentionsMeaning(p: Prims, i: nat, n: nat, a: nat, globals: map<string, Value>, fuel: nat)
    requires i <= n && forall k: nat :: k <= n ==> Nth(k) in globals
    ensures ListOk(Mentions(i, n), TOP, [], a, Pools([], FirstNames(i)))
    ensures ListPools(Mentions(i, n), TOP, Pools([], FirstNames(i))) == Pools([], FirstNames(n + 1))
    ensures Execute(p, Mentions(i, n), globals, fuel) == Normal(Env(globals, []))
    ensures Answer(p, Mentions(i, n), Env(globals, []), fuel) == Some(globals[Nth(n)])
    decreases n - i
  {
    hide Nth, FirstNames;
    NextName(i);
    var env, s := Env(globals, []), Eval(Ident(Nth(i)));
    assert EvalExpr(p, Ident(Nth(i)), env) == Ok(globals[Nth(i)], env);
    MentionStep(p, i, globals, fuel, a);
    ListMeaning(p, Mentions(i, n), env, true, fuel);
    if i < n {
      MentionsMeaning(p, i + 1, n, a + 4, globals, fuel);
    }
  }

  lemma MentionStep(p: Prims, i: nat, globals: map<string, Value>, fuel: nat, a: nat)
    requires Nth(i) in globals
    ensures var s := Eval(Ident(Nth(i)));
            && Exec(p, s, Env(globals, []), true, fuel) == Normal(Env(globals, [])) && SizeStmt(s, TOP) == 4 && After(s, TOP) == TOP
            && StmtPools(s, TOP, Pools([], FirstNames(i))) == Pools([], FirstNames(i + 1))
            && StmtOk(s, TOP, [], a, Pools([], FirstNames(i)))
  {
    hide Nth, FirstNames;
    NextName(i);
    assert EvalExpr(p, Ident(Nth(i)), Env(globals, [])) == Ok(globals[Nth(i)], Env(globals, []));
  }

  // With 65537 names, the last one is taken for the first one.
  lemma {:induction false} MentionsRun(vm: Vm, i: nat, n: nat, globals: map<string, Value>) returns (k: nat)
    requires Wired(vm) && n == 0x10000 && i <= n && (forall k: nat :: k <= n ==> Nth(k) in globals)
    requires vm.prog.strings == FirstNames(n + 1) && ProgramAt(vm.prog.code, 4 * i, Mentions(i, n), Pools([], FirstNames(i)))
    ensures Run(vm, Machine(4 * i, [], globals), k).Halted?
    ensures Run(vm, Machine(4 * i, [], globals), k).m.stack == [globals[Nth(0)]]
    decreases n - i
  {
    hide Run, Wired, Nth, FirstNames, ProgramAt, Mentions;
    var m := Machine(4 * i, [], globals);
    MentionsLayout(vm.prog.code, i, n);
    NextName(i);
    var other := if i == n then 0 else i;
    var m1 := Machine(4 * i + 3, [globals[Nth(other)]], globals);
    MentionRun(vm, i, n, globals);
    if i == n {
      HaltStep(vm, m1);
      RunThen(vm, m, 1, m1, 1);
      k := 2;
    } else {
      var m2 := Machine(4 * (i + 1), [], globals);
      PopRuns(vm, Env(globals, []), 4 * i + 3, [], globals[Nth(other)]);
      assert State(Env(globals, []), [], 4 * i + 4) == m2 && State(Env(globals, []), [] + [globals[Nth(other)]], 4 * i + 3) == m1;
      RunThen(vm, m, 1, m1, 1);
      var j := MentionsRun(vm, i + 1, n, globals);
      RunThen(vm, m, 2, m2, j);
      k := 2 + j;
    }
  }

  lemma MentionRun(vm: Vm, i: nat, n: nat, globals: map<string, Value>)
    requires Wired(vm) && n == 0x10000 && i <= n && (forall k: nat :: k <= n ==> Nth(k) in globals)
    requires vm.prog.strings == FirstNames(n + 1) && ArgAt(vm.prog.code, 4 * i, OP_GET_GLOBAL, i)
    ensures Run(vm, Machine(4 * i, [], globals), 1) == Running(Machine(4 * i + 3, [globals[Nth(if i == n then 0 else i)]], globals))
  {
    hide Nth;
    OneStep(vm, Machine(4 * i, [], globals));
  }

  lemma MentionsLayout(code: seq<byte>, i: nat, n: nat)
    requires i <= n && ProgramAt(code, 4 * i, Mentions(i, n), Pools([], FirstNames(i)))
    ensures ArgAt(code, 4 * i, OP_GET_GLOBAL, i)
    ensures if i == n then OpAt(code, 4 * i + 3, OP_HALT)
            else OpAt(code, 4 * i + 3, OP_POP) && ProgramAt(code, 4 * (i + 1), Mentions(i + 1, n), Pools([], FirstNames(i + 1)))
  {
    hide Nth, FirstNames, ArgAt, OpAt, IndexOf;
    NextName(i);
  }

  // So the compiler accepts a program whose answer is the value of one global, and its code answers with the
  // value of another.
  lemma ManyNames(vm: Vm, globals: map<string, Value>, fuel: nat) returns (k: nat)
    requires Wired(vm) && forall i: nat :: i <= 0x10000 ==> Nth(i) in globals
    requires var ss := Mentions(0, 0x10000);
             ProgramAt(vm.prog.code, 0, ss, Pools([], [])) && vm.prog.strings == ListPools(ss, TOP, Pools([], [])).strings
    ensures ListOk(Mentions(0, 0x10000), TOP, [], 0, Pools([], []))
    ensures Answer(vm.p, Mentions(0, 0x10000), Env(globals, []), fuel) == Some(globals[Nth(0x10000)])
    ensures Run(vm, Start(globals), k).Halted? && Run(vm, Start(globals), k).m.stack == [globals[Nth(0)]]
  {
    hide Run, Mentions, Nth, ProgramAt, Wired, ListOk, Answer, ListPools;
    assert FirstNames(0) == [];
    MentionsMeaning(vm.p, 0, 0x10000, 0, globals, fuel);
    k := MentionsRun(vm, 0, 0x10000, globals);
  }
}
