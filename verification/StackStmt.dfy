/** The stack compiler's statement code does what the statements mean.

    For every fuel, running the code of a statement ends as its execution ends: behind the code,
    at the exit or the head of the enclosing loop, or in a crash, each time with exactly the
    locals in scope there on the stack; and a statement that does not end keeps the machine busy.
 */
module StackStmt {
  import opened Ast
  import opened StackCode
  import opened StackExpr

  // --- Scopes ---

  // The locals that were there when the innermost loop began.
  function Kept(c: Scope): seq<Local> {
    if c.over <= |c.locals| then c.locals[..|c.locals| - c.over] else []
  }

  lemma AfterKeeps(s: Stmt, c: Scope)
    requires c.over <= |c.locals|
    ensures After(s, c).over <= |After(s, c).locals| && Kept(After(s, c)) == Kept(c)
    ensures After(s, c).depth == c.depth && c.locals <= After(s, c).locals
  {
  }

  lemma {:induction false} ListKeeps(ss: Stmts, c: Scope)
    requires c.over <= |c.locals| && c.depth > 0
    ensures var d := AfterList(ss, c);
            c.locals <= d.locals && |d.locals| == |c.locals| + Declared(ss) && d.over == c.over + Declared(ss)
  {
    match ss
    case Done =>
    case Then(s, rest) => AfterKeeps(s, c); ListKeeps(rest, After(s, c));
  }

  // --- How runs end ---

  // The run has left for the loop's head or exit, with the locals of the loop body gone.
  ghost predicate Left(vm: Vm, m: Machine, k: nat, env: Env, kept: seq<Local>, pc: nat) {
    Names(kept, Trim(env, |kept|)) && Run(vm, m, k) == Running(State(Trim(env, |kept|), [], pc))
  }

  ghost predicate Ends(vm: Vm, m: Machine, k: nat, o: Outcome, fuel: nat, kept: seq<Local>, after: seq<Local>,
                       l: Option<Loop>, temps: seq<Value>, end: nat)
  {
    match o
    case Normal(env) => Names(after, env) && Run(vm, m, k) == Running(State(env, temps, end))
    case Broke(env) => l.Some? && l.value.exit.Some? && Left(vm, m, k, env, kept, l.value.exit.value)
    case Continued(env) => l.Some? && Left(vm, m, k, env, kept, l.value.head)
    case Error => Run(vm, m, k) == Crashed
    case OutOfFuel => k >= fuel && Run(vm, m, k).Running?
  }

  lemma EndsAfter(vm: Vm, m: Machine, j: nat, m1: Machine, k: nat, o: Outcome, fuel: nat, more: nat, kept: seq<Local>,
                  after: seq<Local>, l: Option<Loop>, temps: seq<Value>, end: nat)
    requires Run(vm, m, j) == Running(m1) && more <= j
    requires Ends(vm, m1, k, o, fuel, kept, after, l, temps, end)
    ensures Ends(vm, m, j + k, o, fuel + more, kept, after, l, temps, end)
  {
    RunThen(vm, m, j, m1, k);
  }

  // What is known where a statement ended normally.
  lemma EndsNormal(vm: Vm, m: Machine, k: nat, o: Outcome, fuel: nat, kept: seq<Local>, after: seq<Local>,
                   l: Option<Loop>, temps: seq<Value>, end: nat)
    requires o.Normal? && Ends(vm, m, k, o, fuel, kept, after, l, temps, end)
    ensures Names(after, o.env) && Run(vm, m, k) == Running(State(o.env, temps, end))
  {
  }

  lemma EndsFail(vm: Vm, m: Machine, k: nat, r: Result, fuel: nat, kept: seq<Local>, locals: seq<Local>, l: Option<Loop>,
                 temps: seq<Value>, b: nat, end: nat)
    requires r.Fail? && Lands(vm, m, k, r, locals, [], b)
    ensures Ends(vm, m, k, Error, fuel, kept, locals, l, temps, end)
  {
  }

  lemma EndsOut(vm: Vm, m: Machine, kept: seq<Local>, after: seq<Local>, l: Option<Loop>, temps: seq<Value>, end: nat)
    ensures Ends(vm, m, 0, OutOfFuel, 0, kept, after, l, temps, end)
  {
  }

  lemma EndsIntro(vm: Vm, m: Machine, k: nat, env: Env, fuel: nat, kept: seq<Local>, after: seq<Local>,
                  l: Option<Loop>, temps: seq<Value>, end: nat)
    requires Names(after, env) && Run(vm, m, k) == Running(State(env, temps, end))
    ensures Ends(vm, m, k, Normal(env), fuel, kept, after, l, temps, end)
  {
  }

  // If the outcome is not normal, where the code ends and what it leaves there do not matter.
  lemma EndsElsewhere(vm: Vm, m: Machine, k: nat, o: Outcome, fuel: nat, kept: seq<Local>, after: seq<Local>,
                      after': seq<Local>, l: Option<Loop>, temps: seq<Value>, temps': seq<Value>, end: nat, end': nat)
    requires !o.Normal? && Ends(vm, m, k, o, fuel, kept, after, l, temps, end)
    ensures Ends(vm, m, k, o, fuel, kept, after', l, temps', end')
  {
  }

  lemma {:induction false} PopMany(vm: Vm, m: Machine, n: nat)
    requires Wired(vm) && PopsAt(vm.prog.code, m.pc, n) && n <= |m.stack|
    ensures Run(vm, m, n) == Running(m.(pc := m.pc + n, stack := m.stack[..|m.stack| - n]))
    decreases n
  {
    if n > 0 {
      var m1 := m.(pc := m.pc + 1, stack := m.stack[..|m.stack| - 1]);
      assert vm.prog.code[m.pc] == OP_POP;
      OneStep(vm, m);
      PopMany(vm, m1, n - 1);
      RunThen(vm, m, 1, m1, n - 1);
      assert m1.stack[..|m1.stack| - (n - 1)] == m.stack[..|m.stack| - n];
    }
  }

  // Popping the locals beyond `n` trims the environment.
  lemma PopLocals(vm: Vm, env: Env, a: nat, n: nat)
    requires Wired(vm) && n <= |env.locals| && PopsAt(vm.prog.code, a, |env.locals| - n)
    ensures Run(vm, State(env, [], a), |env.locals| - n) == Running(State(Trim(env, n), [], a + (|env.locals| - n)))
  {
    hide Run, Wired;
    var m := State(env, [], a);
    PopMany(vm, m, |env.locals| - n);
    assert m.stack[..n] == Vals(env.locals[..n]) + [];
  }

  // What stays of the locals from the n-th on with a value on top: the first of them, if there is one.
  function Bottom(env: Env, n: nat, v: Value): Value {
    if n < |env.locals| then env.locals[n].1 else v
  }

  lemma PopUnder(vm: Vm, env: Env, a: nat, n: nat, v: Value)
    requires Wired(vm) && n <= |env.locals| && PopsAt(vm.prog.code, a, |env.locals| - n)
    ensures Run(vm, State(env, [v], a), |env.locals| - n) == Running(State(Trim(env, n), [Bottom(env, n, v)], a + (|env.locals| - n)))
  {
    hide Run, Wired;
    var m := State(env, [v], a);
    PopMany(vm, m, |env.locals| - n);
    assert m.stack[..n + 1] == Vals(env.locals[..n]) + [Bottom(env, n, v)];
  }

  lemma BackRuns(vm: Vm, env: Env, a: nat, head: nat)
    requires Wired(vm) && BackAt(vm.prog.code, a, head)
    ensures Run(vm, State(env, [], a), 1) == Running(State(env, [], head))
  {
    OneStep(vm, State(env, [], a));
  }

  lemma BreakJumps(vm: Vm, env: Env, a: nat, exit: nat)
    requires Wired(vm) && BreakAt(vm.prog.code, a, Some(exit)) && exit - (a + 3) <= 0xFFFF && exit <= |vm.prog.code|
    ensures Run(vm, State(env, [], a), 1) == Running(State(env, [], exit))
  {
    JumpRuns(vm, env, a, [], exit - (a + 3));
  }

  lemma NilRuns(vm: Vm, env: Env, a: nat)
    requires Wired(vm) && OpAt(vm.prog.code, a, OP_NIL)
    ensures Run(vm, State(env, [], a), 1) == Running(State(env, [Nil], a + 1))
  {
    var m := State(env, [], a);
    OneStep(vm, m);
    assert m.stack + [Nil] == Vals(env.locals) + [Nil];
  }

  // --- Placement ---

  // The code from `a` of length `n` lies in the loop, and the loop is short enough for its jumps.
  ghost predicate Room(prog: Prog, c: Scope, l: Option<Loop>, a: nat, n: nat) {
    && c.over <= |c.locals|
    && a + n <= |prog.code|
    && (l.Some? ==>
          && l.value.exit.Some? && l.value.head <= a && a + n <= l.value.exit.value <= |prog.code|
          && l.value.exit.value - l.value.head <= 0x10000)
  }

  ghost predicate Has(prog: Prog, pools: Pools) {
    Within(pools, Pools(prog.consts, prog.strings))
  }

  ghost predicate StmtPlaced(prog: Prog, s: Stmt, c: Scope, l: Option<Loop>, pools: Pools, a: nat) {
    && StmtFits(s, c, pools) && StmtAt(prog.code, a, s, c, l, pools)
    && Has(prog, StmtPools(s, c, pools)) && Room(prog, c, l, a, SizeStmt(s, c))
  }

  ghost predicate ListPlaced(prog: Prog, ss: Stmts, c: Scope, l: Option<Loop>, pools: Pools, a: nat) {
    && ListFits(ss, c, pools) && ListAt(prog.code, a, ss, c, l, pools)
    && Has(prog, ListPools(ss, c, pools)) && Room(prog, c, l, a, SizeList(ss, c))
  }

  ghost predicate BlockPlaced(prog: Prog, ss: Stmts, c: Scope, l: Option<Loop>, pools: Pools, a: nat) {
    && ListFits(ss, Inner(c), pools) && BlockAt(prog.code, a, ss, c, l, pools)
    && Has(prog, ListPools(ss, Inner(c), pools)) && Room(prog, c, l, a, SizeBlock(ss, c))
  }

  ghost predicate TailPlaced(prog: Prog, ss: Stmts, c: Scope, l: Option<Loop>, pools: Pools, a: nat) {
    && ListFits(ss, c, pools) && TailAt(prog.code, a, ss, c, l, pools)
    && Has(prog, ListPools(ss, c, pools)) && Room(prog, c, l, a, SizeTail(ss, c))
  }

  ghost predicate BranchPlaced(prog: Prog, ss: Stmts, c: Scope, l: Option<Loop>, pools: Pools, a: nat) {
    && ListFits(ss, Inner(c), pools) && BranchAt(prog.code, a, ss, c, l, pools)
    && Has(prog, ListPools(ss, Inner(c), pools)) && Room(prog, c, l, a, SizeBranch(ss, c))
  }

  ghost predicate IfPlaced(prog: Prog, i: If, c: Scope, l: Option<Loop>, pools: Pools, a: nat) {
    && IfFits(i, c, pools) && IfAt(prog.code, a, i, c, l, pools)
    && Has(prog, IfPools(i, c, pools)) && Room(prog, c, l, a, SizeIf(i, c))
  }

  ghost predicate ElsePlaced(prog: Prog, x: Else, c: Scope, l: Option<Loop>, pools: Pools, a: nat) {
    && ElseFits(x, c, pools) && ElseAt(prog.code, a, x, c, l, pools)
    && Has(prog, ElsePools(x, c, pools)) && Room(prog, c, l, a, SizeElse(x, c))
  }

  // --- Pools only grow ---

  lemma {:induction false} StmtPoolsGrow(s: Stmt, c: Scope, pools: Pools)
    ensures Within(pools, StmtPools(s, c, pools))
    decreases s, 1
  {
    match s
    case Let(name, _, e) => PoolsGrow(e, c.locals, pools);
    case Eval(e) => PoolsGrow(e, c.locals, pools);
    case IfStmt(i) => IfPoolsGrow(i, c, pools);
    case While(cond, body) =>
      PoolsGrow(cond, c.locals, pools);
      ListPoolsGrow(body, Inner(InLoop(c)), ExprPools(cond, c.locals, pools));
    case Block(ss) => ListPoolsGrow(ss, Inner(c), pools);
    case Break =>
    case Continue =>
  }

  lemma {:induction false} ListPoolsGrow(ss: Stmts, c: Scope, pools: Pools)
    ensures Within(pools, ListPools(ss, c, pools))
    decreases ss, 1
  {
    match ss
    case Done =>
    case Then(s, rest) =>
      StmtPoolsGrow(s, c, pools);
      ListPoolsGrow(rest, After(s, c), StmtPools(s, c, pools));
  }

  lemma {:induction false} IfPoolsGrow(i: If, c: Scope, pools: Pools)
    ensures Within(pools, IfPools(i, c, pools))
    decreases i, 1
  {
    var p1 := ExprPools(i.cond, c.locals, pools);
    PoolsGrow(i.cond, c.locals, pools);
    ListPoolsGrow(i.thn, Inner(c), p1);
    ElsePoolsGrow(i.els, c, ListPools(i.thn, Inner(c), p1));
  }

  lemma {:induction false} ElsePoolsGrow(x: Else, c: Scope, pools: Pools)
    ensures Within(pools, ElsePools(x, c, pools))
    decreases x, 1
  {
    match x
    case NoElse =>
    case ElseBlock(ss) => ListPoolsGrow(ss, Inner(c), pools);
    case ElseIf(i) => IfPoolsGrow(i, c, pools);
  }

  // --- Pieces of a run ---

  lemma EndsPop(vm: Vm, m: Machine, k: nat, o: Outcome, fuel: nat, kept: seq<Local>, after: seq<Local>,
                l: Option<Loop>, v: Value, end: nat) returns (k': nat)
    requires Wired(vm) && OpAt(vm.prog.code, end, OP_POP) && Ends(vm, m, k, o, fuel, kept, after, l, [v], end)
    ensures Ends(vm, m, k', o, fuel, kept, after, l, [], end + 1)
  {
    hide Run, OpAt, Wired;
    k' := k;
    if o.Normal? {
      assert [] + [v] == [v];
      PopRuns(vm, o.env, end, [], v);
      RunThen(vm, m, k, State(o.env, [v], end), 1);
      k' := k + 1;
    }
  }

  lemma EndsJump(vm: Vm, m: Machine, k: nat, o: Outcome, fuel: nat, kept: seq<Local>, after: seq<Local>,
                 l: Option<Loop>, temps: seq<Value>, end: nat, d: nat) returns (k': nat)
    requires Wired(vm) && JumpAt(vm.prog.code, end, OP_JUMP, d) && d <= 0xFFFF && end + 3 + d <= |vm.prog.code|
    requires Ends(vm, m, k, o, fuel, kept, after, l, temps, end)
    ensures Ends(vm, m, k', o, fuel, kept, after, l, temps, end + 3 + d)
  {
    hide Run, JumpAt, Wired;
    k' := k;
    if o.Normal? {
      JumpRuns(vm, o.env, end, temps, d);
      RunThen(vm, m, k, State(o.env, temps, end), 1);
      k' := k + 1;
    }
  }

  // A condition and the test behind it: the chosen side starts with the condition popped.
  lemma Tested(vm: Vm, m: Machine, k: nat, r: Result, locals: seq<Local>, b: nat, d: nat)
    requires Wired(vm) && r.Ok? && Lands(vm, m, k, r, locals, [], b)
    requires JumpAt(vm.prog.code, b, OP_JUMP_UNLESS, d) && d <= 0xFFFF
    requires OpAt(vm.prog.code, b + 3, OP_POP) && OpAt(vm.prog.code, b + 3 + d, OP_POP)
    ensures Names(locals, r.env)
    ensures Run(vm, m, k + 2) == Running(State(r.env, [], if vm.p.truthy(r.v) then b + 4 else b + 4 + d))
  {
    hide Run, OpAt, JumpAt, Wired;
    TestRuns(vm, r.env, b, [], r.v, d);
    RunThen(vm, m, k, State(r.env, [] + [r.v], b), 2);
  }

  // Leaving a block: its locals are popped and its outcome loses them.
  lemma BlockEnds(vm: Vm, m: Machine, k: nat, o: Outcome, fuel: nat, c: Scope, ss: Stmts, l: Option<Loop>, end: nat) returns (k': nat)
    requires Wired(vm) && c.over <= |c.locals| && PopsAt(vm.prog.code, end, Declared(ss))
    requires Ends(vm, m, k, o, fuel, Kept(c), AfterList(ss, Inner(c)).locals, l, [], end)
    ensures Ends(vm, m, k', TrimOutcome(o, |c.locals|), fuel, Kept(c), c.locals, l, [], end + Declared(ss))
  {
    hide Run, PopsAt, Wired;
    ListKeeps(ss, Inner(c));
    k' := k;
    if o.Normal? {
      PopLocals(vm, o.env, end, |c.locals|);
      RunThen(vm, m, k, State(o.env, [], end), Declared(ss));
      k' := k + Declared(ss);
    } else if o.Broke? || o.Continued? {
      assert Trim(Trim(o.env, |c.locals|), |Kept(c)|) == Trim(o.env, |Kept(c)|);
    }
  }

  lemma BranchEnds(vm: Vm, m: Machine, k: nat, o: Outcome, fuel: nat, c: Scope, ss: Stmts, l: Option<Loop>, v: Value, end: nat)
    returns (k': nat, v': Value)
    requires Wired(vm) && c.over <= |c.locals| && PopsAt(vm.prog.code, end, Declared(ss))
    requires Ends(vm, m, k, o, fuel, Kept(c), AfterList(ss, Inner(c)).locals, l, [v], end)
    ensures Ends(vm, m, k', TrimOutcome(o, |c.locals|), fuel, Kept(c), c.locals, l, [v'], end + Declared(ss))
    ensures o.Normal? ==> v' == Bottom(o.env, |c.locals|, v) && |o.env.locals| == |c.locals| + Declared(ss)
  {
    hide Run, PopsAt, Wired;
    ListKeeps(ss, Inner(c));
    k', v' := k, v;
    if o.Normal? {
      PopUnder(vm, o.env, end, |c.locals|, v);
      v' := Bottom(o.env, |c.locals|, v);
      RunThen(vm, m, k, State(o.env, [v], end), Declared(ss));
      k' := k + Declared(ss);
    } else if o.Broke? || o.Continued? {
      assert Trim(Trim(o.env, |c.locals|), |Kept(c)|) == Trim(o.env, |Kept(c)|);
    }
  }

  // --- Simple statements ---

  lemma EvalRuns(vm: Vm, s: Stmt, env: Env, c: Scope, l: Option<Loop>, pools: Pools, a: nat, fuel: nat) returns (k: nat)
    requires Wired(vm) && s.Eval? && Names(c.locals, env) && StmtPlaced(vm.prog, s, c, l, pools, a)
    ensures Ends(vm, State(env, [], a), k, Exec(vm.p, s, env, c.depth == 0, fuel), fuel, Kept(c), After(s, c).locals,
                 l, [], a + SizeStmt(s, c))
  {
    hide Run, Wired, OpAt, ExprAt, ExprFits;
    k := ExprRuns(vm, s.e, env, c.locals, pools, a, []);
    var r, b := EvalExpr(vm.p, s.e, env), a + SizeExpr(s.e);
    if r.Ok? {
      PopRuns(vm, r.env, b, [], r.v);
      RunThen(vm, State(env, [], a), k, State(r.env, [] + [r.v], b), 1);
      k := k + 1;
    }
  }

  // A global declaration stores the value by name and pops it.
  lemma DeclareRuns(vm: Vm, env: Env, a: nat, v: Value, i: nat, name: string)
    requires Wired(vm) && ArgAt(vm.prog.code, a, OP_SET_GLOBAL, i) && i <= 0xFFFF && OpAt(vm.prog.code, a + 3, OP_POP)
    requires i < |vm.prog.strings| && vm.prog.strings[i] == name
    ensures Run(vm, State(env, [] + [v], a), 2) == Running(State(Declare(env, true, name, v), [], a + 4))
  {
    hide Run, Wired, OpAt, ArgAt;
    var m, env' := State(env, [] + [v], a), Declare(env, true, name, v);
    AccessStep(vm, m, i);
    assert Top(m.stack) == v;
    PopRuns(vm, env', a + 3, [], v);
    RunThen(vm, m, 1, State(env', [] + [v], a + 3), 1);
  }

  lemma LetRuns(vm: Vm, s: Stmt, env: Env, c: Scope, l: Option<Loop>, pools: Pools, a: nat, fuel: nat) returns (k: nat)
    requires Wired(vm) && s.Let? && Names(c.locals, env) && StmtPlaced(vm.prog, s, c, l, pools, a)
    ensures Ends(vm, State(env, [], a), k, Exec(vm.p, s, env, c.depth == 0, fuel), fuel, Kept(c), After(s, c).locals,
                 l, [], a + SizeStmt(s, c))
  {
    hide Run, Wired, OpAt, ArgAt, ExprAt, ExprFits, IndexOf;
    var p1, m, b := ExprPools(s.init, c.locals, pools), State(env, [], a), a + SizeExpr(s.init);
    k := ExprRuns(vm, s.init, env, c.locals, pools, a, []);
    var r := EvalExpr(vm.p, s.init, env);
    if r.Ok? {
      var env' := Declare(r.env, c.depth == 0, s.name, r.v);
      if c.depth == 0 {
        AddStringFinds(p1.strings, s.name, vm.prog.strings);
        DeclareRuns(vm, r.env, b, r.v, IndexOf(p1.strings, s.name), s.name);
        RunThen(vm, m, k, State(r.env, [] + [r.v], b), 2);
        k := k + 2;
      } else {
        assert Vals(env'.locals) + [] == Vals(r.env.locals) + ([] + [r.v]);
      }
    }
  }

  lemma LeaveRuns(vm: Vm, s: Stmt, env: Env, c: Scope, l: Option<Loop>, pools: Pools, a: nat, fuel: nat) returns (k: nat)
    requires Wired(vm) && (s.Break? || s.Continue?) && Names(c.locals, env) && StmtPlaced(vm.prog, s, c, l, pools, a)
    ensures Ends(vm, State(env, [], a), k, Exec(vm.p, s, env, c.depth == 0, fuel), fuel, Kept(c), After(s, c).locals,
                 l, [], a + SizeStmt(s, c))
  {
    hide Run, Wired, PopsAt, BackAt, JumpAt;
    var n := |c.locals| - c.over;
    var env' := Trim(env, n);
    PopLocals(vm, env, a, n);
    if s.Break? {
      BreakJumps(vm, env', a + c.over, l.value.exit.value);
    } else {
      BackRuns(vm, env', a + c.over, l.value.head);
    }
    RunThen(vm, State(env, [], a), c.over, State(env', [], a + c.over), 1);
    k := c.over + 1;
  }

  // --- What the code of a compound statement consists of ---

  lemma ListParts(prog: Prog, ss: Stmts, c: Scope, l: Option<Loop>, pools: Pools, a: nat)
    requires ss.Then? && ListPlaced(prog, ss, c, l, pools, a)
    ensures var s := ss.head;
            && SizeList(ss, c) == SizeStmt(s, c) + SizeList(ss.tail, After(s, c))
            && StmtPlaced(prog, s, c, l, pools, a)
            && ListPlaced(prog, ss.tail, After(s, c), l, StmtPools(s, c, pools), a + SizeStmt(s, c))
            && AfterList(ss, c) == AfterList(ss.tail, After(s, c)) && After(s, c).depth == c.depth
            && Kept(After(s, c)) == Kept(c)
  {
    hide ExprAt, ExprFits, StmtAt, StmtFits, SizeStmt;
    AfterKeeps(ss.head, c);
    ListPoolsGrow(ss.tail, After(ss.head, c), StmtPools(ss.head, c, pools));
  }

  lemma TailParts(prog: Prog, ss: Stmts, c: Scope, l: Option<Loop>, pools: Pools, a: nat)
    requires ss.Then? && !(ss.head.Eval? && ss.tail.Done?) && TailPlaced(prog, ss, c, l, pools, a)
    ensures var s := ss.head;
            && SizeTail(ss, c) == SizeStmt(s, c) + SizeTail(ss.tail, After(s, c))
            && StmtPlaced(prog, s, c, l, pools, a)
            && TailPlaced(prog, ss.tail, After(s, c), l, StmtPools(s, c, pools), a + SizeStmt(s, c))
            && AfterList(ss, c) == AfterList(ss.tail, After(s, c)) && After(s, c).depth == c.depth
            && Kept(After(s, c)) == Kept(c)
  {
    hide ExprAt, ExprFits, StmtAt, StmtFits, SizeStmt;
    AfterKeeps(ss.head, c);
    ListPoolsGrow(ss.tail, After(ss.head, c), StmtPools(ss.head, c, pools));
  }

  lemma BlockParts(prog: Prog, ss: Stmts, c: Scope, l: Option<Loop>, pools: Pools, a: nat)
    requires BlockPlaced(prog, ss, c, l, pools, a)
    ensures && SizeBlock(ss, c) == SizeList(ss, Inner(c)) + Declared(ss)
            && ListPlaced(prog, ss, Inner(c), l, pools, a)
            && PopsAt(prog.code, a + SizeList(ss, Inner(c)), Declared(ss))
            && Kept(Inner(c)) == Kept(c) && Inner(c).locals == c.locals && Inner(c).depth > 0 && c.over <= |c.locals|
  {
  }

  lemma BranchParts(prog: Prog, ss: Stmts, c: Scope, l: Option<Loop>, pools: Pools, a: nat)
    requires BranchPlaced(prog, ss, c, l, pools, a)
    ensures && SizeBranch(ss, c) == SizeTail(ss, Inner(c)) + Declared(ss)
            && TailPlaced(prog, ss, Inner(c), l, pools, a)
            && PopsAt(prog.code, a + SizeTail(ss, Inner(c)), Declared(ss))
            && Kept(Inner(c)) == Kept(c) && Inner(c).locals == c.locals && Inner(c).depth > 0 && c.over <= |c.locals|
  {
  }

  lemma IfParts(prog: Prog, i: If, c: Scope, l: Option<Loop>, pools: Pools, a: nat)
    requires IfPlaced(prog, i, c, l, pools, a)
    ensures var b, n, e := a + SizeExpr(i.cond), SizeBranch(i.thn, c), SizeElse(i.els, c);
            var p1 := ExprPools(i.cond, c.locals, pools);
            && SizeIf(i, c) == SizeExpr(i.cond) + 4 + n + 4 + e && b + 4 + n + 4 + e <= |prog.code|
            && Placed(prog, i.cond, c.locals, pools, a)
            && JumpAt(prog.code, b, OP_JUMP_UNLESS, 1 + n + 3) && 1 + n + 3 <= 0xFFFF
            && OpAt(prog.code, b + 3, OP_POP)
            && BranchPlaced(prog, i.thn, c, l, p1, b + 4)
            && JumpAt(prog.code, b + 4 + n, OP_JUMP, 1 + e) && 1 + e <= 0xFFFF
            && OpAt(prog.code, b + 4 + n + 3, OP_POP)
            && ElsePlaced(prog, i.els, c, l, ListPools(i.thn, Inner(c), p1), b + 4 + n + 4)
  {
    hide ExprAt, ExprFits, BranchAt, ListFits, ElseAt, ElseFits, SizeBranch, SizeElse, SizeExpr, ExprPools, ListPools, ElsePools,
         JumpAt, OpAt;
    var p1 := ExprPools(i.cond, c.locals, pools);
    ListPoolsGrow(i.thn, Inner(c), p1);
    ElsePoolsGrow(i.els, c, ListPools(i.thn, Inner(c), p1));
  }

  lemma IfStmtParts(prog: Prog, s: Stmt, c: Scope, l: Option<Loop>, pools: Pools, a: nat)
    requires s.IfStmt? && StmtPlaced(prog, s, c, l, pools, a)
    ensures IfPlaced(prog, s.branch, c, l, pools, a) && OpAt(prog.code, a + SizeIf(s.branch, c), OP_POP)
    ensures SizeStmt(s, c) == SizeIf(s.branch, c) + 1 && After(s, c) == c
  {
    hide IfFits, IfAt, IfPools, SizeIf, OpAt;
  }

  lemma BlockStmtParts(prog: Prog, s: Stmt, c: Scope, l: Option<Loop>, pools: Pools, a: nat)
    requires s.Block? && StmtPlaced(prog, s, c, l, pools, a)
    ensures BlockPlaced(prog, s.stmts, c, l, pools, a) && SizeStmt(s, c) == SizeBlock(s.stmts, c) && After(s, c) == c
  {
    hide ListFits, BlockAt, ListPools, SizeBlock;
  }

  lemma NestedMeaning(p: Prims, s: Stmt, env: Env, top: bool, fuel: nat)
    ensures s.IfStmt? ==> Exec(p, s, env, top, fuel) == ExecIf(p, s.branch, env, fuel)
    ensures s.Block? ==> Exec(p, s, env, top, fuel) == ExecBlock(p, s.stmts, env, fuel)
  {
    hide ExecIf, ExecBlock;
  }

  // Unfolding a while statement, with nothing said about where it lies.
  lemma WhileCode(code: seq<byte>, s: Stmt, c: Scope, l: Option<Loop>, pools: Pools, a: nat)
    requires s.While? && StmtFits(s, c, pools) && StmtAt(code, a, s, c, l, pools)
    ensures var b, n, p1 := a + SizeExpr(s.cond), SizeBlock(s.body, InLoop(c)), ExprPools(s.cond, c.locals, pools);
            && SizeStmt(s, c) == SizeExpr(s.cond) + 4 + n + 4
            && StmtPools(s, c, pools) == ListPools(s.body, Inner(InLoop(c)), p1)
            && ExprAt(code, a, s.cond, c.locals, pools) && ExprFits(s.cond, c.locals, pools)
            && JumpAt(code, b, OP_JUMP_UNLESS, 1 + n + 3)
            && OpAt(code, b + 3, OP_POP)
            && BlockAt(code, b + 4, s.body, InLoop(c), Some(Loop(a, Some(b + 4 + n + 4))), p1)
            && ListFits(s.body, Inner(InLoop(c)), p1)
            && BackAt(code, b + 4 + n, a)
            && OpAt(code, b + 4 + n + 3, OP_POP)
  {
    hide ExprAt, ExprFits, BlockAt, ListFits, SizeBlock, SizeExpr, ExprPools, ListPools, JumpAt, OpAt, BackAt;
  }

  lemma BackFits(code: seq<byte>, a: nat, head: nat)
    requires BackAt(code, a, head)
    ensures head <= a && a + 3 - head <= 0xFFFF
  {
  }

  lemma LoopRoom(prog: Prog, c: Scope, l: Option<Loop>, a: nat, x: nat, n: nat)
    requires Room(prog, c, l, a, x + 4 + n + 4) && x + 4 + n + 3 <= 0xFFFF
    ensures Room(prog, InLoop(c), Some(Loop(a, Some(a + x + 4 + n + 4))), a + x + 4, n)
    ensures Kept(InLoop(c)) == c.locals
  {
  }

  lemma WhileParts(prog: Prog, s: Stmt, c: Scope, l: Option<Loop>, pools: Pools, a: nat)
    requires s.While? && StmtPlaced(prog, s, c, l, pools, a)
    ensures var b, n := a + SizeExpr(s.cond), SizeBlock(s.body, InLoop(c));
            && SizeStmt(s, c) == SizeExpr(s.cond) + 4 + n + 4 && After(s, c) == c
            && Placed(prog, s.cond, c.locals, pools, a)
            && JumpAt(prog.code, b, OP_JUMP_UNLESS, 1 + n + 3) && 1 + n + 3 <= 0xFFFF
            && OpAt(prog.code, b + 3, OP_POP)
            && BlockPlaced(prog, s.body, InLoop(c), Some(Loop(a, Some(b + 4 + n + 4))), ExprPools(s.cond, c.locals, pools), b + 4)
            && BackAt(prog.code, b + 4 + n, a)
            && OpAt(prog.code, b + 4 + n + 3, OP_POP)
            && Kept(InLoop(c)) == c.locals && InLoop(c).locals == c.locals
  {
    hide StmtAt, StmtFits, StmtPools, SizeStmt, ExprAt, ExprFits, BlockAt, ListFits, ListPools, SizeBlock, SizeExpr, ExprPools,
         JumpAt, OpAt, ArgAt, BackAt, Room, Kept;
    WhileCode(prog.code, s, c, l, pools, a);
    ListPoolsGrow(s.body, Inner(InLoop(c)), ExprPools(s.cond, c.locals, pools));
    var x, n := SizeExpr(s.cond), SizeBlock(s.body, InLoop(c));
    BackFits(prog.code, a + x + 4 + n, a);
    LoopRoom(prog, c, l, a, x, n);
  }

  // --- What compound statements mean ---

  // How a while loop goes on after a round of its body.
  function Round(p: Prims, s: Stmt, o: Outcome, top: bool, fuel: nat): Outcome {
    match o
    case Normal(env) => Exec(p, s, env, top, fuel)
    case Continued(env) => Exec(p, s, env, top, fuel)
    case Broke(env) => Normal(env)
    case _ => o
  }

  lemma WhileMeaning(p: Prims, s: Stmt, env: Env, top: bool, fuel: nat)
    requires s.While?
    ensures var r := EvalExpr(p, s.cond, env);
            Exec(p, s, env, top, fuel) ==
              if fuel == 0 then OutOfFuel
              else if r.Fail? then Error
              else if !p.truthy(r.v) then Normal(r.env)
              else Round(p, s, ExecBlock(p, s.body, r.env, fuel - 1), top, fuel - 1)
  {
  }

  lemma IfMeaning(p: Prims, i: If, env: Env, fuel: nat)
    ensures var r := EvalExpr(p, i.cond, env);
            ExecIf(p, i, env, fuel) ==
              if r.Fail? then Error
              else if p.truthy(r.v) then ExecBlock(p, i.thn, r.env, fuel) else ExecElse(p, i.els, r.env, fuel)
  {
  }

  lemma ListMeaning(p: Prims, ss: Stmts, env: Env, top: bool, fuel: nat)
    requires ss.Then?
    ensures var o := Exec(p, ss.head, env, top, fuel);
            ExecList(p, ss, env, top, fuel) == if o.Normal? then ExecList(p, ss.tail, o.env, top, fuel) else o
  {
  }

  // --- What branches leave on the stack ---

  // The value that a branch is compiled for: that of its last expression, or nil.
  function TailValue(p: Prims, ss: Stmts, env: Env, fuel: nat): Value
    decreases ss
  {
    if ss.Done? then Nil
    else if ss.head.Eval? && ss.tail.Done? then
      match EvalExpr(p, ss.head.e, env) { case Ok(v, _) => v case Fail => Nil }
    else
      match Exec(p, ss.head, env, false, fuel) { case Normal(env1) => TailValue(p, ss.tail, env1, fuel) case _ => Nil }
  }

  // The value that it leaves: it is on top of the branch's locals when they are popped, so the first of
  // them takes its place.
  function BranchValue(p: Prims, ss: Stmts, env: Env, fuel: nat): Value {
    var o := ExecList(p, ss, env, false, fuel);
    if o.Normal? then Bottom(o.env, |env.locals|, TailValue(p, ss, env, fuel)) else Nil
  }

  function IfValue(p: Prims, i: If, env: Env, fuel: nat): Value {
    match EvalExpr(p, i.cond, env)
    case Fail => Nil
    case Ok(v, env1) => if p.truthy(v) then BranchValue(p, i.thn, env1, fuel) else ElseValue(p, i.els, env1, fuel)
  }

  function ElseValue(p: Prims, x: Else, env: Env, fuel: nat): Value {
    match x
    case NoElse => Nil
    case ElseBlock(ss) => BranchValue(p, ss, env, fuel)
    case ElseIf(i) => IfValue(p, i, env, fuel)
  }

  lemma TailMeaning(p: Prims, ss: Stmts, env: Env, fuel: nat)
    ensures ss.Done? ==> TailValue(p, ss, env, fuel) == Nil
    ensures ss.Then? && ss.head.Eval? && ss.tail.Done? && EvalExpr(p, ss.head.e, env).Ok? ==> TailValue(p, ss, env, fuel) == EvalExpr(p, ss.head.e, env).v
    ensures ss.Then? && !(ss.head.Eval? && ss.tail.Done?) ==>
              var o := Exec(p, ss.head, env, false, fuel); o.Normal? ==> TailValue(p, ss, env, fuel) == TailValue(p, ss.tail, o.env, fuel)
  {
    hide EvalExpr, Exec;
  }

  lemma BranchMeaning(p: Prims, ss: Stmts, env: Env, locals: seq<Local>, fuel: nat)
    requires Names(locals, env)
    ensures ExecBlock(p, ss, env, fuel) == TrimOutcome(ExecList(p, ss, env, false, fuel), |locals|)
    ensures var o := ExecList(p, ss, env, false, fuel);
            && (o.Normal? ==> BranchValue(p, ss, env, fuel) == Bottom(o.env, |locals|, TailValue(p, ss, env, fuel)))
            && (o.Normal? <==> ExecBlock(p, ss, env, fuel).Normal?) && |env.locals| == |locals|
  {
    hide ExecList, TailValue;
  }

  lemma IfValueMeaning(p: Prims, i: If, env: Env, fuel: nat)
    ensures var r := EvalExpr(p, i.cond, env);
            r.Ok? ==> IfValue(p, i, env, fuel) == if p.truthy(r.v) then BranchValue(p, i.thn, r.env, fuel) else ElseValue(p, i.els, r.env, fuel)
  {
    hide EvalExpr, BranchValue;
  }

  lemma BottomIs(env: Env, n: nat, v: Value)
    ensures Bottom(env, n, v) == if |env.locals| <= n then v else env.locals[n].1
  {
  }

  // --- Compound statements ---

  lemma NoneRuns(vm: Vm, ss: Stmts, env: Env, c: Scope, l: Option<Loop>, a: nat, fuel: nat)
    requires ss.Done? && Names(c.locals, env)
    ensures Ends(vm, State(env, [], a), 0, ExecList(vm.p, ss, env, c.depth == 0, fuel), fuel, Kept(c),
                 AfterList(ss, c).locals, l, [], a + SizeList(ss, c))
  {
  }

  lemma ListRuns(vm: Vm, ss: Stmts, env: Env, c: Scope, l: Option<Loop>, pools: Pools, a: nat, fuel: nat) returns (k: nat)
    requires Wired(vm) && Names(c.locals, env) && ListPlaced(vm.prog, ss, c, l, pools, a)
    ensures Ends(vm, State(env, [], a), k, ExecList(vm.p, ss, env, c.depth == 0, fuel), fuel, Kept(c),
                 AfterList(ss, c).locals, l, [], a + SizeList(ss, c))
    decreases fuel, ss, 0
  {
    hide *;
    if ss.Done? {
      k := 0;
      NoneRuns(vm, ss, env, c, l, a, fuel);
    } else {
      ListParts(vm.prog, ss, c, l, pools, a);
      ListMeaning(vm.p, ss, env, c.depth == 0, fuel);
      var s, m, b, d := ss.head, State(env, [], a), a + SizeStmt(ss.head, c), After(ss.head, c);
      var o := Exec(vm.p, s, env, c.depth == 0, fuel);
      k := StmtRuns(vm, s, env, c, l, pools, a, fuel);
      if o.Normal? {
        EndsNormal(vm, m, k, o, fuel, Kept(c), d.locals, l, [], b);
        var j := ListRuns(vm, ss.tail, o.env, d, l, StmtPools(s, c, pools), b, fuel);
        EndsAfter(vm, m, k, State(o.env, [], b), j, ExecList(vm.p, ss.tail, o.env, c.depth == 0, fuel), fuel, 0, Kept(c),
                  AfterList(ss, c).locals, l, [], a + SizeList(ss, c));
        k := k + j;
      } else {
        EndsElsewhere(vm, m, k, o, fuel, Kept(c), d.locals, AfterList(ss, c).locals, l, [], [], b, a + SizeList(ss, c));
      }
    }
  }

  lemma BlockRuns(vm: Vm, ss: Stmts, env: Env, c: Scope, l: Option<Loop>, pools: Pools, a: nat, fuel: nat) returns (k: nat)
    requires Wired(vm) && Names(c.locals, env) && BlockPlaced(vm.prog, ss, c, l, pools, a)
    ensures Ends(vm, State(env, [], a), k, ExecBlock(vm.p, ss, env, fuel), fuel, Kept(c), c.locals, l, [], a + SizeBlock(ss, c))
    decreases fuel, ss, 1
  {
    hide *;
    BlockMeaning(vm.p, ss, env, c.locals, fuel);
    BlockParts(vm.prog, ss, c, l, pools, a);
    k := ListRuns(vm, ss, env, Inner(c), l, pools, a, fuel);
    k := BlockEnds(vm, State(env, [], a), k, ExecList(vm.p, ss, env, false, fuel), fuel, c, ss, l, a + SizeList(ss, Inner(c)));
  }

  lemma BlockMeaning(p: Prims, ss: Stmts, env: Env, locals: seq<Local>, fuel: nat)
    requires Names(locals, env)
    ensures ExecBlock(p, ss, env, fuel) == TrimOutcome(ExecList(p, ss, env, false, fuel), |locals|)
  {
  }

  lemma TailRuns(vm: Vm, ss: Stmts, env: Env, c: Scope, l: Option<Loop>, pools: Pools, a: nat, fuel: nat)
    returns (k: nat, v: Value)
    requires Wired(vm) && Names(c.locals, env) && TailPlaced(vm.prog, ss, c, l, pools, a)
    ensures Ends(vm, State(env, [], a), k, ExecList(vm.p, ss, env, c.depth == 0, fuel), fuel, Kept(c),
                 AfterList(ss, c).locals, l, [v], a + SizeTail(ss, c))
    ensures c.depth > 0 && ExecList(vm.p, ss, env, false, fuel).Normal? ==> v == TailValue(vm.p, ss, env, fuel)
    decreases fuel, ss, 0
  {
    hide *;
    TailMeaning(vm.p, ss, env, fuel);
    if ss.Done? || (ss.head.Eval? && ss.tail.Done?) {
      k, v := LastRuns(vm, ss, env, c, l, pools, a, fuel);
    } else {
      TailParts(vm.prog, ss, c, l, pools, a);
      ListMeaning(vm.p, ss, env, c.depth == 0, fuel);
      var s, m, b, d := ss.head, State(env, [], a), a + SizeStmt(ss.head, c), After(ss.head, c);
      var o := Exec(vm.p, s, env, c.depth == 0, fuel);
      k := StmtRuns(vm, s, env, c, l, pools, a, fuel);
      if o.Normal? {
        EndsNormal(vm, m, k, o, fuel, Kept(c), d.locals, l, [], b);
        var j;
        j, v := TailRuns(vm, ss.tail, o.env, d, l, StmtPools(s, c, pools), b, fuel);
        EndsAfter(vm, m, k, State(o.env, [], b), j, ExecList(vm.p, ss.tail, o.env, c.depth == 0, fuel), fuel, 0, Kept(c),
                  AfterList(ss, c).locals, l, [v], a + SizeTail(ss, c));
        k := k + j;
      } else {
        v := Nil;
        EndsElsewhere(vm, m, k, o, fuel, Kept(c), d.locals, AfterList(ss, c).locals, l, [], [v], b, a + SizeTail(ss, c));
      }
    }
  }

  // The end of a branch: nil, or the value of the last expression.
  lemma LastRuns(vm: Vm, ss: Stmts, env: Env, c: Scope, l: Option<Loop>, pools: Pools, a: nat, fuel: nat)
    returns (k: nat, v: Value)
    requires Wired(vm) && Names(c.locals, env) && TailPlaced(vm.prog, ss, c, l, pools, a)
    requires ss.Done? || (ss.head.Eval? && ss.tail.Done?)
    ensures Ends(vm, State(env, [], a), k, ExecList(vm.p, ss, env, c.depth == 0, fuel), fuel, Kept(c),
                 AfterList(ss, c).locals, l, [v], a + SizeTail(ss, c))
    ensures ExecList(vm.p, ss, env, false, fuel).Normal? ==> v == TailValue(vm.p, ss, env, fuel)
  {
    hide Run, Wired, OpAt, ExprAt;
    if ss.Done? {
      NilRuns(vm, env, a);
      k, v := 1, Nil;
    } else {
      assert StmtFits(ss.head, c, pools);
      assert ListPools(ss, c, pools) == ListPools(ss.tail, After(ss.head, c), StmtPools(ss.head, c, pools));
      k := ExprRuns(vm, ss.head.e, env, c.locals, pools, a, []);
      var r := EvalExpr(vm.p, ss.head.e, env);
      v := if r.Ok? then r.v else Nil;
      assert [] + [v] == [v];
    }
  }

  // A branch leaves its value if it declares nothing, and otherwise what its first local holds at its end.
  lemma BranchRuns(vm: Vm, ss: Stmts, env: Env, c: Scope, l: Option<Loop>, pools: Pools, a: nat, fuel: nat)
    returns (k: nat, v: Value)
    requires Wired(vm) && Names(c.locals, env) && BranchPlaced(vm.prog, ss, c, l, pools, a)
    ensures Ends(vm, State(env, [], a), k, ExecBlock(vm.p, ss, env, fuel), fuel, Kept(c), c.locals, l, [v], a + SizeBranch(ss, c))
    ensures var o := ExecList(vm.p, ss, env, false, fuel);
            ExecBlock(vm.p, ss, env, fuel).Normal? ==>
              && o.Normal? && |o.env.locals| == |env.locals| + Declared(ss) && v == BranchValue(vm.p, ss, env, fuel)
              && v == if Declared(ss) == 0 then TailValue(vm.p, ss, env, fuel) else o.env.locals[|env.locals|].1
    decreases fuel, ss, 1
  {
    hide *;
    BranchMeaning(vm.p, ss, env, c.locals, fuel);
    BranchParts(vm.prog, ss, c, l, pools, a);
    k, v := TailRuns(vm, ss, env, Inner(c), l, pools, a, fuel);
    var o := ExecList(vm.p, ss, env, false, fuel);
    if o.Normal? {
      BottomIs(o.env, |c.locals|, v);
    }
    k, v := BranchEnds(vm, State(env, [], a), k, o, fuel, c, ss, l, v, a + SizeTail(ss, Inner(c)));
  }

  lemma IfRuns(vm: Vm, i: If, env: Env, c: Scope, l: Option<Loop>, pools: Pools, a: nat, fuel: nat) returns (k: nat, v: Value)
    requires Wired(vm) && Names(c.locals, env) && IfPlaced(vm.prog, i, c, l, pools, a)
    ensures Ends(vm, State(env, [], a), k, ExecIf(vm.p, i, env, fuel), fuel, Kept(c), c.locals, l, [v], a + SizeIf(i, c))
    ensures ExecIf(vm.p, i, env, fuel).Normal? ==> v == IfValue(vm.p, i, env, fuel)
    decreases fuel, i, 1
  {
    hide *;
    IfParts(vm.prog, i, c, l, pools, a);
    IfMeaning(vm.p, i, env, fuel);
    IfValueMeaning(vm.p, i, env, fuel);
    k := ExprRuns(vm, i.cond, env, c.locals, pools, a, []);
    var r, m, b, n := EvalExpr(vm.p, i.cond, env), State(env, [], a), a + SizeExpr(i.cond), SizeBranch(i.thn, c);
    v := Nil;
    if r.Fail? {
      EndsFail(vm, m, k, r, fuel, Kept(c), c.locals, l, [v], b, a + SizeIf(i, c));
    } else {
      Tested(vm, m, k, r, c.locals, b, 1 + n + 3);
      var j;
      var p1, end, e := ExprPools(i.cond, c.locals, pools), a + SizeIf(i, c), SizeElse(i.els, c);
      var m1 := State(r.env, [], if vm.p.truthy(r.v) then b + 4 else b + 4 + (1 + n + 3));
      if vm.p.truthy(r.v) {
        j, v := BranchRuns(vm, i.thn, r.env, c, l, p1, b + 4, fuel);
        j := EndsJump(vm, m1, j, ExecBlock(vm.p, i.thn, r.env, fuel), fuel, Kept(c), c.locals, l, [v], b + 4 + n, 1 + e);
      } else {
        j, v := ElseRuns(vm, i.els, r.env, c, l, ListPools(i.thn, Inner(c), p1), b + 4 + n + 4, fuel);
      }
      EndsAfter(vm, m, k + 2, m1, j, ExecIf(vm.p, i, env, fuel), fuel, 0, Kept(c), c.locals, l, [v], end);
      k := k + 2 + j;
    }
  }

  lemma ElseRuns(vm: Vm, x: Else, env: Env, c: Scope, l: Option<Loop>, pools: Pools, a: nat, fuel: nat) returns (k: nat, v: Value)
    requires Wired(vm) && Names(c.locals, env) && ElsePlaced(vm.prog, x, c, l, pools, a)
    ensures Ends(vm, State(env, [], a), k, ExecElse(vm.p, x, env, fuel), fuel, Kept(c), c.locals, l, [v], a + SizeElse(x, c))
    ensures ExecElse(vm.p, x, env, fuel).Normal? ==> v == ElseValue(vm.p, x, env, fuel)
    decreases fuel, x, 1
  {
    hide Run, Wired, OpAt, Ends, BranchAt, IfAt, ListFits, IfFits, ExecBlock, ExecIf;
    match x
    case NoElse =>
      NilRuns(vm, env, a);
      k, v := 1, Nil;
      EndsIntro(vm, State(env, [], a), k, env, fuel, Kept(c), c.locals, l, [v], a + 1);
    case ElseBlock(ss) => k, v := BranchRuns(vm, ss, env, c, l, pools, a, fuel);
    case ElseIf(i) => k, v := IfRuns(vm, i, env, c, l, pools, a, fuel);
  }

  // After a round of the body the machine is where the loop goes on.
  lemma RoundEnds(vm: Vm, m: Machine, k: nat, o: Outcome, fuel: nat, locals: seq<Local>, head: nat, back: nat) returns (k': nat)
    requires Wired(vm) && BackAt(vm.prog.code, back, head) && (o.Normal? || o.Continued?)
    requires Ends(vm, m, k, o, fuel, locals, locals, Some(Loop(head, Some(back + 4))), [], back)
    requires |o.env.locals| <= |locals|
    ensures k' >= k && Names(locals, o.env) && Run(vm, m, k') == Running(State(o.env, [], head))
  {
    hide Run, BackAt, Wired;
    k' := k;
    if o.Normal? {
      BackRuns(vm, o.env, back, head);
      RunThen(vm, m, k, State(o.env, [], back), 1);
      k' := k + 1;
    } else {
      assert Trim(o.env, |locals|) == o.env;
    }
  }

  lemma RoundLeaves(vm: Vm, m: Machine, k: nat, o: Outcome, fuel: nat, locals: seq<Local>, head: nat, back: nat, kept: seq<Local>, l: Option<Loop>)
    requires o.Broke? || o.Error? || o.OutOfFuel?
    requires Ends(vm, m, k, o, fuel, locals, locals, Some(Loop(head, Some(back + 4))), [], back)
    requires o.Broke? ==> |o.env.locals| <= |locals|
    ensures Ends(vm, m, k, if o.Broke? then Normal(o.env) else o, fuel, kept, locals, l, [], back + 4)
  {
    if o.Broke? {
      assert Trim(o.env, |locals|) == o.env;
    }
  }

  lemma BlockBound(p: Prims, ss: Stmts, env: Env, fuel: nat)
    ensures var o := ExecBlock(p, ss, env, fuel); o.Normal? || o.Broke? || o.Continued? ==> |o.env.locals| <= |env.locals|
  {
  }

  lemma RoundMeaning(p: Prims, s: Stmt, o: Outcome, top: bool, fuel: nat)
    ensures Round(p, s, o, top, fuel) ==
            if o.Normal? || o.Continued? then Exec(p, s, o.env, top, fuel) else if o.Broke? then Normal(o.env) else o
  {
  }

  lemma NamesLength(locals: seq<Local>, env: Env)
    requires Names(locals, env)
    ensures |env.locals| == |locals|
  {
  }

  lemma WhileRuns(vm: Vm, s: Stmt, env: Env, c: Scope, l: Option<Loop>, pools: Pools, a: nat, fuel: nat) returns (k: nat)
    requires Wired(vm) && s.While? && Names(c.locals, env) && StmtPlaced(vm.prog, s, c, l, pools, a)
    ensures Ends(vm, State(env, [], a), k, Exec(vm.p, s, env, c.depth == 0, fuel), fuel, Kept(c), After(s, c).locals,
                 l, [], a + SizeStmt(s, c))
    decreases fuel, s, 0
  {
    hide *;
    var m, r, top := State(env, [], a), EvalExpr(vm.p, s.cond, env), c.depth == 0;
    WhileMeaning(vm.p, s, env, top, fuel);
    WhileParts(vm.prog, s, c, l, pools, a);
    var b, n := a + SizeExpr(s.cond), SizeBlock(s.body, InLoop(c));
    if fuel == 0 {
      k := 0;
      EndsOut(vm, m, Kept(c), c.locals, l, [], a + SizeStmt(s, c));
    } else {
      k := ExprRuns(vm, s.cond, env, c.locals, pools, a, []);
      if r.Fail? {
        EndsFail(vm, m, k, r, fuel, Kept(c), c.locals, l, [], b, a + SizeStmt(s, c));
      } else {
        Tested(vm, m, k, r, c.locals, b, 1 + n + 3);
        if vm.p.truthy(r.v) {
          var back := b + 4 + n;
          var lp, m1, o := Some(Loop(a, Some(back + 4))), State(r.env, [], b + 4), ExecBlock(vm.p, s.body, r.env, fuel - 1);
          var j := BlockRuns(vm, s.body, r.env, InLoop(c), lp, ExprPools(s.cond, c.locals, pools), b + 4, fuel - 1);
          BlockBound(vm.p, s.body, r.env, fuel - 1);
          NamesLength(c.locals, r.env);
          RoundMeaning(vm.p, s, o, top, fuel - 1);
          var o' := Exec(vm.p, s, env, top, fuel);
          if o.Normal? || o.Continued? {
            var i := RoundEnds(vm, m1, j, o, fuel - 1, c.locals, a, back);
            RunThen(vm, m, k + 2, m1, i);
            j := WhileRuns(vm, s, o.env, c, l, pools, a, fuel - 1);
            EndsAfter(vm, m, k + 2 + i, State(o.env, [], a), j, o', fuel - 1, 1, Kept(c), c.locals, l, [], back + 4);
            k := k + 2 + i + j;
          } else {
            RoundLeaves(vm, m1, j, o, fuel - 1, c.locals, a, back, Kept(c), l);
            EndsAfter(vm, m, k + 2, m1, j, o', fuel - 1, 1, Kept(c), c.locals, l, [], back + 4);
            k := k + 2 + j;
          }
        } else {
          EndsIntro(vm, m, k + 2, r.env, fuel, Kept(c), c.locals, l, [], b + 4 + n + 4);
          k := k + 2;
        }
      }
    }
  }

  // For any statement, any chunk it stands in, any environment and any fuel.
  lemma StmtRuns(vm: Vm, s: Stmt, env: Env, c: Scope, l: Option<Loop>, pools: Pools, a: nat, fuel: nat) returns (k: nat)
    requires Wired(vm) && Names(c.locals, env) && StmtPlaced(vm.prog, s, c, l, pools, a)
    ensures Ends(vm, State(env, [], a), k, Exec(vm.p, s, env, c.depth == 0, fuel), fuel, Kept(c), After(s, c).locals,
                 l, [], a + SizeStmt(s, c))
    decreases fuel, s, 1
  {
    hide *;
    match s
    case Let(_, _, _) => k := LetRuns(vm, s, env, c, l, pools, a, fuel);
    case Eval(_) => k := EvalRuns(vm, s, env, c, l, pools, a, fuel);
    case IfStmt(i) =>
      IfStmtParts(vm.prog, s, c, l, pools, a);
      NestedMeaning(vm.p, s, env, c.depth == 0, fuel);
      var v;
      k, v := IfRuns(vm, i, env, c, l, pools, a, fuel);
      k := EndsPop(vm, State(env, [], a), k, ExecIf(vm.p, i, env, fuel), fuel, Kept(c), c.locals, l, v, a + SizeIf(i, c));
    case While(_, _) => k := WhileRuns(vm, s, env, c, l, pools, a, fuel);
    case Block(ss) =>
      BlockStmtParts(vm.prog, s, c, l, pools, a);
      NestedMeaning(vm.p, s, env, c.depth == 0, fuel);
      k := BlockRuns(vm, ss, env, c, l, pools, a, fuel);
    case Break => k := LeaveRuns(vm, s, env, c, l, pools, a, fuel);
    case Continue => k := LeaveRuns(vm, s, env, c, l, pools, a, fuel);
  }
}
