/** The bytecode of src/vm/bytecode.h, the stack machine that runs it (src/vm/vm.c), and the
    layout that the code of each construct has in a chunk once src/lang/compiler.c is done with it.
 */
module StackCode {
  import opened Ast

  type byte = b: nat | b < 256

  const OP_POP: byte := 1
  const OP_CONST: byte := 5
  const OP_NIL: byte := 6
  const OP_TRUE: byte := 7
  const OP_FALSE: byte := 8
  const OP_GET_LOCAL: byte := 24
  const OP_SET_LOCAL: byte := 25
  const OP_GET_GLOBAL: byte := 26
  const OP_SET_GLOBAL: byte := 27
  const OP_JUMP: byte := 28
  const OP_JUMP_UNLESS: byte := 30
  const OP_LOOP: byte := 31
  const OP_HALT: byte := 164

  // OP_ADD .. OP_MOD and OP_EQ .. OP_GE.
  function BinCode(op: BinOp): byte {
    match op
    case Add => 9 case Sub => 10 case Mul => 11 case Div => 12 case Mod => 13
    case Eq => 15 case Ne => 16 case Lt => 17 case Le => 18 case Gt => 19 case Ge => 20
  }

  function BinOf(b: byte): Option<BinOp> {
    if b == 9 then Some(Add) else if b == 10 then Some(Sub) else if b == 11 then Some(Mul)
    else if b == 12 then Some(Div) else if b == 13 then Some(Mod) else if b == 15 then Some(Eq)
    else if b == 16 then Some(Ne) else if b == 17 then Some(Lt) else if b == 18 then Some(Le)
    else if b == 19 then Some(Gt) else if b == 20 then Some(Ge) else None
  }

  // OP_NEG and OP_NOT.
  function UnCode(op: UnOp): byte {
    match op case Neg => 14 case Not => 21
  }

  // --- The machine ---

  datatype Prog = Prog(code: seq<byte>, consts: seq<Value>, strings: seq<string>)

  datatype Machine = Machine(pc: nat, stack: seq<Value>, globals: map<string, Value>)

  datatype Status = Running(m: Machine) | Halted(m: Machine) | Crashed

  function Operand(code: seq<byte>, pc: nat): nat
    requires pc + 2 < |code|
  {
    var hi: nat, lo: nat := code[pc + 1], code[pc + 2];
    hi * 256 + lo
  }

  function Top(s: seq<Value>): Value
    requires s != []
  {
    s[|s| - 1]
  }

  function StepPlain(p: Prims, prog: Prog, m: Machine): Status
    requires m.pc < |prog.code|
  {
    var op, s, n := prog.code[m.pc], m.stack, |m.stack|;
    var next := m.(pc := m.pc + 1);
    if op == OP_HALT then Halted(next)
    else if op == OP_POP then
      if n == 0 then Crashed else Running(next.(stack := s[..n - 1]))
    else if op == OP_NIL then Running(next.(stack := s + [Nil]))
    else if op == OP_TRUE then Running(next.(stack := s + [Bool(true)]))
    else if op == OP_FALSE then Running(next.(stack := s + [Bool(false)]))
    else if op == UnCode(Neg) || op == UnCode(Not) then
      if n == 0 then Crashed else
        match p.un(if op == UnCode(Neg) then Neg else Not, Top(s))
        case None => Crashed
        case Some(v) => Running(next.(stack := s[..n - 1] + [v]))
    else
      match BinOf(op)
      case None => Crashed
      case Some(b) =>
        if n < 2 then Crashed else
          match p.bin(b, s[n - 2], s[n - 1])
          case None => Crashed
          case Some(v) => Running(next.(stack := s[..n - 2] + [v]))
  }

  predicate HasOperand(op: byte) {
    op == OP_CONST || (OP_GET_LOCAL <= op <= OP_LOOP)
  }

  function StepOperand(p: Prims, prog: Prog, m: Machine): Status
    requires m.pc + 2 < |prog.code|
  {
    var op, arg, s := prog.code[m.pc], Operand(prog.code, m.pc), m.stack;
    var next := m.(pc := m.pc + 3);
    if op == OP_CONST then
      if arg < |prog.consts| then Running(next.(stack := s + [prog.consts[arg]])) else Crashed
    else if op == OP_GET_LOCAL then
      if arg < |s| then Running(next.(stack := s + [s[arg]])) else Crashed
    else if op == OP_SET_LOCAL then
      if arg < |s| then Running(next.(stack := s[arg := Top(s)])) else Crashed
    else if op == OP_GET_GLOBAL then
      if arg < |prog.strings| && prog.strings[arg] in m.globals
      then Running(next.(stack := s + [m.globals[prog.strings[arg]]])) else Crashed
    else if op == OP_SET_GLOBAL then
      if arg < |prog.strings| && s != []
      then Running(next.(globals := m.globals[prog.strings[arg] := Top(s)])) else Crashed
    else if op == OP_JUMP then
      if m.pc + 3 + arg <= |prog.code| then Running(m.(pc := m.pc + 3 + arg)) else Crashed
    else if op == OP_JUMP_UNLESS then
      if s == [] then Crashed
      else if p.truthy(Top(s)) then Running(next)
      else if m.pc + 3 + arg <= |prog.code| then Running(m.(pc := m.pc + 3 + arg)) else Crashed
    else if op == OP_LOOP then
      if arg <= m.pc + 3 then Running(m.(pc := m.pc + 3 - arg)) else Crashed
    else Crashed
  }

  function Step(p: Prims, prog: Prog, m: Machine): Status {
    if m.pc >= |prog.code| then Crashed
    else if HasOperand(prog.code[m.pc]) then
      if m.pc + 2 < |prog.code| then StepOperand(p, prog, m) else Crashed
    else StepPlain(p, prog, m)
  }

  // A machine ready to run: `step` is Step on this program. Keeping it as a value lets the proofs
  // about whole runs treat a step as a black box.
  datatype Vm = Vm(p: Prims, prog: Prog, step: Machine -> Status)

  ghost predicate Wired(vm: Vm) {
    forall m {:trigger Step(vm.p, vm.prog, m)} :: vm.step(m) == Step(vm.p, vm.prog, m)
  }

  function Run(vm: Vm, m: Machine, k: nat): Status
    decreases k
  {
    if k == 0 then Running(m)
    else match vm.step(m)
         case Crashed => Crashed
         case Halted(m') => Halted(m')
         case Running(m') => Run(vm, m', k - 1)
  }

  // --- Layout of expressions ---

  datatype Pools = Pools(consts: seq<Value>, strings: seq<string>)

  datatype Local = Local(name: string, depth: nat, isConst: bool)

  // Position of the innermost local of that name, or -1 (resolve_local).
  function Resolve(locals: seq<Local>, name: string): (i: int)
    ensures -1 <= i < |locals|
    ensures i >= 0 ==> locals[i].name == name
    ensures forall j :: i < j < |locals| ==> locals[j].name != name
  {
    if locals == [] then -1
    else if locals[|locals| - 1].name == name then |locals| - 1
    else Resolve(locals[..|locals| - 1], name)
  }

  // First position of a string in the string table, or its length (bytecode_add_string).
  function IndexOf(strings: seq<string>, name: string): (i: nat)
    ensures i <= |strings|
    ensures i < |strings| ==> strings[i] == name
    ensures forall j :: 0 <= j < i ==> strings[j] != name
  {
    if strings == [] then 0 else if strings[0] == name then 0 else 1 + IndexOf(strings[1..], name)
  }

  function AddString(strings: seq<string>, name: string): seq<string> {
    if IndexOf(strings, name) < |strings| then strings else strings + [name]
  }

  predicate OpAt(code: seq<byte>, a: nat, op: byte) {
    a < |code| && code[a] == op
  }

  // An instruction with an operand: the emitters write the low 16 bits.
  predicate ArgAt(code: seq<byte>, a: nat, op: byte, i: nat) {
    a + 2 < |code| && code[a] == op && Operand(code, a) == i % 0x10000
  }

  // A patched forward jump over `d` bytes: a distance over 16 bits keeps the placeholder.
  predicate JumpAt(code: seq<byte>, a: nat, op: byte, d: nat) {
    a + 2 < |code| && code[a] == op && Operand(code, a) == if d <= 0xFFFF then d else 0xFFFF
  }

  function SizeExpr(e: Expr): nat {
    match e
    case Lit(v) => if v.Nil? || v.Bool? then 1 else 3
    case Ident(name) => 3
    case Binary(op, l, r) => SizeExpr(l) + SizeExpr(r) + 1
    case And(l, r) => SizeExpr(l) + 4 + SizeExpr(r)
    case Or(l, r) => SizeExpr(l) + 7 + SizeExpr(r)
    case Unary(op, x) => SizeExpr(x) + 1
    case Ternary(c, t, f) => SizeExpr(c) + 4 + SizeExpr(t) + 4 + SizeExpr(f)
    case Assign(name, aop, rhs) => (if aop.Some? then 3 + SizeExpr(rhs) + 1 else SizeExpr(rhs)) + 3
  }

  function LitPools(v: Value, pools: Pools): Pools {
    if v.Nil? || v.Bool? then pools else pools.(consts := pools.consts + [v])
  }

  function VarPools(name: string, locals: seq<Local>, pools: Pools): Pools {
    if Resolve(locals, name) >= 0 then pools else pools.(strings := AddString(pools.strings, name))
  }

  // The constant and string pools after an expression has been compiled.
  function ExprPools(e: Expr, locals: seq<Local>, pools: Pools): Pools {
    match e
    case Lit(v) => LitPools(v, pools)
    case Ident(name) => VarPools(name, locals, pools)
    case Binary(op, l, r) => ExprPools(r, locals, ExprPools(l, locals, pools))
    case And(l, r) => ExprPools(r, locals, ExprPools(l, locals, pools))
    case Or(l, r) => ExprPools(r, locals, ExprPools(l, locals, pools))
    case Unary(op, x) => ExprPools(x, locals, pools)
    case Ternary(c, t, f) => ExprPools(f, locals, ExprPools(t, locals, ExprPools(c, locals, pools)))
    case Assign(name, aop, rhs) =>
      VarPools(name, locals, ExprPools(rhs, locals, if aop.Some? then VarPools(name, locals, pools) else pools))
  }

  predicate LitAt(code: seq<byte>, a: nat, v: Value, pools: Pools) {
    match v
    case Nil => OpAt(code, a, OP_NIL)
    case Bool(b) => OpAt(code, a, if b then OP_TRUE else OP_FALSE)
    case _ => ArgAt(code, a, OP_CONST, |pools.consts|)
  }

  // A variable access: by slot if the name is a local, by name otherwise.
  predicate VarAt(code: seq<byte>, a: nat, localOp: byte, globalOp: byte, name: string, locals: seq<Local>, pools: Pools) {
    var slot := Resolve(locals, name);
    if slot >= 0 then ArgAt(code, a, localOp, slot) else ArgAt(code, a, globalOp, IndexOf(pools.strings, name))
  }

  // The code of the expression stands at position `a`.
  predicate ExprAt(code: seq<byte>, a: nat, e: Expr, locals: seq<Local>, pools: Pools)
    decreases e
  {
    match e
    case Lit(v) => LitAt(code, a, v, pools)
    case Ident(name) => VarAt(code, a, OP_GET_LOCAL, OP_GET_GLOBAL, name, locals, pools)
    case Binary(op, l, r) =>
      var b := a + SizeExpr(l);
      && ExprAt(code, a, l, locals, pools)
      && ExprAt(code, b, r, locals, ExprPools(l, locals, pools))
      && OpAt(code, b + SizeExpr(r), BinCode(op))
    case And(l, r) =>
      var b := a + SizeExpr(l);
      && ExprAt(code, a, l, locals, pools)
      && JumpAt(code, b, OP_JUMP_UNLESS, 1 + SizeExpr(r))
      && OpAt(code, b + 3, OP_POP)
      && ExprAt(code, b + 4, r, locals, ExprPools(l, locals, pools))
    case Or(l, r) =>
      var b := a + SizeExpr(l);
      && ExprAt(code, a, l, locals, pools)
      && JumpAt(code, b, OP_JUMP_UNLESS, 3)
      && JumpAt(code, b + 3, OP_JUMP, 1 + SizeExpr(r))
      && OpAt(code, b + 6, OP_POP)
      && ExprAt(code, b + 7, r, locals, ExprPools(l, locals, pools))
    case Unary(op, x) =>
      ExprAt(code, a, x, locals, pools) && OpAt(code, a + SizeExpr(x), UnCode(op))
    case Ternary(c, t, f) =>
      var b, p1 := a + SizeExpr(c), ExprPools(c, locals, pools);
      var d := b + 4 + SizeExpr(t);
      && ExprAt(code, a, c, locals, pools)
      && JumpAt(code, b, OP_JUMP_UNLESS, 1 + SizeExpr(t) + 3)
      && OpAt(code, b + 3, OP_POP)
      && ExprAt(code, b + 4, t, locals, p1)
      && JumpAt(code, d, OP_JUMP, 1 + SizeExpr(f))
      && OpAt(code, d + 3, OP_POP)
      && ExprAt(code, d + 4, f, locals, ExprPools(t, locals, p1))
    case Assign(name, aop, rhs) =>
      match aop
      case None =>
        && ExprAt(code, a, rhs, locals, pools)
        && VarAt(code, a + SizeExpr(rhs), OP_SET_LOCAL, OP_SET_GLOBAL, name, locals, ExprPools(rhs, locals, pools))
      case Some(op) =>
        var p1, b := VarPools(name, locals, pools), a + 3 + SizeExpr(rhs);
        && VarAt(code, a, OP_GET_LOCAL, OP_GET_GLOBAL, name, locals, pools)
        && ExprAt(code, a + 3, rhs, locals, p1)
        && OpAt(code, b, BinCode(op))
        && VarAt(code, b + 1, OP_SET_LOCAL, OP_SET_GLOBAL, name, locals, ExprPools(rhs, locals, p1))
  }

  // Every operand fits the 16 bits it is given.
  predicate VarFits(name: string, locals: seq<Local>, pools: Pools) {
    if Resolve(locals, name) >= 0 then Resolve(locals, name) <= 0xFFFF
    else IndexOf(pools.strings, name) <= 0xFFFF
  }

  predicate ExprFits(e: Expr, locals: seq<Local>, pools: Pools) {
    match e
    case Lit(v) => v.Nil? || v.Bool? || |pools.consts| <= 0xFFFF
    case Ident(name) => VarFits(name, locals, pools)
    case Binary(op, l, r) => ExprFits(l, locals, pools) && ExprFits(r, locals, ExprPools(l, locals, pools))
    case And(l, r) =>
      ExprFits(l, locals, pools) && ExprFits(r, locals, ExprPools(l, locals, pools)) && 1 + SizeExpr(r) <= 0xFFFF
    case Or(l, r) =>
      ExprFits(l, locals, pools) && ExprFits(r, locals, ExprPools(l, locals, pools)) && 1 + SizeExpr(r) <= 0xFFFF
    case Unary(op, x) => ExprFits(x, locals, pools)
    case Ternary(c, t, f) =>
      var p1 := ExprPools(c, locals, pools);
      && ExprFits(c, locals, pools) && ExprFits(t, locals, p1) && ExprFits(f, locals, ExprPools(t, locals, p1))
      && 1 + SizeExpr(t) + 3 <= 0xFFFF && 1 + SizeExpr(f) <= 0xFFFF
    case Assign(name, aop, rhs) =>
      var p1 := if aop.Some? then VarPools(name, locals, pools) else pools;
      && (aop.Some? ==> VarFits(name, locals, pools))
      && ExprFits(rhs, locals, p1)
      && VarFits(name, locals, ExprPools(rhs, locals, p1))
  }

  // The layout of each compound expression, opened once.
  lemma BinaryShape(code: seq<byte>, a: nat, e: Expr, locals: seq<Local>, pools: Pools)
    requires e.Binary?
    ensures ExprAt(code, a, e, locals, pools) <==>
            && ExprAt(code, a, e.left, locals, pools)
            && ExprAt(code, a + SizeExpr(e.left), e.right, locals, ExprPools(e.left, locals, pools))
            && OpAt(code, a + SizeExpr(e.left) + SizeExpr(e.right), BinCode(e.op))
  {
    hide OpAt, SizeExpr, ExprPools, BinCode;
  }

  lemma AndShape(code: seq<byte>, a: nat, e: Expr, locals: seq<Local>, pools: Pools)
    requires e.And?
    ensures var b := a + SizeExpr(e.left);
            ExprAt(code, a, e, locals, pools) <==>
            && ExprAt(code, a, e.left, locals, pools)
            && JumpAt(code, b, OP_JUMP_UNLESS, 1 + SizeExpr(e.right)) && OpAt(code, b + 3, OP_POP)
            && ExprAt(code, b + 4, e.right, locals, ExprPools(e.left, locals, pools))
  {
    hide OpAt, JumpAt, SizeExpr, ExprPools;
  }

  lemma OrShape(code: seq<byte>, a: nat, e: Expr, locals: seq<Local>, pools: Pools)
    requires e.Or?
    ensures var b := a + SizeExpr(e.left);
            ExprAt(code, a, e, locals, pools) <==>
            && ExprAt(code, a, e.left, locals, pools)
            && JumpAt(code, b, OP_JUMP_UNLESS, 3) && JumpAt(code, b + 3, OP_JUMP, 1 + SizeExpr(e.right))
            && OpAt(code, b + 6, OP_POP)
            && ExprAt(code, b + 7, e.right, locals, ExprPools(e.left, locals, pools))
  {
    hide OpAt, JumpAt, SizeExpr, ExprPools;
  }

  lemma PairSize(e: Expr)
    requires e.Binary? || e.And? || e.Or?
    ensures SizeExpr(e) == SizeExpr(e.left) + SizeExpr(e.right) + if e.Binary? then 1 else if e.And? then 4 else 7
  {
  }

  lemma TernaryShape(code: seq<byte>, a: nat, e: Expr, locals: seq<Local>, pools: Pools)
    requires e.Ternary?
    ensures var c, t, f := SizeExpr(e.cond), SizeExpr(e.thn), SizeExpr(e.els);
            var p1 := ExprPools(e.cond, locals, pools);
            ExprAt(code, a, e, locals, pools) <==>
            && ExprAt(code, a, e.cond, locals, pools)
            && JumpAt(code, a + c, OP_JUMP_UNLESS, 1 + t + 3)
            && OpAt(code, a + c + 3, OP_POP)
            && ExprAt(code, a + c + 4, e.thn, locals, p1)
            && JumpAt(code, a + c + 4 + t, OP_JUMP, 1 + f)
            && OpAt(code, a + c + 4 + t + 3, OP_POP)
            && ExprAt(code, a + c + 4 + t + 4, e.els, locals, ExprPools(e.thn, locals, p1))
  {
    hide OpAt, JumpAt, SizeExpr, ExprPools;
  }

  lemma TernarySize(e: Expr)
    requires e.Ternary?
    ensures SizeExpr(e) == SizeExpr(e.cond) + 4 + SizeExpr(e.thn) + 4 + SizeExpr(e.els)
  {
  }

  lemma AssignShape(code: seq<byte>, a: nat, e: Expr, locals: seq<Local>, pools: Pools)
    requires e.Assign?
    ensures var gap := if e.aop.Some? then 3 else 0;
            var p1, b := if e.aop.Some? then VarPools(e.target, locals, pools) else pools, a + gap + SizeExpr(e.rhs);
            var end := if e.aop.Some? then b + 1 else b;
            ExprAt(code, a, e, locals, pools) <==>
            && (e.aop.Some? ==> VarAt(code, a, OP_GET_LOCAL, OP_GET_GLOBAL, e.target, locals, pools)
                                && OpAt(code, b, BinCode(e.aop.value)))
            && ExprAt(code, a + gap, e.rhs, locals, p1)
            && VarAt(code, end, OP_SET_LOCAL, OP_SET_GLOBAL, e.target, locals, ExprPools(e.rhs, locals, p1))
  {
    hide OpAt, VarAt, SizeExpr, ExprPools, VarPools, BinCode;
  }

  lemma AssignSize(e: Expr)
    requires e.Assign?
    ensures SizeExpr(e) == SizeExpr(e.rhs) + if e.aop.Some? then 7 else 3
  {
  }

  lemma PairFits(e: Expr, locals: seq<Local>, pools: Pools)
    requires e.Binary? || e.And? || e.Or?
    ensures ExprFits(e, locals, pools) <==>
            && ExprFits(e.left, locals, pools) && ExprFits(e.right, locals, ExprPools(e.left, locals, pools))
            && (e.Binary? || 1 + SizeExpr(e.right) <= 0xFFFF)
    ensures ExprPools(e, locals, pools) == ExprPools(e.right, locals, ExprPools(e.left, locals, pools))
  {
    hide SizeExpr;
  }

  lemma TernaryFits(e: Expr, locals: seq<Local>, pools: Pools)
    requires e.Ternary?
    ensures var p1 := ExprPools(e.cond, locals, pools);
            var p2 := ExprPools(e.thn, locals, p1);
            && (ExprFits(e, locals, pools) <==>
                && ExprFits(e.cond, locals, pools) && ExprFits(e.thn, locals, p1) && ExprFits(e.els, locals, p2)
                && 1 + SizeExpr(e.thn) + 3 <= 0xFFFF && 1 + SizeExpr(e.els) <= 0xFFFF)
            && ExprPools(e, locals, pools) == ExprPools(e.els, locals, p2)
  {
    hide SizeExpr;
  }

  // --- Layout of statements ---

  // Where the compiler stands: the locals in scope, how deep the scopes are nested, and how many
  // of the locals were declared since the innermost loop began.
  datatype Scope = Scope(locals: seq<Local>, depth: nat, over: nat)

  // The innermost loop: where it starts and, once its jumps are patched, where it ends.
  datatype Loop = Loop(head: nat, exit: Option<nat>)

  function After(s: Stmt, c: Scope): Scope {
    if s.Let? && c.depth > 0 then c.(locals := c.locals + [Local(s.name, c.depth, s.isConst)], over := c.over + 1) else c
  }

  function AfterList(ss: Stmts, c: Scope): Scope {
    match ss
    case Done => c
    case Then(s, rest) => AfterList(rest, After(s, c))
  }

  function Inner(c: Scope): Scope {
    c.(depth := c.depth + 1)
  }

  function InLoop(c: Scope): Scope {
    c.(over := 0)
  }

  // How many locals a block declares itself.
  function Declared(ss: Stmts): nat {
    match ss
    case Done => 0
    case Then(s, rest) => (if s.Let? then 1 else 0) + Declared(rest)
  }

  function SizeStmt(s: Stmt, c: Scope): nat
    decreases s, 1
  {
    match s
    case Let(_, _, e) => SizeExpr(e) + if c.depth == 0 then 4 else 0
    case Eval(e) => SizeExpr(e) + 1
    case IfStmt(i) => SizeIf(i, c) + 1
    case While(cond, body) => SizeExpr(cond) + 4 + SizeBlock(body, InLoop(c)) + 4
    case Block(ss) => SizeBlock(ss, c)
    case Break => c.over + 3
    case Continue => c.over + 3
  }

  function SizeBlock(ss: Stmts, c: Scope): nat
    decreases ss, 2
  {
    SizeList(ss, Inner(c)) + Declared(ss)
  }

  function SizeList(ss: Stmts, c: Scope): nat
    decreases ss, 1
  {
    match ss
    case Done => 0
    case Then(s, rest) => SizeStmt(s, c) + SizeList(rest, After(s, c))
  }

  // The branch of an if: its last expression statement keeps its value, otherwise nil is pushed.
  function SizeBranch(ss: Stmts, c: Scope): nat
    decreases ss, 2
  {
    SizeTail(ss, Inner(c)) + Declared(ss)
  }

  function SizeTail(ss: Stmts, c: Scope): nat
    decreases ss, 1
  {
    match ss
    case Done => 1
    case Then(s, rest) =>
      if s.Eval? && rest.Done? then SizeExpr(s.e) else SizeStmt(s, c) + SizeTail(rest, After(s, c))
  }

  function SizeIf(i: If, c: Scope): nat
    decreases i, 1
  {
    SizeExpr(i.cond) + 4 + SizeBranch(i.thn, c) + 4 + SizeElse(i.els, c)
  }

  function SizeElse(x: Else, c: Scope): nat
    decreases x, 1
  {
    match x
    case NoElse => 1
    case ElseBlock(ss) => SizeBranch(ss, c)
    case ElseIf(i) => SizeIf(i, c)
  }

  function StmtPools(s: Stmt, c: Scope, pools: Pools): Pools
    decreases s, 1
  {
    match s
    case Let(name, _, e) =>
      var p1 := ExprPools(e, c.locals, pools);
      if c.depth == 0 then p1.(strings := AddString(p1.strings, name)) else p1
    case Eval(e) => ExprPools(e, c.locals, pools)
    case IfStmt(i) => IfPools(i, c, pools)
    case While(cond, body) => ListPools(body, Inner(InLoop(c)), ExprPools(cond, c.locals, pools))
    case Block(ss) => ListPools(ss, Inner(c), pools)
    case Break => pools
    case Continue => pools
  }

  function ListPools(ss: Stmts, c: Scope, pools: Pools): Pools
    decreases ss, 1
  {
    match ss
    case Done => pools
    case Then(s, rest) => ListPools(rest, After(s, c), StmtPools(s, c, pools))
  }

  function IfPools(i: If, c: Scope, pools: Pools): Pools
    decreases i, 1
  {
    ElsePools(i.els, c, ListPools(i.thn, Inner(c), ExprPools(i.cond, c.locals, pools)))
  }

  function ElsePools(x: Else, c: Scope, pools: Pools): Pools
    decreases x, 1
  {
    match x
    case NoElse => pools
    case ElseBlock(ss) => ListPools(ss, Inner(c), pools)
    case ElseIf(i) => IfPools(i, c, pools)
  }

  predicate PopsAt(code: seq<byte>, a: nat, n: nat) {
    a + n <= |code| && forall i :: a <= i < a + n ==> code[i] == OP_POP
  }

  // A forward jump out of the loop: an unpatched one still has its placeholder.
  predicate BreakAt(code: seq<byte>, a: nat, exit: Option<nat>) {
    match exit
    case None => a + 2 < |code| && code[a] == OP_JUMP && Operand(code, a) == 0xFFFF
    case Some(x) => a + 3 <= x && JumpAt(code, a, OP_JUMP, x - (a + 3))
  }

  predicate BackAt(code: seq<byte>, a: nat, head: nat) {
    head <= a && a + 3 - head <= 0xFFFF && ArgAt(code, a, OP_LOOP, a + 3 - head)
  }

  predicate StmtAt(code: seq<byte>, a: nat, s: Stmt, c: Scope, l: Option<Loop>, pools: Pools)
    decreases s, 1
  {
    match s
    case Let(name, _, e) =>
      var b := a + SizeExpr(e);
      && ExprAt(code, a, e, c.locals, pools)
      && (c.depth == 0 ==> && ArgAt(code, b, OP_SET_GLOBAL, IndexOf(ExprPools(e, c.locals, pools).strings, name))
                           && OpAt(code, b + 3, OP_POP))
    case Eval(e) => ExprAt(code, a, e, c.locals, pools) && OpAt(code, a + SizeExpr(e), OP_POP)
    case IfStmt(i) => IfAt(code, a, i, c, l, pools) && OpAt(code, a + SizeIf(i, c), OP_POP)
    case While(cond, body) =>
      var b, n := a + SizeExpr(cond), SizeBlock(body, InLoop(c));
      && ExprAt(code, a, cond, c.locals, pools)
      && JumpAt(code, b, OP_JUMP_UNLESS, 1 + n + 3)
      && OpAt(code, b + 3, OP_POP)
      && BlockAt(code, b + 4, body, InLoop(c), Some(Loop(a, Some(b + 4 + n + 4))), ExprPools(cond, c.locals, pools))
      && BackAt(code, b + 4 + n, a)
      && OpAt(code, b + 4 + n + 3, OP_POP)
    case Block(ss) => BlockAt(code, a, ss, c, l, pools)
    case Break => l.Some? && PopsAt(code, a, c.over) && BreakAt(code, a + c.over, l.value.exit)
    case Continue => l.Some? && PopsAt(code, a, c.over) && BackAt(code, a + c.over, l.value.head)
  }

  predicate BlockAt(code: seq<byte>, a: nat, ss: Stmts, c: Scope, l: Option<Loop>, pools: Pools)
    decreases ss, 2
  {
    && ListAt(code, a, ss, Inner(c), l, pools)
    && PopsAt(code, a + SizeList(ss, Inner(c)), Declared(ss))
  }

  predicate ListAt(code: seq<byte>, a: nat, ss: Stmts, c: Scope, l: Option<Loop>, pools: Pools)
    decreases ss, 1
  {
    match ss
    case Done => true
    case Then(s, rest) =>
      && StmtAt(code, a, s, c, l, pools)
      && ListAt(code, a + SizeStmt(s, c), rest, After(s, c), l, StmtPools(s, c, pools))
  }

  predicate BranchAt(code: seq<byte>, a: nat, ss: Stmts, c: Scope, l: Option<Loop>, pools: Pools)
    decreases ss, 2
  {
    && TailAt(code, a, ss, Inner(c), l, pools)
    && PopsAt(code, a + SizeTail(ss, Inner(c)), Declared(ss))
  }

  predicate TailAt(code: seq<byte>, a: nat, ss: Stmts, c: Scope, l: Option<Loop>, pools: Pools)
    decreases ss, 1
  {
    match ss
    case Done => OpAt(code, a, OP_NIL)
    case Then(s, rest) =>
      if s.Eval? && rest.Done? then ExprAt(code, a, s.e, c.locals, pools)
      else
        && StmtAt(code, a, s, c, l, pools)
        && TailAt(code, a + SizeStmt(s, c), rest, After(s, c), l, StmtPools(s, c, pools))
  }

  predicate IfAt(code: seq<byte>, a: nat, i: If, c: Scope, l: Option<Loop>, pools: Pools)
    decreases i, 1
  {
    var b, n, p1 := a + SizeExpr(i.cond), SizeBranch(i.thn, c), ExprPools(i.cond, c.locals, pools);
    && ExprAt(code, a, i.cond, c.locals, pools)
    && JumpAt(code, b, OP_JUMP_UNLESS, 1 + n + 3)
    && OpAt(code, b + 3, OP_POP)
    && BranchAt(code, b + 4, i.thn, c, l, p1)
    && JumpAt(code, b + 4 + n, OP_JUMP, 1 + SizeElse(i.els, c))
    && OpAt(code, b + 4 + n + 3, OP_POP)
    && ElseAt(code, b + 4 + n + 4, i.els, c, l, ListPools(i.thn, Inner(c), p1))
  }

  predicate ElseAt(code: seq<byte>, a: nat, x: Else, c: Scope, l: Option<Loop>, pools: Pools)
    decreases x, 1
  {
    match x
    case NoElse => OpAt(code, a, OP_NIL)
    case ElseBlock(ss) => BranchAt(code, a, ss, c, l, pools)
    case ElseIf(i) => IfAt(code, a, i, c, l, pools)
  }

  // Every operand fits its 16 bits. The offsets of loops are checked by the compiler itself.
  predicate StmtFits(s: Stmt, c: Scope, pools: Pools)
    decreases s, 1
  {
    match s
    case Let(name, _, e) =>
      && ExprFits(e, c.locals, pools)
      && (c.depth == 0 ==> IndexOf(ExprPools(e, c.locals, pools).strings, name) <= 0xFFFF)
    case Eval(e) => ExprFits(e, c.locals, pools)
    case IfStmt(i) => IfFits(i, c, pools)
    case While(cond, body) =>
      ExprFits(cond, c.locals, pools) && ListFits(body, Inner(InLoop(c)), ExprPools(cond, c.locals, pools))
    case Block(ss) => ListFits(ss, Inner(c), pools)
    case Break => true
    case Continue => true
  }

  predicate ListFits(ss: Stmts, c: Scope, pools: Pools)
    decreases ss, 1
  {
    match ss
    case Done => true
    case Then(s, rest) => StmtFits(s, c, pools) && ListFits(rest, After(s, c), StmtPools(s, c, pools))
  }

  predicate IfFits(i: If, c: Scope, pools: Pools)
    decreases i, 1
  {
    var p1 := ExprPools(i.cond, c.locals, pools);
    && ExprFits(i.cond, c.locals, pools)
    && 1 + SizeBranch(i.thn, c) + 3 <= 0xFFFF
    && ListFits(i.thn, Inner(c), p1)
    && 1 + SizeElse(i.els, c) <= 0xFFFF
    && ElseFits(i.els, c, ListPools(i.thn, Inner(c), p1))
  }

  predicate ElseFits(x: Else, c: Scope, pools: Pools)
    decreases x, 1
  {
    match x
    case NoElse => true
    case ElseBlock(ss) => ListFits(ss, Inner(c), pools)
    case ElseIf(i) => IfFits(i, c, pools)
  }

  // --- Layout of programs ---

  const TOP: Scope := Scope([], 0, 0)

  // A final expression or if keeps its value; every program ends with a halt.
  function SizeProgram(ss: Stmts): nat {
    match ss
    case Done => 1
    case Then(s, rest) =>
      if s.Eval? && rest.Done? then SizeExpr(s.e) + 1
      else if s.IfStmt? && rest.Done? then SizeIf(s.branch, TOP) + 1
      else SizeStmt(s, TOP) + SizeProgram(rest)
  }

  predicate ProgramAt(code: seq<byte>, a: nat, ss: Stmts, pools: Pools)
    decreases ss
  {
    match ss
    case Done => OpAt(code, a, OP_HALT)
    case Then(s, rest) =>
      if s.Eval? && rest.Done? then ExprAt(code, a, s.e, [], pools) && OpAt(code, a + SizeExpr(s.e), OP_HALT)
      else if s.IfStmt? && rest.Done? then
        IfAt(code, a, s.branch, TOP, None, pools) && OpAt(code, a + SizeIf(s.branch, TOP), OP_HALT)
      else
        StmtAt(code, a, s, TOP, None, pools) && ProgramAt(code, a + SizeStmt(s, TOP), rest, StmtPools(s, TOP, pools))
  }
}
