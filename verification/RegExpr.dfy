/** What the register compiler's code does to the registers, exactly, whether or not there are enough of
    them; and that it leaves the value of the expression in its register if no operand is overwritten.
 */
module RegExpr {
  import opened Ast
  import opened RegCode

  // --- The fragment has no effects ---

  function Value1(p: Prims, e: Expr, globals: map<string, Value>): Option<Value> {
    match EvalExpr(p, e, Env(globals, []))
    case Fail => None
    case Ok(v, _) => Some(v)
  }

  lemma {:induction false} NoEffect(p: Prims, e: Expr, env: Env)
    requires Simple(e)
    ensures EvalExpr(p, e, env).Ok? ==> EvalExpr(p, e, env).env == env
    decreases e
  {
    match e
    case Lit(_) =>
    case Ident(_) =>
    case Binary(_, l, r) => NoEffect(p, l, env); NoEffect(p, r, env);
    case Unary(_, x) => NoEffect(p, x, env);
    case Ternary(c, t, f) => NoEffect(p, c, env); NoEffect(p, t, env); NoEffect(p, f, env);
  }

  lemma BinaryValue(p: Prims, e: Expr, g: map<string, Value>)
    requires e.Binary? && Simple(e)
    ensures var x, y := Value1(p, e.left, g), Value1(p, e.right, g);
            Value1(p, e, g) == if x.None? || y.None? then None else p.bin(e.op, x.value, y.value)
  {
    NoEffect(p, e.left, Env(g, []));
  }

  lemma UnaryValue(p: Prims, e: Expr, g: map<string, Value>)
    requires e.Unary? && Simple(e)
    ensures var x := Value1(p, e.operand, g); Value1(p, e, g) == if x.None? then None else p.un(e.uop, x.value)
  {
  }

  lemma TernaryValue(p: Prims, e: Expr, g: map<string, Value>)
    requires e.Ternary? && Simple(e)
    ensures var c := Value1(p, e.cond, g);
            Value1(p, e, g) == if c.None? then None else Value1(p, if p.truthy(c.value) then e.thn else e.els, g)
  {
    NoEffect(p, e.cond, Env(g, []));
  }

  lemma LeafValue(p: Prims, e: Expr, g: map<string, Value>)
    requires e.Lit? || e.Ident?
    ensures Value1(p, e, g) == if e.Lit? then Some(e.v) else if e.name in g then Some(g[e.name]) else None
  {
  }

  // --- Registers ---

  // An expression only uses registers from `n` on, and its own is one of them.
  lemma {:induction false} PlaceBounds(e: Expr, n: byte)
    requires Simple(e) && Roomy(e, n)
    ensures n <= Place(e, n).reg < Place(e, n).next < REG_MAX
    decreases e
  {
    match e
    case Lit(_) =>
    case Ident(_) =>
    case Binary(_, l, r) =>
      PlaceBounds(l, n);
      PlaceBounds(r, Place(l, n).next);
    case Unary(_, x) => PlaceBounds(x, n);
    case Ternary(c, t, f) =>
      PlaceBounds(c, n);
      var d := Temp(AfterCond(c, n));
      PlaceBounds(t, d.next);
      var y := Place(t, d.next);
      PlaceBounds(f, Freed(y.next, y.reg));
  }

  // A binary expression holds both operands and its result in different registers.
  lemma BinaryRegs(e: Expr, n: byte)
    requires e.Binary? && Simple(e) && Roomy(e, n)
    ensures var x := Place(e.left, n);
            var y := Place(e.right, x.next);
            && Roomy(e.left, n) && Roomy(e.right, x.next)
            && n <= x.reg < x.next <= y.reg < y.next == Temp(y.next).reg == Place(e, n).reg
  {
    PlaceBounds(e.left, n);
    PlaceBounds(e.right, Place(e.left, n).next);
  }

  lemma UnaryRegs(e: Expr, n: byte)
    requires e.Unary? && Simple(e) && Roomy(e, n)
    ensures var x := Place(e.operand, n);
            Roomy(e.operand, n) && n <= x.reg < x.next == Temp(x.next).reg == Place(e, n).reg
  {
    PlaceBounds(e.operand, n);
  }

  // A conditional's arms leave its result register alone until they move their value there.
  lemma TernaryRegs(e: Expr, n: byte)
    requires e.Ternary? && Simple(e) && Roomy(e, n)
    ensures var d := Temp(AfterCond(e.cond, n));
            var y := Place(e.thn, d.next);
            var m := Freed(y.next, y.reg);
            && Roomy(e.cond, n) && Roomy(e.thn, d.next) && Roomy(e.els, m)
            && n <= d.reg < d.next <= m && d.reg == Place(e, n).reg && n <= Place(e.cond, n).reg
  {
    PlaceBounds(e.cond, n);
    PlaceBounds(e.thn, Temp(AfterCond(e.cond, n)).next);
  }

  // With registers enough, nothing below the ones in use is written, and so no operand is overwritten.
  lemma {:induction false} RoomyNoClobber(e: Expr, n: byte)
    requires Simple(e) && Roomy(e, n)
    ensures NoClobber(e, n) && forall i :: i in Writes(e, n) ==> n <= i
    decreases e
  {
    PlaceBounds(e, n);
    match e
    case Lit(_) =>
    case Ident(_) =>
    case Binary(_, l, r) =>
      BinaryRegs(e, n);
      RoomyNoClobber(l, n);
      RoomyNoClobber(r, Place(l, n).next);
    case Unary(_, x) =>
      UnaryRegs(e, n);
      RoomyNoClobber(x, n);
    case Ternary(c, t, f) =>
      TernaryRegs(e, n);
      var d := Temp(AfterCond(c, n));
      var y := Place(t, d.next);
      RoomyNoClobber(c, n);
      RoomyNoClobber(t, d.next);
      RoomyNoClobber(f, Freed(y.next, y.reg));
  }

  // --- What the code does to the registers ---

  type Writing = map<byte, Value>

  function Over(regs: Regs, w: Writing): Regs {
    seq(REG_MAX, i requires 0 <= i < REG_MAX => if i in w then w[i] else regs[i])
  }

  lemma OverTwice(regs: Regs, a: Writing, b: Writing)
    ensures Over(Over(regs, a), b) == Over(regs, a + b)
  {
  }

  lemma OverOne(regs: Regs, w: Writing, i: byte, v: Value)
    ensures Over(regs, w)[i := v] == Over(regs, w[i := v])
    ensures i in w ==> Over(regs, w)[i] == w[i]
  {
  }

  // The registers written and what is in them afterwards; None if an operator fails. What was in the
  // registers before does not matter: everything that is read has been written.
  function Effect(p: Prims, e: Expr, n: byte, g: map<string, Value>): (r: Option<Writing>)
    requires Simple(e)
    ensures r.Some? ==> Place(e, n).reg in r.value
    decreases e
  {
    match e
    case Lit(v) => Some(map[Temp(n).reg := v])
    case Ident(name) => if name in g then Some(map[Temp(n).reg := g[name]]) else None
    case Binary(op, l, r) =>
      var x := Place(l, n);
      var y := Place(r, x.next);
      var a, b := Effect(p, l, n, g), Effect(p, r, x.next, g);
      if a.None? || b.None? then None
      else
        var w := a.value + b.value;
        Stored(w, Temp(y.next).reg, p.bin(op, w[x.reg], w[y.reg]))
    case Unary(op, o) =>
      var x, a := Place(o, n), Effect(p, o, n, g);
      if a.None? then None else Stored(a.value, Temp(x.next).reg, p.un(op, a.value[x.reg]))
    case Ternary(c, t, f) =>
      var d, a := Temp(AfterCond(c, n)), Effect(p, c, n, g);
      var y := Place(t, d.next);
      var m := Freed(y.next, y.reg);
      if a.None? then None
      else if p.truthy(a.value[Place(c, n).reg]) then Moved(a.value, Effect(p, t, d.next, g), y.reg, d.reg)
      else Moved(a.value, Effect(p, f, m, g), Place(f, m).reg, d.reg)
  }

  function Stored(w: Writing, rd: byte, v: Option<Value>): (r: Option<Writing>)
    ensures r.Some? ==> v.Some? && r.value == w[rd := v.value]
  {
    if v.None? then None else Some(w[rd := v.value])
  }

  // An arm, and its value moved to the result register.
  function Moved(a: Writing, b: Option<Writing>, rs: byte, rd: byte): (r: Option<Writing>)
    requires b.Some? ==> rs in b.value
    ensures r.Some? ==> b.Some? && r.value == (a + b.value)[rd := b.value[rs]]
  {
    if b.None? then None else Some((a + b.value)[rd := b.value[rs]])
  }

  // Only registers of the expression are written.
  lemma {:induction false} EffectWrites(p: Prims, e: Expr, n: byte, g: map<string, Value>)
    requires Simple(e)
    ensures var r := Effect(p, e, n, g); r.Some? ==> r.value.Keys <= Writes(e, n)
    decreases e
  {
    match e
    case Lit(_) =>
    case Ident(_) =>
    case Binary(_, l, r) =>
      EffectWrites(p, l, n, g);
      EffectWrites(p, r, Place(l, n).next, g);
    case Unary(_, o) => EffectWrites(p, o, n, g);
    case Ternary(c, t, f) =>
      var d := Temp(AfterCond(c, n));
      var y := Place(t, d.next);
      EffectWrites(p, c, n, g);
      EffectWrites(p, t, d.next, g);
      EffectWrites(p, f, Freed(y.next, y.reg), g);
  }

  // The code computes the value of the expression, or fails as it does.
  predicate Computes(p: Prims, e: Expr, n: byte, g: map<string, Value>)
    requires Simple(e)
  {
    var r, v := Effect(p, e, n, g), Value1(p, e, g);
    if v.None? then r.None? else r.Some? && r.value[Place(e, n).reg] == v.value
  }

  // If no operand is overwritten, whatever the operators mean and the globals hold.
  lemma {:induction false} NoClobberComputes(p: Prims, e: Expr, n: byte, g: map<string, Value>)
    requires Simple(e) && NoClobber(e, n)
    ensures Computes(p, e, n, g)
    decreases e
  {
    match e
    case Lit(_) =>
    case Ident(_) =>
    case Binary(_, l, r) =>
      NoClobberComputes(p, l, n, g);
      NoClobberComputes(p, r, Place(l, n).next, g);
      EffectWrites(p, r, Place(l, n).next, g);
      BinaryValue(p, e, g);
    case Unary(_, o) =>
      NoClobberComputes(p, o, n, g);
      UnaryValue(p, e, g);
    case Ternary(c, t, f) =>
      var d := Temp(AfterCond(c, n));
      var y := Place(t, d.next);
      NoClobberComputes(p, c, n, g);
      NoClobberComputes(p, t, d.next, g);
      NoClobberComputes(p, f, Freed(y.next, y.reg), g);
      TernaryValue(p, e, g);
  }

  // --- Runs ---

  lemma {:induction false} RegThen(vm: RegVm, m: RegMachine, j: nat, m1: RegMachine, k: nat)
    requires RegRun(vm, m, j) == Going(m1)
    ensures RegRun(vm, m, j + k) == RegRun(vm, m1, k)
    decreases j
  {
    if j > 0 {
      RegThen(vm, vm.step(m).m, j - 1, m1, k);
    }
  }

  lemma OneRegStep(vm: RegVm, m: RegMachine)
    requires RegWired(vm)
    ensures RegRun(vm, m, 1) == RegStep(vm.p, vm.prog, m)
  {
    if RegStep(vm.p, vm.prog, m).Going? {
      assert RegRun(vm, RegStep(vm.p, vm.prog, m).m, 0) == RegStep(vm.p, vm.prog, m);
    }
  }

  // After k steps: at `pc` with the registers written, or failed.
  ghost predicate Settles(vm: RegVm, m: RegMachine, k: nat, w: Option<Writing>, pc: nat) {
    RegRun(vm, m, k) == if w.None? then Failed else Going(RegMachine(pc, Over(m.regs, w.value), m.globals))
  }

  lemma LoadStep(vm: RegVm, m: RegMachine, i: Instr)
    requires RegWired(vm) && m.pc >= 0 && InstrAt(vm.prog.code, m.pc, i)
    ensures i.op == ROP_LOAD_NIL ==> RegRun(vm, m, 1) == WriteIf(m, i.rd, Some(Nil))
    ensures i.op == ROP_LOAD_TRUE ==> RegRun(vm, m, 1) == WriteIf(m, i.rd, Some(Bool(true)))
    ensures i.op == ROP_LOAD_FALSE ==> RegRun(vm, m, 1) == WriteIf(m, i.rd, Some(Bool(false)))
    ensures i.op == ROP_LOAD_INT ==> RegRun(vm, m, 1) == WriteIf(m, i.rd, Some(Int(Signed16(GetImm(i)))))
    ensures i.op == ROP_LOAD_K && GetImm(i) < |vm.prog.consts| ==> RegRun(vm, m, 1) == WriteIf(m, i.rd, Some(vm.prog.consts[GetImm(i)]))
  {
    hide GetImm, Signed16;
    OneRegStep(vm, m);
  }

  lemma GlobalStep(vm: RegVm, m: RegMachine, rd: byte, k: nat, name: string)
    requires RegWired(vm) && m.pc >= 0 && InstrAt(vm.prog.code, m.pc, Imm(ROP_GET_GLOBAL, rd, k))
    requires k <= 0xFFFF && k < |vm.prog.consts| && vm.prog.consts[k] == Str(name)
    ensures RegRun(vm, m, 1) == WriteIf(m, rd, if name in m.globals then Some(m.globals[name]) else None)
  {
    OneRegStep(vm, m);
    ImmReadBack(ROP_GET_GLOBAL, rd, k);
  }

  lemma LitStep(vm: RegVm, m: RegMachine, v: Value, rd: byte, k: nat)
    requires RegWired(vm) && m.pc >= 0 && InstrAt(vm.prog.code, m.pc, LitInstr(v, rd, k))
    requires Immediate(v) || (k <= 0xFFFF && k < |vm.prog.consts| && vm.prog.consts[k] == v)
    ensures RegRun(vm, m, 1) == WriteIf(m, rd, Some(v))
  {
    hide RegRun, RegWired, InstrAt, Signed16, GetImm;
    LoadStep(vm, m, LitInstr(v, rd, k));
    if v.Int? && Immediate(v) {
      IntReadBack(ROP_LOAD_INT, rd, v.i);
    } else if !Immediate(v) {
      ImmReadBack(ROP_LOAD_K, rd, k);
    }
  }

  lemma LeafStep(vm: RegVm, m: RegMachine, e: Expr, n: byte, consts: seq<Value>)
    requires RegWired(vm) && (e.Lit? || e.Ident?) && m.pc >= 0 && RegAt(vm.prog.code, m.pc, e, n, consts)
    requires RegFits(e, consts) && RegConsts(e, consts) <= vm.prog.consts
    ensures RegRun(vm, m, 1) == WriteIf(m, Place(e, n).reg, Value1(vm.p, e, m.globals))
  {
    hide RegRun, RegWired, InstrAt, LitInstr, Imm, WriteIf, Value1;
    LeafValue(vm.p, e, m.globals);
    if e.Ident? {
      GlobalStep(vm, m, Temp(n).reg, |consts|, e.name);
    } else {
      LitStep(vm, m, e.v, Temp(n).reg, |consts|);
    }
  }

  lemma OpStep(vm: RegVm, m: RegMachine, i: Instr)
    requires RegWired(vm) && m.pc >= 0 && InstrAt(vm.prog.code, m.pc, i)
    ensures forall op: BinOp :: i.op == RegBin(op) ==> RegRun(vm, m, 1) == WriteIf(m, i.rd, vm.p.bin(op, m.regs[i.rs1], m.regs[i.rs2]))
    ensures forall op: UnOp :: i.op == RegUn(op) ==> RegRun(vm, m, 1) == WriteIf(m, i.rd, vm.p.un(op, m.regs[i.rs1]))
    ensures i.op == ROP_MOV ==> RegRun(vm, m, 1) == WriteIf(m, i.rd, Some(m.regs[i.rs1]))
    ensures i.op == ROP_RET ==> RegRun(vm, m, 1) == Returned(m.regs[i.rd], m)
  {
    OneRegStep(vm, m);
  }

  lemma CondStep(vm: RegVm, m: RegMachine, cond: byte, d: nat)
    requires RegWired(vm) && m.pc >= 0 && InstrAt(vm.prog.code, m.pc, Imm(ROP_JMP_UNLESS, cond, d)) && d <= 0x7FFF
    ensures RegRun(vm, m, 1) == Going(m.(pc := m.pc + 1 + if vm.p.truthy(m.regs[cond]) then 0 else d))
  {
    OneRegStep(vm, m);
    CondJumpReadBack(cond, d);
  }

  lemma AwayStep(vm: RegVm, m: RegMachine, d: nat)
    requires RegWired(vm) && m.pc >= 0 && InstrAt(vm.prog.code, m.pc, Imm(ROP_JMP, 0, d)) && d <= 0xFFFF
    ensures RegRun(vm, m, 1) == Going(m.(pc := m.pc + 1 + d))
  {
    OneRegStep(vm, m);
    JumpReadBack(d);
  }

  // --- Composition ---

  // An instruction that stores a value behind code that has settled.
  lemma ThenStore(vm: RegVm, m: RegMachine, k: nat, w: Writing, pc: nat, rd: byte, v: Option<Value>)
    requires Settles(vm, m, k, Some(w), pc)
    requires var m1 := RegMachine(pc, Over(m.regs, w), m.globals); RegRun(vm, m1, 1) == WriteIf(m1, rd, v)
    ensures Settles(vm, m, k + 1, Stored(w, rd, v), pc + 1)
  {
    hide RegRun, Over;
    var m1 := RegMachine(pc, Over(m.regs, w), m.globals);
    RegThen(vm, m, k, m1, 1);
    if v.Some? {
      OverOne(m.regs, w, rd, v.value);
    }
  }

  lemma ThenSettles(vm: RegVm, m: RegMachine, k: nat, a: Writing, pc: nat, j: nat, b: Option<Writing>, end: nat)
    requires Settles(vm, m, k, Some(a), pc) && Settles(vm, RegMachine(pc, Over(m.regs, a), m.globals), j, b, end)
    ensures Settles(vm, m, k + j, if b.None? then None else Some(a + b.value), end)
  {
    hide RegRun, Over;
    RegThen(vm, m, k, RegMachine(pc, Over(m.regs, a), m.globals), j);
    if b.Some? {
      OverTwice(m.regs, a, b.value);
    }
  }

  // Behind code that has settled, a jump.
  lemma ThenJump(vm: RegVm, m: RegMachine, k: nat, w: Writing, pc: nat, to: nat)
    requires Settles(vm, m, k, Some(w), pc)
    requires var m1 := RegMachine(pc, Over(m.regs, w), m.globals); RegRun(vm, m1, 1) == Going(m1.(pc := to))
    ensures Settles(vm, m, k + 1, Some(w), to)
  {
    hide RegRun, Over;
    RegThen(vm, m, k, RegMachine(pc, Over(m.regs, w), m.globals), 1);
  }

  // --- Expressions ---

  // The expression's code stands at `a`, all its jumps and constant indices are read back as meant, and
  // the program has its constants. Registers need not be enough.
  ghost predicate RegPlaced(prog: RegProg, e: Expr, n: byte, consts: seq<Value>, a: nat) {
    && Simple(e) && RegFits(e, consts) && RegAt(prog.code, a, e, n, consts)
    && RegConsts(e, consts) <= prog.consts
  }

  lemma {:induction false} ConstsGrow(e: Expr, consts: seq<Value>)
    ensures consts <= RegConsts(e, consts)
    decreases e
  {
    match e
    case Binary(_, l, r) => ConstsGrow(l, consts); ConstsGrow(r, RegConsts(l, consts));
    case Unary(_, x) => ConstsGrow(x, consts);
    case Ternary(c, t, f) =>
      ConstsGrow(c, consts);
      ConstsGrow(t, RegConsts(c, consts));
      ConstsGrow(f, RegConsts(t, RegConsts(c, consts)));
    case _ =>
  }

  lemma BinaryParts(prog: RegProg, e: Expr, n: byte, consts: seq<Value>, a: nat)
    requires e.Binary? && RegPlaced(prog, e, n, consts, a)
    ensures var x := Place(e.left, n);
            var y, b := Place(e.right, x.next), a + RegSize(e.left);
            && RegPlaced(prog, e.left, n, consts, a)
            && RegPlaced(prog, e.right, x.next, RegConsts(e.left, consts), b)
            && InstrAt(prog.code, b + RegSize(e.right), Instr(RegBin(e.op), Temp(y.next).reg, x.reg, y.reg))
            && RegSize(e) == RegSize(e.left) + RegSize(e.right) + 1
  {
    hide InstrAt, Place, Temp, RegBin;
    ConstsGrow(e.right, RegConsts(e.left, consts));
  }

  lemma UnaryParts(prog: RegProg, e: Expr, n: byte, consts: seq<Value>, a: nat)
    requires e.Unary? && RegPlaced(prog, e, n, consts, a)
    ensures var x := Place(e.operand, n);
            && RegPlaced(prog, e.operand, n, consts, a)
            && InstrAt(prog.code, a + RegSize(e.operand), Instr(RegUn(e.uop), Temp(x.next).reg, x.reg, 0))
            && RegSize(e) == RegSize(e.operand) + 1
  {
    hide InstrAt, Place, Temp, RegUn;
  }

  lemma TernaryParts(prog: RegProg, e: Expr, n: byte, consts: seq<Value>, a: nat)
    requires e.Ternary? && RegPlaced(prog, e, n, consts, a)
    ensures var d := Temp(AfterCond(e.cond, n));
            var y, b := Place(e.thn, d.next), a + RegSize(e.cond) + 1;
            var z, g := Place(e.els, Freed(y.next, y.reg)), b + RegSize(e.thn) + 2;
            && RegPlaced(prog, e.cond, n, consts, a)
            && InstrAt(prog.code, b - 1, Imm(ROP_JMP_UNLESS, Place(e.cond, n).reg, RegSize(e.thn) + 2))
            && RegSize(e.thn) + 2 <= 0x7FFF && RegSize(e.els) + 1 <= 0xFFFF
            && RegPlaced(prog, e.thn, d.next, RegConsts(e.cond, consts), b)
            && InstrAt(prog.code, g - 2, Instr(ROP_MOV, d.reg, y.reg, 0))
            && InstrAt(prog.code, g - 1, Imm(ROP_JMP, 0, RegSize(e.els) + 1))
            && RegPlaced(prog, e.els, Freed(y.next, y.reg), RegConsts(e.thn, RegConsts(e.cond, consts)), g)
            && InstrAt(prog.code, g + RegSize(e.els), Instr(ROP_MOV, d.reg, z.reg, 0))
            && RegSize(e) == RegSize(e.cond) + 1 + RegSize(e.thn) + 2 + RegSize(e.els) + 1
  {
    hide InstrAt, Place, Temp, Freed, AfterCond, Imm;
    var k1 := RegConsts(e.cond, consts);
    ConstsGrow(e.thn, k1);
    ConstsGrow(e.els, RegConsts(e.thn, k1));
  }

  lemma RegOpened(prog: RegProg, e: Expr, n: byte, consts: seq<Value>, a: nat)
    requires RegPlaced(prog, e, n, consts, a)
    ensures Simple(e)
  {
  }

  lemma BinaryEffect(p: Prims, e: Expr, n: byte, g: map<string, Value>)
    requires Simple(e) && e.Binary?
    ensures Simple(e.left) && Simple(e.right)
    ensures var x := Place(e.left, n);
            var y, a, b := Place(e.right, x.next), Effect(p, e.left, n, g), Effect(p, e.right, x.next, g);
            && (a.Some? ==> x.reg in a.value) && (b.Some? ==> y.reg in b.value)
            && Effect(p, e, n, g) ==
               if a.None? || b.None? then None
               else
                 var w := a.value + b.value;
                 Stored(w, Temp(y.next).reg, p.bin(e.op, w[x.reg], w[y.reg]))
  {
    hide Place, Temp, Stored;
  }

  lemma TernaryEffect(p: Prims, e: Expr, n: byte, g: map<string, Value>)
    requires Simple(e) && e.Ternary?
    ensures Simple(e.cond) && Simple(e.thn) && Simple(e.els)
    ensures var d, a, rc := Temp(AfterCond(e.cond, n)), Effect(p, e.cond, n, g), Place(e.cond, n).reg;
            var y := Place(e.thn, d.next);
            var m := Freed(y.next, y.reg);
            var t, f := Effect(p, e.thn, d.next, g), Effect(p, e.els, m, g);
            && (a.Some? ==> rc in a.value) && (t.Some? ==> y.reg in t.value) && (f.Some? ==> Place(e.els, m).reg in f.value)
            && Effect(p, e, n, g) ==
               if a.None? then None
               else if p.truthy(a.value[rc]) then Moved(a.value, t, y.reg, d.reg)
               else Moved(a.value, f, Place(e.els, m).reg, d.reg)
  {
    hide Place, Temp, Moved, Freed, AfterCond;
  }

  lemma UnaryEffect(p: Prims, e: Expr, n: byte, g: map<string, Value>)
    requires Simple(e) && e.Unary?
    ensures Simple(e.operand)
    ensures var x, a := Place(e.operand, n), Effect(p, e.operand, n, g);
            && (a.Some? ==> x.reg in a.value)
            && Effect(p, e, n, g) == if a.None? then None else Stored(a.value, Temp(x.next).reg, p.un(e.uop, a.value[x.reg]))
  {
    hide Place, Temp, Stored;
  }

  lemma BinaryRuns(vm: RegVm, e: Expr, n: byte, consts: seq<Value>, m: RegMachine) returns (k: nat)
    requires RegWired(vm) && m.pc >= 0 && e.Binary? && RegPlaced(vm.prog, e, n, consts, m.pc)
    ensures Simple(e) && Settles(vm, m, k, Effect(vm.p, e, n, m.globals), m.pc + RegSize(e))
    decreases e, 0
  {
    hide *;
    RegOpened(vm.prog, e, n, consts, m.pc);
    BinaryParts(vm.prog, e, n, consts, m.pc);
    BinaryEffect(vm.p, e, n, m.globals);
    var x, al := Place(e.left, n), m.pc + RegSize(e.left);
    var y, ar := Place(e.right, x.next), al + RegSize(e.right);
    var a, b := Effect(vm.p, e.left, n, m.globals), Effect(vm.p, e.right, x.next, m.globals);
    k := RegRuns(vm, e.left, n, consts, m);
    if a.None? {
      FailsAnywhere(vm, m, k, al, ar + 1);
    } else {
      var m1 := RegMachine(al, Over(m.regs, a.value), m.globals);
      var j := RegRuns(vm, e.right, x.next, RegConsts(e.left, consts), m1);
      ThenSettles(vm, m, k, a.value, al, j, b, ar);
      k := k + j;
      if b.None? {
        FailsAnywhere(vm, m, k, ar, ar + 1);
      } else {
        var w := a.value + b.value;
        var m2 := RegMachine(ar, Over(m.regs, w), m.globals);
        ReadBack(m.regs, w, x.reg);
        ReadBack(m.regs, w, y.reg);
        OpStep(vm, m2, Instr(RegBin(e.op), Temp(y.next).reg, x.reg, y.reg));
        ThenStore(vm, m, k, w, ar, Temp(y.next).reg, vm.p.bin(e.op, w[x.reg], w[y.reg]));
        k := k + 1;
      }
    }
  }

  lemma ReadBack(regs: Regs, w: Writing, i: byte)
    requires i in w
    ensures Over(regs, w)[i] == w[i]
  {
  }

  lemma FailsAnywhere(vm: RegVm, m: RegMachine, k: nat, pc: nat, pc': nat)
    requires Settles(vm, m, k, None, pc)
    ensures Settles(vm, m, k, None, pc')
  {
  }

  lemma UnaryRuns(vm: RegVm, e: Expr, n: byte, consts: seq<Value>, m: RegMachine) returns (k: nat)
    requires RegWired(vm) && m.pc >= 0 && e.Unary? && RegPlaced(vm.prog, e, n, consts, m.pc)
    ensures Simple(e) && Settles(vm, m, k, Effect(vm.p, e, n, m.globals), m.pc + RegSize(e))
    decreases e, 0
  {
    hide *;
    RegOpened(vm.prog, e, n, consts, m.pc);
    UnaryParts(vm.prog, e, n, consts, m.pc);
    UnaryEffect(vm.p, e, n, m.globals);
    var x, ax := Place(e.operand, n), m.pc + RegSize(e.operand);
    var a := Effect(vm.p, e.operand, n, m.globals);
    k := RegRuns(vm, e.operand, n, consts, m);
    if a.None? {
      FailsAnywhere(vm, m, k, ax, ax + 1);
    } else {
      ReadBack(m.regs, a.value, x.reg);
      OpStep(vm, RegMachine(ax, Over(m.regs, a.value), m.globals), Instr(RegUn(e.uop), Temp(x.next).reg, x.reg, 0));
      ThenStore(vm, m, k, a.value, ax, Temp(x.next).reg, vm.p.un(e.uop, a.value[x.reg]));
      k := k + 1;
    }
  }

  // An arm of a conditional behind its test: the code of the arm, then the move to the result register.
  lemma ArmRuns(vm: RegVm, m: RegMachine, k: nat, a: Writing, b: nat, j: nat, arm: Option<Writing>, end: nat, rs: byte, rd: byte)
    returns (i: nat)
    requires RegWired(vm) && Settles(vm, m, k, Some(a), b) && (arm.Some? ==> rs in arm.value)
    requires Settles(vm, RegMachine(b, Over(m.regs, a), m.globals), j, arm, end)
    requires InstrAt(vm.prog.code, end, Instr(ROP_MOV, rd, rs, 0))
    ensures Settles(vm, m, i, Moved(a, arm, rs, rd), end + 1)
  {
    hide RegRun, Over, InstrAt, RegWired, Settles;
    ThenSettles(vm, m, k, a, b, j, arm, end);
    i := k + j;
    if arm.None? {
      FailsAnywhere(vm, m, i, end, end + 1);
    } else {
      var w := a + arm.value;
      ReadBack(m.regs, w, rs);
      OpStep(vm, RegMachine(end, Over(m.regs, w), m.globals), Instr(ROP_MOV, rd, rs, 0));
      ThenStore(vm, m, i, w, end, rd, Some(w[rs]));
      i := i + 1;
    }
  }

  lemma TernaryRuns(vm: RegVm, e: Expr, n: byte, consts: seq<Value>, m: RegMachine) returns (k: nat)
    requires RegWired(vm) && m.pc >= 0 && e.Ternary? && RegPlaced(vm.prog, e, n, consts, m.pc)
    ensures Simple(e) && Settles(vm, m, k, Effect(vm.p, e, n, m.globals), m.pc + RegSize(e))
    decreases e, 0
  {
    hide *;
    RegOpened(vm.prog, e, n, consts, m.pc);
    TernaryParts(vm.prog, e, n, consts, m.pc);
    TernaryEffect(vm.p, e, n, m.globals);
    var d, rc := Temp(AfterCond(e.cond, n)), Place(e.cond, n).reg;
    var y, b := Place(e.thn, d.next), m.pc + RegSize(e.cond) + 1;
    var n2, k1 := Freed(y.next, y.reg), RegConsts(e.cond, consts);
    var z, g := Place(e.els, n2), b + RegSize(e.thn) + 2;
    var end, a := g + RegSize(e.els) + 1, Effect(vm.p, e.cond, n, m.globals);
    k := RegRuns(vm, e.cond, n, consts, m);
    if a.None? {
      FailsAnywhere(vm, m, k, b - 1, end);
    } else {
      var w, regs := a.value, Over(m.regs, a.value);
      ReadBack(m.regs, w, rc);
      CondStep(vm, RegMachine(b - 1, regs, m.globals), rc, RegSize(e.thn) + 2);
      if vm.p.truthy(w[rc]) {
        ThenJump(vm, m, k, w, b - 1, b);
        var j := RegRuns(vm, e.thn, d.next, k1, RegMachine(b, regs, m.globals));
        var t := Effect(vm.p, e.thn, d.next, m.globals);
        k := ArmRuns(vm, m, k + 1, w, b, j, t, g - 2, y.reg, d.reg);
        if t.None? {
          MovedNone(w, t, y.reg, d.reg);
          FailsAnywhere(vm, m, k, g - 1, end);
        } else {
          MovedSome(w, t, y.reg, d.reg);
          var moved := Moved(w, t, y.reg, d.reg).value;
          AwayStep(vm, RegMachine(g - 1, Over(m.regs, moved), m.globals), RegSize(e.els) + 1);
          ThenJump(vm, m, k, moved, g - 1, end);
          k := k + 1;
        }
      } else {
        ThenJump(vm, m, k, w, b - 1, g);
        var j := RegRuns(vm, e.els, n2, RegConsts(e.thn, k1), RegMachine(g, regs, m.globals));
        k := ArmRuns(vm, m, k + 1, w, g, j, Effect(vm.p, e.els, n2, m.globals), end - 1, z.reg, d.reg);
      }
    }
  }

  lemma MovedNone(a: Writing, b: Option<Writing>, rs: byte, rd: byte)
    requires b.None?
    ensures Moved(a, b, rs, rd).None?
  {
  }

  lemma MovedSome(a: Writing, b: Option<Writing>, rs: byte, rd: byte)
    requires b.Some? && rs in b.value
    ensures Moved(a, b, rs, rd).Some?
  {
  }

  // For any expression of the fragment, any number of registers in use and any place in the code: the
  // machine ends behind the code with exactly the registers of Effect written, or fails.
  lemma RegRuns(vm: RegVm, e: Expr, n: byte, consts: seq<Value>, m: RegMachine) returns (k: nat)
    requires RegWired(vm) && m.pc >= 0 && RegPlaced(vm.prog, e, n, consts, m.pc)
    ensures Simple(e) && Settles(vm, m, k, Effect(vm.p, e, n, m.globals), m.pc + RegSize(e))
    decreases e, 1
  {
    hide Settles, Effect, RegPlaced, RegSize, RegWired;
    RegOpened(vm.prog, e, n, consts, m.pc);
    match e
    case Binary(_, _, _) => k := BinaryRuns(vm, e, n, consts, m);
    case Unary(_, _) => k := UnaryRuns(vm, e, n, consts, m);
    case Ternary(_, _, _) => k := TernaryRuns(vm, e, n, consts, m);
    case Lit(_) => k := LeafRuns(vm, e, n, consts, m);
    case Ident(_) => k := LeafRuns(vm, e, n, consts, m);
  }

  lemma LeafRuns(vm: RegVm, e: Expr, n: byte, consts: seq<Value>, m: RegMachine) returns (k: nat)
    requires RegWired(vm) && m.pc >= 0 && (e.Lit? || e.Ident?) && RegPlaced(vm.prog, e, n, consts, m.pc)
    ensures Simple(e) && Settles(vm, m, k, Effect(vm.p, e, n, m.globals), m.pc + RegSize(e))
  {
    hide RegRun, RegWired, RegAt, RegConsts, Over, Value1;
    k := 1;
    LeafStep(vm, m, e, n, consts);
    LeafValue(vm.p, e, m.globals);
    var v := Value1(vm.p, e, m.globals);
    if v.Some? {
      OverLeaf(m.regs, Temp(n).reg, v.value);
    }
  }

  lemma OverLeaf(regs: Regs, i: byte, v: Value)
    ensures Over(regs, map[i := v]) == regs[i := v]
  {
  }

  // --- A whole expression ---

  // regcompile_expr: the value is moved to r0 and returned from there.
  predicate ExprProgAt(code: seq<Instr>, e: Expr) {
    var r, a := Place(e, 0).reg, RegSize(e);
    && RegAt(code, 0, e, 0, [])
    && if r == 0 then InstrAt(code, a, Instr(ROP_RET, 0, 0, 0))
       else InstrAt(code, a, Instr(ROP_MOV, 0, r, 0)) && InstrAt(code, a + 1, Instr(ROP_RET, 0, 0, 0))
  }

  // Whether or not registers are enough, the machine returns, in r0, what the code has left in the
  // register of the expression, or fails.
  lemma MachineReturns(vm: RegVm, e: Expr, regs: Regs, globals: map<string, Value>) returns (k: nat)
    requires RegWired(vm) && Simple(e) && ExprProgAt(vm.prog.code, e)
    requires RegFits(e, []) && RegConsts(e, []) <= vm.prog.consts
    ensures var w, r := Effect(vm.p, e, 0, globals), RegRun(vm, RegMachine(0, regs, globals), k);
            if w.None? then r == Failed else r.Returned? && r.v == w.value[Place(e, 0).reg] && r.m.regs[0] == r.v
  {
    hide RegRun, RegWired, InstrAt, RegAt, Place, RegFits, RegConsts, Effect;
    var m, a, r := RegMachine(0, regs, globals), RegSize(e), Place(e, 0).reg;
    k := RegRuns(vm, e, 0, [], m);
    var w := Effect(vm.p, e, 0, globals);
    if w.Some? {
      var at := a;
      var done := w.value;
      ReadBack(regs, done, r);
      if r != 0 {
        OpStep(vm, RegMachine(a, Over(regs, done), globals), Instr(ROP_MOV, 0, r, 0));
        ThenStore(vm, m, k, done, a, 0, Some(done[r]));
        k, at, done := k + 1, a + 1, done[0 := done[r]];
      }
      var m1 := RegMachine(at, Over(regs, done), globals);
      OpStep(vm, m1, Instr(ROP_RET, 0, 0, 0));
      RegThen(vm, m, k, m1, 1);
      k := k + 1;
    }
  }

  // If no operand is overwritten and the offsets are enough, the machine returns the value of the
  // expression, or fails as it does.
  lemma ExprReturns(vm: RegVm, e: Expr, regs: Regs, globals: map<string, Value>) returns (k: nat)
    requires RegWired(vm) && Simple(e) && ExprProgAt(vm.prog.code, e)
    requires NoClobber(e, 0) && RegFits(e, []) && RegConsts(e, []) <= vm.prog.consts
    ensures var v, r := Value1(vm.p, e, globals), RegRun(vm, RegMachine(0, regs, globals), k);
            if v.None? then r == Failed else r.Returned? && r.v == v.value && r.m.regs[0] == v.value
  {
    hide RegRun, RegWired, ExprProgAt, Place, RegFits, RegConsts, Effect, Value1, NoClobber;
    NoClobberComputes(vm.p, e, 0, globals);
    k := MachineReturns(vm, e, regs, globals);
  }
}
