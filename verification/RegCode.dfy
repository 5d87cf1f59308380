/** The register machine's instructions (src/vm/regvm.h), the allocation of registers to the parts of
    an expression (src/lang/regalloc.c), and the layout of the code that src/lang/regcompiler.c emits.
 */
module RegCode {
  import opened Ast

  type byte = b: nat | b < 256

  const REG_MAX: nat := 256

  const ROP_MOV: byte := 1
  const ROP_LOAD_K: byte := 2
  const ROP_LOAD_NIL: byte := 3
  const ROP_LOAD_TRUE: byte := 4
  const ROP_LOAD_FALSE: byte := 5
  const ROP_LOAD_INT: byte := 6
  const ROP_JMP: byte := 22
  const ROP_JMP_UNLESS: byte := 24
  const ROP_RET: byte := 28
  const ROP_GET_GLOBAL: byte := 29

  // ROP_ADD .. ROP_MOD and ROP_EQ .. ROP_GE.
  function RegBin(op: BinOp): byte {
    match op
    case Add => 7 case Sub => 8 case Mul => 9 case Div => 10 case Mod => 11
    case Eq => 13 case Ne => 14 case Lt => 15 case Le => 16 case Gt => 17 case Ge => 18
  }

  function RegBinOf(b: byte): Option<BinOp> {
    if b == 7 then Some(Add) else if b == 8 then Some(Sub) else if b == 9 then Some(Mul)
    else if b == 10 then Some(Div) else if b == 11 then Some(Mod) else if b == 13 then Some(Eq)
    else if b == 14 then Some(Ne) else if b == 15 then Some(Lt) else if b == 16 then Some(Le)
    else if b == 17 then Some(Gt) else if b == 18 then Some(Ge) else None
  }

  // ROP_NEG and ROP_NOT.
  function RegUn(op: UnOp): byte {
    match op case Neg => 12 case Not => 19
  }

  datatype Instr = Instr(op: byte, rd: byte, rs1: byte, rs2: byte)

  // --- Encoding of immediates and jumps ---

  // The low 16 bits of a two's complement number, high byte first.
  function Imm(op: byte, rd: byte, i: int): Instr {
    Instr(op, rd, i / 256 % 256, i % 256)
  }

  function GetImm(i: Instr): nat {
    var hi: nat, lo: nat := i.rs1, i.rs2;
    hi * 256 + lo
  }

  function Signed16(n: nat): int {
    if n < 0x8000 then n else n - 0x10000
  }

  // A jump with 24 bits, the top ones in the place of rd.
  function GetOffset(i: Instr): int {
    var top: nat, low := i.rd, GetImm(i);
    var n := top * 0x10000 + low;
    if n < 0x800000 then n else n - 0x1000000
  }

  function GetCondOffset(i: Instr): int {
    Signed16(GetImm(i))
  }

  // An immediate is read back modulo 2^16.
  lemma ImmReadBack(op: byte, rd: byte, i: int)
    ensures GetImm(Imm(op, rd, i)) == i % 0x10000
  {
    assert i % 0x10000 == i / 256 % 256 * 256 + i % 256;
  }

  // A small integer survives as an immediate.
  lemma IntReadBack(op: byte, rd: byte, i: int)
    ensures Signed16(GetImm(Imm(op, rd, i))) == i <==> -32768 <= i <= 32767
  {
    ImmReadBack(op, rd, i);
  }

  // A conditional jump goes the distance it was patched to exactly up to 15 bits, a plain one up to 16.
  lemma CondJumpReadBack(cond: byte, d: nat)
    ensures GetCondOffset(Imm(ROP_JMP_UNLESS, cond, d)) == d <==> d <= 0x7FFF
  {
    ImmReadBack(ROP_JMP_UNLESS, cond, d);
  }

  lemma JumpReadBack(d: nat)
    ensures GetOffset(Imm(ROP_JMP, 0, d)) == d <==> d <= 0xFFFF
  {
    ImmReadBack(ROP_JMP, 0, d);
  }

  // --- The machine ---

  datatype RegProg = RegProg(code: seq<Instr>, consts: seq<Value>)

  type Regs = s: seq<Value> | |s| == REG_MAX witness seq(REG_MAX, i => Nil)

  datatype RegMachine = RegMachine(pc: int, regs: Regs, globals: map<string, Value>)

  datatype RegStatus = Going(m: RegMachine) | Returned(v: Value, m: RegMachine) | Failed

  function Write(m: RegMachine, rd: byte, v: Value): RegStatus {
    Going(m.(pc := m.pc + 1, regs := m.regs[rd := v]))
  }

  function WriteIf(m: RegMachine, rd: byte, v: Option<Value>): RegStatus {
    match v
    case None => Failed
    case Some(x) => Write(m, rd, x)
  }

  function RegStep(p: Prims, prog: RegProg, m: RegMachine): RegStatus {
    if !(0 <= m.pc < |prog.code|) then Failed
    else
      var i := prog.code[m.pc];
      if i.op == ROP_MOV then Write(m, i.rd, m.regs[i.rs1])
      else if i.op == ROP_LOAD_K then
        if GetImm(i) < |prog.consts| then Write(m, i.rd, prog.consts[GetImm(i)]) else Going(m.(pc := m.pc + 1))
      else if i.op == ROP_LOAD_NIL then Write(m, i.rd, Nil)
      else if i.op == ROP_LOAD_TRUE then Write(m, i.rd, Bool(true))
      else if i.op == ROP_LOAD_FALSE then Write(m, i.rd, Bool(false))
      else if i.op == ROP_LOAD_INT then Write(m, i.rd, Int(Signed16(GetImm(i))))
      else if i.op == RegUn(Neg) then WriteIf(m, i.rd, p.un(Neg, m.regs[i.rs1]))
      else if i.op == RegUn(Not) then WriteIf(m, i.rd, p.un(Not, m.regs[i.rs1]))
      else if i.op == ROP_JMP then Going(m.(pc := m.pc + 1 + GetOffset(i)))
      else if i.op == ROP_JMP_UNLESS then
        Going(m.(pc := m.pc + 1 + if p.truthy(m.regs[i.rd]) then 0 else GetCondOffset(i)))
      else if i.op == ROP_RET then Returned(m.regs[i.rd], m)
      else if i.op == ROP_GET_GLOBAL then
        if GetImm(i) < |prog.consts| && prog.consts[GetImm(i)].Str? && prog.consts[GetImm(i)].s in m.globals
        then Write(m, i.rd, m.globals[prog.consts[GetImm(i)].s]) else Failed
      else
        match RegBinOf(i.op)
        case None => Failed
        case Some(op) => WriteIf(m, i.rd, p.bin(op, m.regs[i.rs1], m.regs[i.rs2]))
  }

  // As for the stack machine, a step is a value, so that runs can treat it as a black box.
  datatype RegVm = RegVm(p: Prims, prog: RegProg, step: RegMachine -> RegStatus)

  ghost predicate RegWired(vm: RegVm) {
    forall m {:trigger RegStep(vm.p, vm.prog, m)} :: vm.step(m) == RegStep(vm.p, vm.prog, m)
  }

  function RegRun(vm: RegVm, m: RegMachine, k: nat): RegStatus
    decreases k
  {
    if k == 0 then Going(m)
    else match vm.step(m)
         case Going(m') => RegRun(vm, m', k - 1)
         case r => r
  }

  // --- Allocation of registers ---

  // A register, and the number of temporaries in use, which is kept in a byte.
  datatype Spot = Spot(reg: byte, next: byte)

  // regalloc_temp with `n` temporaries in use: after register 255 the count wraps around and r0 is next.
  function Temp(n: byte): Spot {
    Spot(n, if n == REG_MAX - 1 then 0 else n + 1)
  }

  // regalloc_free_temp behind regalloc_is_temp: only the last temporary is ever freed.
  function Freed(n: byte, reg: byte): byte {
    if reg < n && reg == n - 1 then n - 1 else n
  }

  // The fragment: literals, globals, arithmetic, comparison, unary operators and conditionals.
  predicate Simple(e: Expr) {
    match e
    case Lit(_) => true
    case Ident(_) => true
    case Binary(_, l, r) => Simple(l) && Simple(r)
    case Unary(_, x) => Simple(x)
    case Ternary(c, t, f) => Simple(c) && Simple(t) && Simple(f)
    case _ => false
  }

  // Where the value of the expression goes, and how many temporaries are in use after it.
  function Place(e: Expr, n: byte): Spot
    decreases e, 0
  {
    match e
    case Binary(_, l, r) =>
      var x := Place(l, n);
      var y := Place(r, x.next);
      var d := Temp(y.next);
      Spot(d.reg, Freed(Freed(d.next, y.reg), x.reg))
    case Unary(_, o) =>
      var x := Place(o, n);
      var d := Temp(x.next);
      Spot(d.reg, Freed(d.next, x.reg))
    case Ternary(c, t, f) =>
      var d := Temp(AfterCond(c, n));
      var y := Place(t, d.next);
      var z := Place(f, Freed(y.next, y.reg));
      Spot(d.reg, Freed(z.next, z.reg))
    case _ => Temp(n)
  }

  // The register of a condition is given back before the arms are compiled.
  function AfterCond(c: Expr, n: byte): byte
    decreases c, 1
  {
    var x := Place(c, n);
    Freed(x.next, x.reg)
  }

  // The count never wraps around.
  predicate Roomy(e: Expr, n: byte) {
    match e
    case Binary(_, l, r) =>
      Roomy(l, n) && Roomy(r, Place(l, n).next) && Place(r, Place(l, n).next).next < REG_MAX - 1
    case Unary(_, x) => Roomy(x, n) && Place(x, n).next < REG_MAX - 1
    case Ternary(c, t, f) =>
      var d := Temp(AfterCond(c, n));
      var y := Place(t, d.next);
      Roomy(c, n) && AfterCond(c, n) < REG_MAX - 1 && Roomy(t, d.next) && Roomy(f, Freed(y.next, y.reg))
    case _ => n < REG_MAX - 1
  }

  // The registers that the code of the expression may write.
  function Writes(e: Expr, n: byte): set<byte>
    decreases e
  {
    match e
    case Binary(_, l, r) =>
      var x := Place(l, n);
      Writes(l, n) + Writes(r, x.next) + {Temp(Place(r, x.next).next).reg}
    case Unary(_, o) => Writes(o, n) + {Temp(Place(o, n).next).reg}
    case Ternary(c, t, f) =>
      var d := Temp(AfterCond(c, n));
      var y := Place(t, d.next);
      Writes(c, n) + Writes(t, d.next) + Writes(f, Freed(y.next, y.reg)) + {d.reg}
    case _ => {Temp(n).reg}
  }

  // No left operand's register is written while the right operand is evaluated. A condition is tested
  // as soon as it is there, and an arm's value is moved as soon as it is there, so they are never lost.
  predicate NoClobber(e: Expr, n: byte)
    decreases e
  {
    match e
    case Binary(_, l, r) =>
      var x := Place(l, n);
      NoClobber(l, n) && NoClobber(r, x.next) && x.reg !in Writes(r, x.next)
    case Unary(_, o) => NoClobber(o, n)
    case Ternary(c, t, f) =>
      var d := Temp(AfterCond(c, n));
      var y := Place(t, d.next);
      NoClobber(c, n) && NoClobber(t, d.next) && NoClobber(f, Freed(y.next, y.reg))
    case _ => true
  }

  // --- Layout ---

  function RegSize(e: Expr): nat {
    match e
    case Binary(_, l, r) => RegSize(l) + RegSize(r) + 1
    case Unary(_, x) => RegSize(x) + 1
    case Ternary(c, t, f) => RegSize(c) + 1 + RegSize(t) + 2 + RegSize(f) + 1
    case _ => 1
  }

  // A literal with an instruction of its own needs no constant.
  predicate Immediate(v: Value) {
    v.Nil? || v.Bool? || (v.Int? && -32768 <= v.i <= 32767)
  }

  function RegConsts(e: Expr, consts: seq<Value>): seq<Value> {
    match e
    case Lit(v) => if Immediate(v) then consts else consts + [v]
    case Ident(name) => consts + [Str(name)]
    case Binary(_, l, r) => RegConsts(r, RegConsts(l, consts))
    case Unary(_, x) => RegConsts(x, consts)
    case Ternary(c, t, f) => RegConsts(f, RegConsts(t, RegConsts(c, consts)))
    case _ => consts
  }

  predicate InstrAt(code: seq<Instr>, a: nat, i: Instr) {
    a < |code| && code[a] == i
  }

  function LitInstr(v: Value, rd: byte, consts: nat): Instr {
    match v
    case Nil => Instr(ROP_LOAD_NIL, rd, 0, 0)
    case Bool(b) => Instr(if b then ROP_LOAD_TRUE else ROP_LOAD_FALSE, rd, 0, 0)
    case _ => if Immediate(v) then Imm(ROP_LOAD_INT, rd, v.i) else Imm(ROP_LOAD_K, rd, consts)
  }

  predicate RegAt(code: seq<Instr>, a: nat, e: Expr, n: byte, consts: seq<Value>)
    decreases e
  {
    match e
    case Lit(v) => InstrAt(code, a, LitInstr(v, Temp(n).reg, |consts|))
    case Ident(_) => InstrAt(code, a, Imm(ROP_GET_GLOBAL, Temp(n).reg, |consts|))
    case Binary(op, l, r) =>
      var x := Place(l, n);
      var y := Place(r, x.next);
      && RegAt(code, a, l, n, consts)
      && RegAt(code, a + RegSize(l), r, x.next, RegConsts(l, consts))
      && InstrAt(code, a + RegSize(l) + RegSize(r), Instr(RegBin(op), Temp(y.next).reg, x.reg, y.reg))
    case Unary(op, o) =>
      var x := Place(o, n);
      && RegAt(code, a, o, n, consts)
      && InstrAt(code, a + RegSize(o), Instr(RegUn(op), Temp(x.next).reg, x.reg, 0))
    case Ternary(c, t, f) =>
      var d := Temp(AfterCond(c, n));
      var y, b := Place(t, d.next), a + RegSize(c) + 1;
      var z, g := Place(f, Freed(y.next, y.reg)), b + RegSize(t) + 2;
      && RegAt(code, a, c, n, consts)
      && InstrAt(code, b - 1, Imm(ROP_JMP_UNLESS, Place(c, n).reg, RegSize(t) + 2))
      && RegAt(code, b, t, d.next, RegConsts(c, consts))
      && InstrAt(code, g - 2, Instr(ROP_MOV, d.reg, y.reg, 0))
      && InstrAt(code, g - 1, Imm(ROP_JMP, 0, RegSize(f) + 1))
      && RegAt(code, g, f, Freed(y.next, y.reg), RegConsts(t, RegConsts(c, consts)))
      && InstrAt(code, g + RegSize(f), Instr(ROP_MOV, d.reg, z.reg, 0))
    case _ => true
  }

  // The offsets are read back as they were meant, and constants have 16-bit indices.
  predicate RegFits(e: Expr, consts: seq<Value>) {
    match e
    case Lit(v) => Immediate(v) || |consts| <= 0xFFFF
    case Ident(_) => |consts| <= 0xFFFF
    case Binary(_, l, r) => RegFits(l, consts) && RegFits(r, RegConsts(l, consts))
    case Unary(_, x) => RegFits(x, consts)
    case Ternary(c, t, f) =>
      var k1 := RegConsts(c, consts);
      && RegFits(c, consts) && RegFits(t, k1) && RegFits(f, RegConsts(t, k1))
      && RegSize(t) + 2 <= 0x7FFF && RegSize(f) + 1 <= 0xFFFF
    case _ => true
  }
}
