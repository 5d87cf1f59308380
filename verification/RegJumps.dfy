/** When the register compiler's jumps go wrong: a test of a conditional reaches its else arm exactly if the
    then arm is short enough, and an arm that is too long makes the machine fail.
 */
module RegJumps {
  import opened Ast
  import opened RegCode
  import opened RegExpr
  import opened RegClobber

  lemma {:induction false} SumSize(vs: seq<int>)
    requires vs != []
    ensures RegSize(Sum(vs)) == 2 * |vs| - 1
    decreases |vs|
  {
    if |vs| > 1 {
      SumSize(vs[..|vs| - 1]);
    }
  }

  lemma SignedIff(d: nat)
    ensures Signed16(d % 0x10000) == d <==> d <= 0x7FFF
  {
  }

  lemma TestStep(vm: RegVm, m: RegMachine, cond: byte, d: nat)
    requires RegWired(vm) && m.pc >= 0 && InstrAt(vm.prog.code, m.pc, Imm(ROP_JMP_UNLESS, cond, d)) && !vm.p.truthy(m.regs[cond])
    ensures RegRun(vm, m, 1) == Going(m.(pc := m.pc + 1 + Signed16(d % 0x10000)))
  {
    OneRegStep(vm, m);
    ImmReadBack(ROP_JMP_UNLESS, cond, d);
  }

  lemma LeaveStep(vm: RegVm, m: RegMachine, d: nat)
    requires RegWired(vm) && m.pc >= 0 && InstrAt(vm.prog.code, m.pc, Imm(ROP_JMP, 0, d))
    ensures RegRun(vm, m, 1) == Going(m.(pc := m.pc + 1 + d % 0x10000))
  {
    OneRegStep(vm, m);
    ImmReadBack(ROP_JMP, 0, d);
  }

  // A conditional whose condition turns out false: the machine is at the else arm if and only if the then
  // arm, with the two instructions behind it, has less than 2^15 of them.
  lemma TestLands(vm: RegVm, e: Expr, n: byte, consts: seq<Value>, m: RegMachine) returns (k: nat, pc: int)
    requires RegWired(vm) && m.pc >= 0 && e.Ternary? && Simple(e) && RegAt(vm.prog.code, m.pc, e, n, consts)
    requires RegPlaced(vm.prog, e.cond, n, consts, m.pc)
    requires var a := Effect(vm.p, e.cond, n, m.globals); a.Some? && !vm.p.truthy(a.value[Place(e.cond, n).reg])
    ensures RegRun(vm, m, k) == Going(RegMachine(pc, Over(m.regs, Effect(vm.p, e.cond, n, m.globals).value), m.globals))
    ensures pc == m.pc + RegSize(e.cond) + 1 + (RegSize(e.thn) + 2) <==> RegSize(e.thn) + 2 <= 0x7FFF
  {
    hide RegRun, RegWired, Over, Effect, RegPlaced, Place, Imm, InstrAt, RegAt, RegSize, Signed16;
    CondOpened(vm.prog.code, m.pc, e, n, consts);
    var b, d := m.pc + RegSize(e.cond), RegSize(e.thn) + 2;
    var w := Effect(vm.p, e.cond, n, m.globals).value;
    var m1 := RegMachine(b, Over(m.regs, w), m.globals);
    k := RegRuns(vm, e.cond, n, consts, m);
    ReadBack(m.regs, w, Place(e.cond, n).reg);
    TestStep(vm, m1, Place(e.cond, n).reg, d);
    RegThen(vm, m, k, m1, 1);
    k, pc := k + 1, b + 1 + Signed16(d % 0x10000);
    SignedIff(d);
  }

  // Behind the then arm, the machine leaves the conditional if and only if the else arm, with the move behind
  // it, has less than 2^16 instructions.
  lemma ArmLands(vm: RegVm, e: Expr, n: byte, consts: seq<Value>, a: nat, m: RegMachine)
    requires RegWired(vm) && e.Ternary? && Simple(e) && RegAt(vm.prog.code, a, e, n, consts)
    requires m.pc == a + RegSize(e.cond) + 1 + RegSize(e.thn) + 1
    ensures RegRun(vm, m, 1).Going? && (RegRun(vm, m, 1).m == m.(pc := a + RegSize(e)) <==> RegSize(e.els) + 1 <= 0xFFFF)
  {
    hide RegRun, RegWired, Imm, InstrAt;
    LeaveStep(vm, m, RegSize(e.els) + 1);
  }

  // false ? vs[0] + vs[1] + ... : v, with 2^14 terms or more, has the value v; its test jumps back in front of
  // the program, and the machine fails.
  lemma FarConditional(vm: RegVm, vs: seq<int>, v: Value, regs: Regs, globals: map<string, Value>)
    requires RegWired(vm) && !vm.p.truthy(Bool(false)) && 0x4000 <= |vs| <= 0x7FFE
    requires ExprProgAt(vm.prog.code, Ternary(Lit(Bool(false)), Sum(vs), Lit(v)))
    ensures var e := Ternary(Lit(Bool(false)), Sum(vs), Lit(v));
            Simple(e) && Value1(vm.p, e, globals) == Some(v) && RegRun(vm, RegMachine(0, regs, globals), 3) == Failed
  {
    var c, t := Lit(Bool(false)), Sum(vs);
    var e, m := Ternary(c, t, Lit(v)), RegMachine(0, regs, globals);
    SumSize(vs);
    SumPlace(vs, 0);
    hide Sum, RegRun, RegWired, ExprProgAt;
    TernaryValue(vm.p, e, globals);
    FarParts(vm.prog.code, c, t, Lit(v));
    FarRun(vm, RegSize(t) + 2, regs, globals);
  }

  lemma FarRun(vm: RegVm, d: nat, regs: Regs, globals: map<string, Value>)
    requires RegWired(vm) && !vm.p.truthy(Bool(false)) && 0x8000 <= d < 0xFFFE
    requires InstrAt(vm.prog.code, 0, Instr(ROP_LOAD_FALSE, 0, 0, 0)) && InstrAt(vm.prog.code, 1, Imm(ROP_JMP_UNLESS, 0, d))
    ensures RegRun(vm, RegMachine(0, regs, globals), 3) == Failed
  {
    hide RegRun, RegWired, Imm, InstrAt;
    var m, m2 := RegMachine(0, regs, globals), RegMachine(1, regs[0 := Bool(false)], globals);
    LoadStep(vm, m, Instr(ROP_LOAD_FALSE, 0, 0, 0));
    TestStep(vm, m2, 0, d);
    RegThen(vm, m, 1, m2, 1);
    var m3 := m2.(pc := 2 + d - 0x10000);
    RegThen(vm, m, 2, m3, 1);
    FailStep(vm, m3);
  }

  lemma FailStep(vm: RegVm, m: RegMachine)
    requires RegWired(vm) && m.pc < 0
    ensures RegRun(vm, m, 1) == Failed
  {
    OneRegStep(vm, m);
  }

  lemma FarParts(code: seq<Instr>, c: Expr, t: Expr, f: Expr)
    requires c == Lit(Bool(false)) && ExprProgAt(code, Ternary(c, t, f))
    ensures InstrAt(code, 0, Instr(ROP_LOAD_FALSE, 0, 0, 0)) && InstrAt(code, 1, Imm(ROP_JMP_UNLESS, 0, RegSize(t) + 2))
  {
    hide Imm, InstrAt, RegAt, Place, RegSize;
    CondOpened(code, 0, Ternary(c, t, f), 0, []);
    FalseOpened(code);
  }

  lemma CondOpened(code: seq<Instr>, a: nat, e: Expr, n: byte, consts: seq<Value>)
    requires e.Ternary? && RegAt(code, a, e, n, consts)
    ensures RegAt(code, a, e.cond, n, consts)
    ensures InstrAt(code, a + RegSize(e.cond), Imm(ROP_JMP_UNLESS, Place(e.cond, n).reg, RegSize(e.thn) + 2))
  {
    hide InstrAt, Place, Temp, Freed, AfterCond, Imm, RegConsts;
  }

  lemma FalseOpened(code: seq<Instr>)
    requires RegAt(code, 0, Lit(Bool(false)), 0, [])
    ensures InstrAt(code, 0, Instr(ROP_LOAD_FALSE, 0, 0, 0)) && Place(Lit(Bool(false)), 0).reg == 0 && RegSize(Lit(Bool(false))) == 1
  {
  }

  // --- An arm that is longer still ---

  // The i-th term of a sum whose code starts at 2, with r0 taken: loaded, and added to the terms before it.
  ghost predicate TermAt(code: seq<Instr>, i: nat, v: int) {
    && InstrAt(code, 2 * i + 1, LitInstr(Int(v), (2 * i) % REG_MAX, 0))
    && InstrAt(code, 2 * i + 2, Instr(RegBin(Add), (2 * i + 1) % REG_MAX, (2 * i - 1) % REG_MAX, (2 * i) % REG_MAX))
  }

  lemma {:induction false} SumCode(code: seq<Instr>, vs: seq<int>, i: nat)
    requires 1 <= i < |vs| && RegAt(code, 2, Sum(vs), 1, []) && Small(vs)
    ensures TermAt(code, i, vs[i])
    decreases |vs|
  {
    var k := |vs| - 1;
    LastCode(code, vs);
    hide RegAt, Sum, TermAt;
    if i < k {
      SumCode(code, vs[..k], i);
    }
  }

  lemma LastCode(code: seq<Instr>, vs: seq<int>)
    requires |vs| > 1 && RegAt(code, 2, Sum(vs), 1, []) && Small(vs)
    ensures var k := |vs| - 1; RegAt(code, 2, Sum(vs[..k]), 1, []) && TermAt(code, k, vs[k])
  {
    var k := |vs| - 1;
    SumFits(vs[..k]);
    SumSize(vs[..k]);
    SumPlace(vs[..k], 1);
    LeakTwo(2 * k);
    hide Sum, Temp, Freed, InstrAt, LitInstr;
    assert Sum(vs) == Binary(Add, Sum(vs[..k]), Lit(Int(vs[k]))) by { SumParts(vs); }
    assert Place(Sum(vs[..k]), 1) == Spot((2 * k - 1) % REG_MAX, (2 * k) % REG_MAX);
  }

  // A term is added to nil.
  lemma TermStep(vm: RegVm, m: RegMachine, i: nat, v: int) returns (m': RegMachine)
    requires RegWired(vm) && Immediate(Int(v)) && i >= 1 && TermAt(vm.prog.code, i, v) && vm.p.bin(Add, Nil, Int(v)) == Some(Nil)
    requires m.pc == 2 * i + 1 && m.regs[(2 * i - 1) % REG_MAX] == Nil
    ensures RegRun(vm, m, 2) == Going(m') && m'.pc == 2 * i + 3 && m'.regs[(2 * i + 1) % REG_MAX] == Nil && m'.globals == m.globals
  {
    hide RegRun, RegWired, InstrAt, LitInstr;
    LeakTwo(2 * i);
    LitStep(vm, m, Int(v), (2 * i) % REG_MAX, 0);
    var m1 := m.(pc := 2 * i + 2, regs := m.regs[(2 * i) % REG_MAX := Int(v)]);
    OpStep(vm, m1, Instr(RegBin(Add), (2 * i + 1) % REG_MAX, (2 * i - 1) % REG_MAX, (2 * i) % REG_MAX));
    RegThen(vm, m, 1, m1, 1);
    m' := m1.(pc := 2 * i + 3, regs := m1.regs[(2 * i + 1) % REG_MAX := Nil]);
  }

  // The terms from the i-th on.
  lemma {:induction false} TermsRun(vm: RegVm, m: RegMachine, vs: seq<int>, i: nat) returns (k: nat, m': RegMachine)
    requires RegWired(vm) && Small(vs) && 1 <= i <= |vs| && (forall x :: vm.p.bin(Add, Nil, Int(x)) == Some(Nil))
    requires forall j :: i <= j < |vs| ==> TermAt(vm.prog.code, j, vs[j])
    requires m.pc == 2 * i + 1 && m.regs[(2 * i - 1) % REG_MAX] == Nil
    ensures RegRun(vm, m, k) == Going(m') && m'.pc == 2 * |vs| + 1 && m'.regs[(2 * |vs| - 1) % REG_MAX] == Nil
    decreases |vs| - i
  {
    hide RegRun, RegWired, TermAt;
    if i == |vs| {
      k, m' := 0, m;
      Stays(vm, m);
    } else {
      var m1 := TermStep(vm, m, i, vs[i]);
      assert 2 * (i + 1) - 1 == 2 * i + 1;
      k, m' := TermsRun(vm, m1, vs, i + 1);
      RegThen(vm, m, 2, m1, k);
      k := 2 + k;
    }
  }

  lemma Stays(vm: RegVm, m: RegMachine)
    ensures RegRun(vm, m, 0) == Going(m)
  {
  }

  // false ? vs[0] + vs[1] + ... : v, with 2^15 terms or more: the test jumps over the first terms into the
  // middle of the sum, which goes on from a register that was never written, and nil is returned for v.
  lemma FarSum(vm: RegVm, vs: seq<int>, v: Value, regs: Regs, globals: map<string, Value>) returns (k: nat)
    requires RegWired(vm) && !vm.p.truthy(Bool(false)) && (forall x :: vm.p.bin(Add, Nil, Int(x)) == Some(Nil))
    requires 0x8000 <= |vs| <= 0xBFFF && Small(vs) && regs[(2 * |vs| + 1) % REG_MAX] == Nil
    requires ExprProgAt(vm.prog.code, Ternary(Lit(Bool(false)), Sum(vs), Lit(v)))
    ensures var e := Ternary(Lit(Bool(false)), Sum(vs), Lit(v)); Simple(e) && Value1(vm.p, e, globals) == Some(v)
    ensures var r := RegRun(vm, RegMachine(0, regs, globals), k); r.Returned? && r.v == Nil
  {
    var code, n, i := vm.prog.code, |vs|, |vs| - 0x7FFF;
    SumPlace(vs, 0);
    hide Sum, RegRun, RegWired, ExprProgAt, TermAt, Value1, Imm, InstrAt, Place, RegAt, Small;
    TernaryValue(vm.p, Ternary(Lit(Bool(false)), Sum(vs), Lit(v)), globals);
    LeafValue(vm.p, Lit(Bool(false)), globals);
    LeafValue(vm.p, Lit(v), globals);
    FarCode(code, vs, v);
    forall j | i <= j < n ensures TermAt(code, j, vs[j]) {
      SumCode(code, vs, j);
    }
    var m := RegMachine(0, regs, globals);
    var m1 := FarStart(vm, vs, regs, globals);
    var m2;
    k, m2 := TermsRun(vm, m1, vs, i);
    RegThen(vm, m, 2, m1, k);
    k := 2 + k;
    FarEnd(vm, m2, n);
    RegThen(vm, m, k, m2, 3);
    k := k + 3;
  }

  // The jump of 2n + 1 instructions is one of 2n + 1 - 2^16.
  lemma FarStart(vm: RegVm, vs: seq<int>, regs: Regs, globals: map<string, Value>) returns (m: RegMachine)
    requires RegWired(vm) && !vm.p.truthy(Bool(false)) && 0x8000 <= |vs| <= 0xBFFF && regs[(2 * |vs| + 1) % REG_MAX] == Nil
    requires InstrAt(vm.prog.code, 0, Instr(ROP_LOAD_FALSE, 0, 0, 0)) && InstrAt(vm.prog.code, 1, Imm(ROP_JMP_UNLESS, 0, 2 * |vs| + 1))
    ensures var i := |vs| - 0x7FFF;
            RegRun(vm, RegMachine(0, regs, globals), 2) == Going(m) && m.pc == 2 * i + 1 && m.regs[(2 * i - 1) % REG_MAX] == Nil
  {
    hide RegRun, RegWired, Imm, InstrAt;
    var m0, m1 := RegMachine(0, regs, globals), RegMachine(1, regs[0 := Bool(false)], globals);
    LoadStep(vm, m0, Instr(ROP_LOAD_FALSE, 0, 0, 0));
    TestStep(vm, m1, 0, 2 * |vs| + 1);
    RegThen(vm, m0, 1, m1, 1);
    m := m1.(pc := 2 * |vs| + 3 - 0x10000);
    SameRegister(|vs|);
  }

  lemma SameRegister(n: nat)
    requires 0x8000 <= n <= 0xBFFF
    ensures (2 * (n - 0x7FFF) - 1) % REG_MAX == (2 * n + 1) % REG_MAX != 0
    ensures Signed16((2 * n + 1) % 0x10000) == 2 * n + 1 - 0x10000
  {
  }

  // Behind the sum: moved to r0, over the else arm, returned.
  lemma FarEnd(vm: RegVm, m: RegMachine, n: nat)
    requires RegWired(vm) && n > 0 && m.pc == 2 * n + 1 && m.regs[(2 * n - 1) % REG_MAX] == Nil
    requires var code := vm.prog.code;
             && InstrAt(code, 2 * n + 1, Instr(ROP_MOV, 0, (2 * n - 1) % REG_MAX, 0)) && InstrAt(code, 2 * n + 2, Imm(ROP_JMP, 0, 2))
             && InstrAt(code, 2 * n + 5, Instr(ROP_RET, 0, 0, 0))
    ensures var r := RegRun(vm, m, 3); r.Returned? && r.v == Nil
  {
    hide RegRun, RegWired, Imm, InstrAt;
    var m1 := m.(pc := 2 * n + 2, regs := m.regs[0 := Nil]);
    OpStep(vm, m, Instr(ROP_MOV, 0, (2 * n - 1) % REG_MAX, 0));
    LeaveStep(vm, m1, 2);
    RegThen(vm, m, 1, m1, 1);
    var m2 := m1.(pc := 2 * n + 5);
    OpStep(vm, m2, Instr(ROP_RET, 0, 0, 0));
    RegThen(vm, m, 2, m2, 1);
  }

  lemma FarCode(code: seq<Instr>, vs: seq<int>, v: Value)
    requires vs != [] && ExprProgAt(code, Ternary(Lit(Bool(false)), Sum(vs), Lit(v)))
    ensures var n := |vs|;
            && InstrAt(code, 0, Instr(ROP_LOAD_FALSE, 0, 0, 0)) && InstrAt(code, 1, Imm(ROP_JMP_UNLESS, 0, 2 * n + 1))
            && RegAt(code, 2, Sum(vs), 1, [])
            && InstrAt(code, 2 * n + 1, Instr(ROP_MOV, 0, (2 * n - 1) % REG_MAX, 0)) && InstrAt(code, 2 * n + 2, Imm(ROP_JMP, 0, 2))
            && InstrAt(code, 2 * n + 5, Instr(ROP_RET, 0, 0, 0))
  {
    hide *;
    var c, t, f := Lit(Bool(false)), Sum(vs), Lit(v);
    SumSize(vs);
    SumAfter(vs);
    LeafSizes(v);
    FarParts(code, c, t, f);
    ArmOpened(code, c, t, f);
  }

  lemma SumAfter(vs: seq<int>)
    requires vs != []
    ensures Place(Sum(vs), 1).reg == (2 * |vs| - 1) % REG_MAX
  {
    hide *;
    SumPlace(vs, 1);
    assert 1 + 2 * |vs| - 2 == 2 * |vs| - 1;
  }

  lemma LeafSizes(v: Value)
    ensures var c := Lit(Bool(false)); Place(c, 0) == Spot(0, 1) && RegSize(c) == 1 && RegConsts(c, []) == []
    ensures RegSize(Lit(v)) == 1
  {
  }

  lemma ArmOpened(code: seq<Instr>, c: Expr, t: Expr, f: Expr)
    requires ExprProgAt(code, Ternary(c, t, f)) && Place(c, 0) == Spot(0, 1) && RegSize(c) == 1 && RegConsts(c, []) == [] && RegSize(f) == 1
    ensures RegAt(code, 2, t, 1, [])
    ensures var b := RegSize(t) + 2;
            && InstrAt(code, b, Instr(ROP_MOV, 0, Place(t, 1).reg, 0)) && InstrAt(code, b + 1, Imm(ROP_JMP, 0, 2))
            && InstrAt(code, b + 4, Instr(ROP_RET, 0, 0, 0))
  {
    var e := Ternary(c, t, f);
    assert AfterCond(c, 0) == 0 && Temp(0) == Spot(0, 1);
    ThenOpened(code, 0, e, 0, []);
    hide RegAt, InstrAt, Imm, RegConsts, AfterCond, Temp, Freed, Place, RegSize;
  }

  lemma ThenOpened(code: seq<Instr>, a: nat, e: Expr, n: byte, consts: seq<Value>)
    requires e.Ternary?
    ensures var d := Temp(AfterCond(e.cond, n));
            var g := a + RegSize(e.cond) + 1 + RegSize(e.thn);
            && Place(e, n).reg == d.reg && RegSize(e) == RegSize(e.cond) + 1 + RegSize(e.thn) + 2 + RegSize(e.els) + 1
            && (RegAt(code, a, e, n, consts) ==>
                  && RegAt(code, a + RegSize(e.cond) + 1, e.thn, d.next, RegConsts(e.cond, consts))
                  && InstrAt(code, g, Instr(ROP_MOV, d.reg, Place(e.thn, d.next).reg, 0))
                  && InstrAt(code, g + 1, Imm(ROP_JMP, 0, RegSize(e.els) + 1)))
  {
    hide InstrAt, Temp, Freed, AfterCond, Imm, RegConsts;
  }
}
