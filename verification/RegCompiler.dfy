/** The register compiler (src/lang/regcompiler.c) with its allocator (src/lang/regalloc.c): a walk
    over the expression that appends instructions, patches jumps in place and hands out temporaries.
 */
module RegisterCompiler {
  import opened Ast
  import opened RegCode
  import opened RegExpr

  // --- Code elsewhere does not matter ---

  predicate SameCode(c1: seq<Instr>, c2: seq<Instr>, lo: nat, hi: nat) {
    hi <= |c1| && hi <= |c2| && forall i :: lo <= i < hi ==> c1[i] == c2[i]
  }

  lemma SameInstr(c1: seq<Instr>, c2: seq<Instr>, lo: nat, hi: nat, a: nat, i: Instr)
    requires SameCode(c1, c2, lo, hi) && lo <= a < hi && InstrAt(c1, a, i)
    ensures InstrAt(c2, a, i)
  {
  }

  lemma SamePart(c1: seq<Instr>, c2: seq<Instr>, lo: nat, hi: nat, lo': nat, hi': nat)
    requires SameCode(c1, c2, lo, hi) && lo <= lo' && hi' <= hi
    ensures SameCode(c1, c2, lo', hi')
  {
  }

  // The layout of each compound expression, opened once.
  lemma BinaryShape(code: seq<Instr>, a: nat, e: Expr, n: byte, consts: seq<Value>)
    requires e.Binary?
    ensures var x := Place(e.left, n);
            var y, b := Place(e.right, x.next), a + RegSize(e.left);
            && RegSize(e) == RegSize(e.left) + RegSize(e.right) + 1
            && (RegAt(code, a, e, n, consts) <==>
                && RegAt(code, a, e.left, n, consts)
                && RegAt(code, b, e.right, x.next, RegConsts(e.left, consts))
                && InstrAt(code, b + RegSize(e.right), Instr(RegBin(e.op), Temp(y.next).reg, x.reg, y.reg)))
  {
    hide InstrAt, Place, Temp, RegBin, RegConsts;
  }

  lemma TernaryShape(code: seq<Instr>, a: nat, e: Expr, n: byte, consts: seq<Value>)
    requires e.Ternary?
    ensures RegSize(e) == RegSize(e.cond) + 1 + RegSize(e.thn) + 2 + RegSize(e.els) + 1
    ensures var d := Temp(AfterCond(e.cond, n));
            var y, b := Place(e.thn, d.next), a + RegSize(e.cond) + 1;
            var z, g := Place(e.els, Freed(y.next, y.reg)), b + RegSize(e.thn) + 2;
            && (RegAt(code, a, e, n, consts) <==>
                && RegAt(code, a, e.cond, n, consts)
                && InstrAt(code, b - 1, Imm(ROP_JMP_UNLESS, Place(e.cond, n).reg, RegSize(e.thn) + 2))
                && RegAt(code, b, e.thn, d.next, RegConsts(e.cond, consts))
                && InstrAt(code, g - 2, Instr(ROP_MOV, d.reg, y.reg, 0))
                && InstrAt(code, g - 1, Imm(ROP_JMP, 0, RegSize(e.els) + 1))
                && RegAt(code, g, e.els, Freed(y.next, y.reg), RegConsts(e.thn, RegConsts(e.cond, consts)))
                && InstrAt(code, g + RegSize(e.els), Instr(ROP_MOV, d.reg, z.reg, 0)))
  {
    hide InstrAt, Place, Temp, Freed, AfterCond, Imm, RegConsts;
  }

  lemma {:induction false} FrameReg(c1: seq<Instr>, c2: seq<Instr>, a: nat, e: Expr, n: byte, consts: seq<Value>)
    requires RegAt(c1, a, e, n, consts) && SameCode(c1, c2, a, a + RegSize(e))
    ensures RegAt(c2, a, e, n, consts)
    decreases e, 1
  {
    hide InstrAt, Place, Temp, LitInstr, Imm, SameCode;
    var hi := a + RegSize(e);
    match e
    case Binary(_, l, r) =>
      BinaryShape(c1, a, e, n, consts);
      BinaryShape(c2, a, e, n, consts);
      hide RegAt, RegSize, RegConsts, RegBin;
      var x := Place(l, n);
      var y, b := Place(r, x.next), a + RegSize(l);
      SamePart(c1, c2, a, hi, a, b);
      SamePart(c1, c2, a, hi, b, b + RegSize(r));
      FrameReg(c1, c2, a, l, n, consts);
      FrameReg(c1, c2, b, r, x.next, RegConsts(l, consts));
      SameInstr(c1, c2, a, hi, b + RegSize(r), Instr(RegBin(e.op), Temp(y.next).reg, x.reg, y.reg));
    case Unary(op, o) =>
      SamePart(c1, c2, a, hi, a, a + RegSize(o));
      FrameReg(c1, c2, a, o, n, consts);
      SameInstr(c1, c2, a, hi, a + RegSize(o), Instr(RegUn(op), Temp(Place(o, n).next).reg, Place(o, n).reg, 0));
    case Ternary(_, _, _) => FrameTernary(c1, c2, a, e, n, consts);
    case Lit(v) => SameInstr(c1, c2, a, hi, a, LitInstr(v, Temp(n).reg, |consts|));
    case Ident(_) => SameInstr(c1, c2, a, hi, a, Imm(ROP_GET_GLOBAL, Temp(n).reg, |consts|));
    case _ =>
  }

  lemma {:induction false} FrameTernary(c1: seq<Instr>, c2: seq<Instr>, a: nat, e: Expr, n: byte, consts: seq<Value>)
    requires e.Ternary? && RegAt(c1, a, e, n, consts) && SameCode(c1, c2, a, a + RegSize(e))
    ensures RegAt(c2, a, e, n, consts)
    decreases e, 0
  {
    hide *;
    TernaryShape(c1, a, e, n, consts);
    TernaryShape(c2, a, e, n, consts);
    var d, hi := Temp(AfterCond(e.cond, n)), a + RegSize(e);
    var y, b := Place(e.thn, d.next), a + RegSize(e.cond) + 1;
    var m, g := Freed(y.next, y.reg), b + RegSize(e.thn) + 2;
    SamePart(c1, c2, a, hi, a, b - 1);
    FrameReg(c1, c2, a, e.cond, n, consts);
    SameInstr(c1, c2, a, hi, b - 1, Imm(ROP_JMP_UNLESS, Place(e.cond, n).reg, RegSize(e.thn) + 2));
    SamePart(c1, c2, a, hi, b, b + RegSize(e.thn));
    FrameReg(c1, c2, b, e.thn, d.next, RegConsts(e.cond, consts));
    SameInstr(c1, c2, a, hi, g - 2, Instr(ROP_MOV, d.reg, y.reg, 0));
    SameInstr(c1, c2, a, hi, g - 1, Imm(ROP_JMP, 0, RegSize(e.els) + 1));
    SamePart(c1, c2, a, hi, g, g + RegSize(e.els));
    FrameReg(c1, c2, g, e.els, m, RegConsts(e.thn, RegConsts(e.cond, consts)));
    SameInstr(c1, c2, a, hi, g + RegSize(e.els), Instr(ROP_MOV, d.reg, Place(e.els, m).reg, 0));
  }

  lemma PrefixCode(c1: seq<Instr>, c2: seq<Instr>, a: nat, e: Expr, n: byte, consts: seq<Value>)
    requires c1 <= c2 && a + RegSize(e) <= |c1| && RegAt(c1, a, e, n, consts)
    ensures RegAt(c2, a, e, n, consts)
  {
    hide RegAt, RegSize;
    FrameReg(c1, c2, a, e, n, consts);
  }

  // --- Building a conditional ---

  // patch_jump: the distance to the end of the code, cut to 16 bits.
  function Repatched(code: seq<Instr>, offset: nat): (r: seq<Instr>)
    requires offset < |code|
    ensures |r| == |code| && forall i :: 0 <= i < |code| && i != offset ==> r[i] == code[i]
  {
    code[offset := Imm(code[offset].op, code[offset].rd, |code| - offset - 1)]
  }

  // c1 ends with the condition, c2 and c4 with the arms, each moved to the result register.
  lemma TernaryBuilt(c1: seq<Instr>, c2: seq<Instr>, c4: seq<Instr>, a: nat, e: Expr, n: byte, consts: seq<Value>)
    requires e.Ternary? && RegAt(c1, a, e.cond, n, consts) && |c1| == a + RegSize(e.cond)
    requires c1 + [Imm(ROP_JMP_UNLESS, Place(e.cond, n).reg, 0)] <= c2 && |c2| == |c1| + 1 + RegSize(e.thn) + 1
    requires Repatched(c2 + [Imm(ROP_JMP, 0, 0)], |c1|) <= c4 && |c4| == |c2| + 1 + RegSize(e.els) + 1
    requires var d, k1 := Temp(AfterCond(e.cond, n)), RegConsts(e.cond, consts);
             && RegAt(c2, |c1| + 1, e.thn, d.next, k1)
             && InstrAt(c2, |c2| - 1, Instr(ROP_MOV, d.reg, Place(e.thn, d.next).reg, 0))
             && RegAt(c4, |c2| + 1, e.els, AfterArm(e, n), RegConsts(e.thn, k1))
             && InstrAt(c4, |c4| - 1, Instr(ROP_MOV, d.reg, Place(e.els, AfterArm(e, n)).reg, 0))
    ensures var r := Repatched(c4, |c2|); RegAt(r, a, e, n, consts) && |r| == a + RegSize(e) && c1 <= r
  {
    hide RegAt, RegSize, RegConsts, Place, Temp, Freed, AfterCond;
    var d, k1, k := Temp(AfterCond(e.cond, n)), RegConsts(e.cond, consts), |c2|;
    var j := c2 + [Imm(ROP_JMP, 0, 0)];
    var c3, r := Repatched(j, |c1|), Repatched(c4, k);
    TernaryShape(r, a, e, n, consts);
    assert c2[|c1|] == (c1 + [Imm(ROP_JMP_UNLESS, Place(e.cond, n).reg, 0)])[|c1|];
    assert r[|c1|] == c4[|c1|] == c3[|c1|];
    assert c4[k] == c3[k] == j[k];
    assert forall i :: 0 <= i < |c1| ==> r[i] == c4[i] == c3[i] == c2[i] == c1[i];
    assert forall i :: |c1| < i < k ==> r[i] == c4[i] == c3[i] == c2[i];
    FrameReg(c1, r, a, e.cond, n, consts);
    FrameReg(c2, r, |c1| + 1, e.thn, d.next, k1);
    FrameReg(c4, r, k + 1, e.els, AfterArm(e, n), RegConsts(e.thn, k1));
  }

  // How many temporaries are in use when the second arm starts.
  function AfterArm(e: Expr, n: byte): byte
    requires e.Ternary?
  {
    var y := Place(e.thn, Temp(AfterCond(e.cond, n)).next);
    Freed(y.next, y.reg)
  }

  // --- What the compiler accepts ---

  predicate ConstsOk(e: Expr, consts: seq<Value>) {
    match e
    case Lit(v) => Immediate(v) || |consts| <= 0xFFFF
    case Ident(_) => |consts| <= 0xFFFF
    case Binary(_, l, r) => ConstsOk(l, consts) && ConstsOk(r, RegConsts(l, consts))
    case Unary(_, x) => ConstsOk(x, consts)
    case Ternary(c, t, f) =>
      var k1 := RegConsts(c, consts);
      ConstsOk(c, consts) && ConstsOk(t, k1) && ConstsOk(f, RegConsts(t, k1))
    case _ => true
  }

  class RegCompiler {
    var code: seq<Instr>
    var consts: seq<Value>
    var tempCount: byte
    var maxUsed: byte
    var hadError: bool

    // Every register handed out so far is at most maxUsed.
    ghost predicate Valid()
      reads this
    {
      tempCount > 0 ==> tempCount - 1 <= maxUsed
    }

    constructor ()
      ensures Valid() && code == [] && consts == [] && tempCount == 0 && !hadError
    {
      code, consts, tempCount, maxUsed, hadError := [], [], 0, 0, false;
    }

    method NewResult() returns (reg: byte)
      requires Valid()
      modifies `tempCount, `maxUsed
      ensures Valid() && reg == Temp(old(tempCount)).reg && tempCount == Temp(old(tempCount)).next
      ensures maxUsed == if old(maxUsed) < old(tempCount) then old(tempCount) else old(maxUsed)
    {
      reg := tempCount;
      tempCount := if tempCount == REG_MAX - 1 then 0 else tempCount + 1;
      if reg > maxUsed {
        maxUsed := reg;
      }
    }

    // Give the register back if it is a temporary; only the last one is.
    method Release(reg: byte)
      requires Valid()
      modifies `tempCount
      ensures Valid() && tempCount == Freed(old(tempCount), reg)
    {
      if reg < tempCount {
        if tempCount > 0 && reg == tempCount - 1 {
          tempCount := tempCount - 1;
        }
      }
    }

    method Emit(i: Instr)
      modifies `code
      ensures code == old(code) + [i]
    {
      code := code + [i];
    }

    method EmitJump(op: byte, cond: byte) returns (offset: nat)
      modifies `code
      ensures code == old(code) + [Imm(op, cond, 0)] && offset == |old(code)|
    {
      offset := |code|;
      Emit(Imm(op, cond, 0));
    }

    method PatchJump(offset: nat)
      requires offset < |code|
      modifies `code
      ensures code == Repatched(old(code), offset)
    {
      var jump := |code| - offset - 1;
      code := code[offset := code[offset].(rs1 := jump / 256 % 256)];
      code := code[offset := code[offset].(rs2 := jump % 256)];
    }

    method AddConstant(v: Value) returns (index: nat)
      modifies `consts, `hadError
      ensures consts == old(consts) + [v]
      ensures hadError <==> old(hadError) || |old(consts)| > 0xFFFF
      ensures |old(consts)| <= 0xFFFF ==> index == |old(consts)|
    {
      index := |consts|;
      consts := consts + [v];
      if index > 0xFFFF {
        hadError := true;
        index := 0;
      }
    }

    // What compiling `e` leaves behind.
    twostate predicate Emitted(e: Expr, reg: byte)
      reads this
    {
      && old(code) <= code && |code| == |old(code)| + RegSize(e)
      && consts == RegConsts(e, old(consts))
      && Spot(reg, tempCount) == Place(e, old(tempCount))
      && (hadError <==> old(hadError) || !ConstsOk(e, old(consts)))
      && (!hadError ==> RegAt(code, |old(code)|, e, old(tempCount), old(consts)))
    }

    method CompileLeaf(e: Expr) returns (reg: byte)
      requires Valid() && (e.Lit? || e.Ident?)
      modifies this
      ensures Valid() && Emitted(e, reg)
    {
      hide Imm;
      reg := NewResult();
      if e.Ident? {
        var index := AddConstant(Str(e.name));
        Emit(Imm(ROP_GET_GLOBAL, reg, index));
      } else {
        if e.v.Nil? {
          Emit(Instr(ROP_LOAD_NIL, reg, 0, 0));
        } else if e.v.Bool? {
          Emit(Instr(if e.v.b then ROP_LOAD_TRUE else ROP_LOAD_FALSE, reg, 0, 0));
        } else if e.v.Int? && -32768 <= e.v.i <= 32767 {
          Emit(Imm(ROP_LOAD_INT, reg, e.v.i));
        } else {
          var index := AddConstant(e.v);
          Emit(Imm(ROP_LOAD_K, reg, index));
        }
      }
    }

    method CompileBinary(e: Expr) returns (reg: byte)
      requires Valid() && e.Binary? && Simple(e)
      modifies this
      ensures Valid() && Emitted(e, reg)
      decreases e, 0
    {
      hide RegAt, RegSize, RegConsts, ConstsOk, Place, Temp, Freed, InstrAt, RegBin, Simple;
      ghost var n, k0 := tempCount, consts;
      BinaryOpened(e, n, k0);
      var left := CompileExpr(e.left);
      ghost var c1 := code;
      var right := CompileExpr(e.right);
      ghost var c2 := code;
      reg := NewResult();
      Emit(Instr(RegBin(e.op), reg, left, right));
      Release(right);
      Release(left);
      if !hadError {
        PrefixCode(c1, code, |old(code)|, e.left, n, k0);
        PrefixCode(c2, code, |c1|, e.right, Place(e.left, n).next, RegConsts(e.left, k0));
        LastInstr(c2, Instr(RegBin(e.op), reg, left, right));
        BinaryShape(code, |old(code)|, e, n, k0);
      }
    }

    method CompileUnary(e: Expr) returns (reg: byte)
      requires Valid() && e.Unary? && Simple(e)
      modifies this
      ensures Valid() && Emitted(e, reg)
      decreases e, 0
    {
      hide InstrAt, RegUn;
      var operand := CompileExpr(e.operand);
      ghost var c1 := code;
      reg := NewResult();
      Emit(Instr(RegUn(e.uop), reg, operand, 0));
      Release(operand);
      if !hadError {
        PrefixCode(c1, code, |old(code)|, e.operand, old(tempCount), old(consts));
        LastInstr(c1, Instr(RegUn(e.uop), reg, operand, 0));
      }
    }

    // An arm of a conditional: compile it, move its value to the result register, give its own back.
    method CompileArm(e: Expr, rd: byte)
      requires Valid() && Simple(e)
      modifies this
      ensures Valid() && old(code) <= code && |code| == |old(code)| + RegSize(e) + 1
      ensures consts == RegConsts(e, old(consts)) && (hadError <==> old(hadError) || !ConstsOk(e, old(consts)))
      ensures var s := Place(e, old(tempCount));
              && tempCount == Freed(s.next, s.reg)
              && InstrAt(code, |code| - 1, Instr(ROP_MOV, rd, s.reg, 0))
      ensures !hadError ==> RegAt(code, |old(code)|, e, old(tempCount), old(consts))
      decreases e, 2
    {
      hide RegAt, RegSize, RegConsts, ConstsOk, Place, Freed, Simple;
      var val := CompileExpr(e);
      ghost var c1 := code;
      Emit(Instr(ROP_MOV, rd, val, 0));
      Release(val);
      if !hadError {
        PrefixCode(c1, code, |old(code)|, e, old(tempCount), old(consts));
      }
    }

    method CompileTernary(e: Expr) returns (reg: byte)
      requires Valid() && e.Ternary? && Simple(e)
      modifies this
      ensures Valid() && Emitted(e, reg)
      decreases e, 0
    {
      hide RegAt, RegSize, RegConsts, ConstsOk, Place, Temp, Freed, InstrAt, Simple, Imm, Repatched, AfterCond, AfterArm;
      ghost var n, k0, a := tempCount, consts, |code|;
      TernaryOpened(e, n, k0);
      ArmsOpened(e, n);
      var cond := CompileExpr(e.cond);
      ghost var c1 := code;
      var elseJump := EmitJump(ROP_JMP_UNLESS, cond);
      Release(cond);
      reg := NewResult();
      CompileArm(e.thn, reg);
      ghost var c2 := code;
      var endJump := EmitJump(ROP_JMP, 0);
      PatchJump(elseJump);
      CompileArm(e.els, reg);
      ghost var c4 := code;
      PatchJump(endJump);
      if !hadError {
        TernaryBuilt(c1, c2, c4, a, e, n, k0);
      }
    }

    method CompileExpr(e: Expr) returns (reg: byte)
      requires Valid() && Simple(e)
      modifies this
      ensures Valid() && Emitted(e, reg)
      decreases e, 1
    {
      if e.Binary? {
        reg := CompileBinary(e);
      } else if e.Unary? {
        reg := CompileUnary(e);
      } else if e.Ternary? {
        reg := CompileTernary(e);
      } else {
        reg := CompileLeaf(e);
      }
    }
  }

  lemma LastInstr(code: seq<Instr>, i: Instr)
    ensures InstrAt(code + [i], |code|, i)
  {
  }

  lemma BinaryOpened(e: Expr, n: byte, consts: seq<Value>)
    requires e.Binary?
    ensures Simple(e) ==> Simple(e.left) && Simple(e.right)
    ensures var x := Place(e.left, n);
            var y := Place(e.right, x.next);
            Place(e, n) == Spot(Temp(y.next).reg, Freed(Freed(Temp(y.next).next, y.reg), x.reg))
    ensures RegConsts(e, consts) == RegConsts(e.right, RegConsts(e.left, consts))
    ensures RegSize(e) == RegSize(e.left) + RegSize(e.right) + 1
    ensures ConstsOk(e, consts) <==> ConstsOk(e.left, consts) && ConstsOk(e.right, RegConsts(e.left, consts))
  {
    hide Temp, Freed;
  }

  lemma TernaryOpened(e: Expr, n: byte, consts: seq<Value>)
    requires e.Ternary?
    ensures Simple(e) ==> Simple(e.cond) && Simple(e.thn) && Simple(e.els)
    ensures var d, z := Temp(AfterCond(e.cond, n)), Place(e.els, AfterArm(e, n));
            Place(e, n) == Spot(d.reg, Freed(z.next, z.reg))
    ensures RegSize(e) == RegSize(e.cond) + 1 + RegSize(e.thn) + 2 + RegSize(e.els) + 1
    ensures var k1 := RegConsts(e.cond, consts);
            var k2 := RegConsts(e.thn, k1);
            && RegConsts(e, consts) == RegConsts(e.els, k2)
            && (ConstsOk(e, consts) <==> ConstsOk(e.cond, consts) && ConstsOk(e.thn, k1) && ConstsOk(e.els, k2))
  {
    hide Temp, Freed, AfterCond;
  }

  lemma ArmsOpened(e: Expr, n: byte)
    requires e.Ternary?
    ensures AfterCond(e.cond, n) == Freed(Place(e.cond, n).next, Place(e.cond, n).reg)
    ensures var y := Place(e.thn, Temp(AfterCond(e.cond, n)).next); AfterArm(e, n) == Freed(y.next, y.reg)
  {
  }

  // regcompile_expr: no code exactly if there are too many constants, otherwise code that leaves the
  // value in r0 and returns it.
  method CompileExpression(e: Expr) returns (r: Option<RegProg>)
    requires Simple(e)
    ensures r.None? <==> !ConstsOk(e, [])
    ensures r.Some? ==> ExprProgAt(r.value.code, e) && r.value.consts == RegConsts(e, [])
  {
    hide RegAt, RegSize, RegConsts, ConstsOk, Place, Simple;
    var c := new RegCompiler();
    var result := c.CompileExpr(e);
    ghost var c1 := c.code;
    if result != 0 {
      c.Emit(Instr(ROP_MOV, 0, result, 0));
    }
    c.Emit(Instr(ROP_RET, 0, 0, 0));
    if !c.hadError {
      PrefixCode(c1, c.code, 0, e, 0, []);
    }
    r := if c.hadError then None else Some(RegProg(c.code, c.consts));
  }
}
