/** When the register compiler overwrites an operand: exactly the shapes of expressions for which it does
    not are compiled right whatever their leaves are, and the flat sums for which it does.
 */
module RegClobber {
  import opened Ast
  import opened RegCode
  import opened RegExpr

  // --- Shapes ---

  // The same expression but for its literals and names.
  predicate SameShape(e: Expr, f: Expr)
    decreases e
  {
    match e
    case Binary(op, l, r) => f.Binary? && f.op == op && SameShape(l, f.left) && SameShape(r, f.right)
    case Unary(op, x) => f.Unary? && f.uop == op && SameShape(x, f.operand)
    case Ternary(c, t, g) => f.Ternary? && SameShape(c, f.cond) && SameShape(t, f.thn) && SameShape(g, f.els)
    case _ => (e.Lit? || e.Ident?) && (f.Lit? || f.Ident?)
  }

  // Registers are allotted by shape.
  lemma {:induction false} ShapePlaces(e: Expr, f: Expr, n: byte)
    requires SameShape(e, f)
    ensures Simple(e) && Simple(f) && Place(e, n) == Place(f, n) && Writes(e, n) == Writes(f, n)
    ensures NoClobber(e, n) == NoClobber(f, n) && RegSize(e) == RegSize(f)
    decreases e
  {
    match e
    case Binary(_, l, r) =>
      ShapePlaces(l, f.left, n);
      ShapePlaces(r, f.right, Place(l, n).next);
    case Unary(_, x) => ShapePlaces(x, f.operand, n);
    case Ternary(c, t, g) =>
      ShapePlaces(c, f.cond, n);
      var d := Temp(AfterCond(c, n));
      ShapePlaces(t, f.thn, d.next);
      var y := Place(t, d.next);
      ShapePlaces(g, f.els, Freed(y.next, y.reg));
    case _ =>
  }

  // --- Bits ---

  function Bit(b: bool): Value {
    Int(if b then 1 else 0)
  }

  predicate On(v: Value) {
    v == Int(1)
  }

  // Every operator as the "or" of two bits.
  const BITS: Prims := Prims((op, x, y) => Some(Bit(On(x) || On(y))), (op, x) => Some(Bit(On(x))), x => On(x))

  // All leaves the same bit.
  function Paint(e: Expr, b: bool): Expr {
    match e
    case Binary(op, l, r) => Binary(op, Paint(l, b), Paint(r, b))
    case Unary(op, x) => Unary(op, Paint(x, b))
    case Ternary(c, t, f) => Ternary(Paint(c, b), Paint(t, b), Paint(f, b))
    case _ => Lit(Bit(b))
  }

  // The value of the expression and what its code does to the registers, for bits as leaves.
  ghost predicate Known(q: Expr, n: byte, v: bool, w: Writing, g: map<string, Value>) {
    Simple(q) && Value1(BITS, q, g) == Some(Bit(v)) && Effect(BITS, q, n, g) == Some(w) && RegConsts(q, []) == []
  }

  lemma KnownLeaf(b: bool, n: byte, g: map<string, Value>)
    ensures Known(Lit(Bit(b)), n, b, map[Temp(n).reg := Bit(b)], g) && Place(Lit(Bit(b)), n).reg == Temp(n).reg
  {
  }

  lemma KnownReg(q: Expr, n: byte, v: bool, w: Writing, g: map<string, Value>)
    requires Known(q, n, v, w, g)
    ensures Simple(q) && Place(q, n).reg in w && w.Keys <= Writes(q, n)
  {
    hide Place, Writes, Value1;
    EffectWrites(BITS, q, n, g);
  }

  lemma KnownBinary(op: BinOp, l: Expr, r: Expr, n: byte, vl: bool, a: Writing, vr: bool, b: Writing, g: map<string, Value>)
    requires Known(l, n, vl, a, g) && Known(r, Place(l, n).next, vr, b, g)
    ensures var x, q := Place(l, n), Binary(op, l, r);
            var y, w := Place(r, x.next), a + b;
            && x.reg in w && y.reg in w
            && Known(q, n, vl || vr, w[Place(q, n).reg := Bit(On(w[x.reg]) || On(w[y.reg]))], g)
  {
    hide Value1, Effect, Temp, Freed;
    var q := Binary(op, l, r);
    BinaryValue(BITS, q, g);
    BinaryEffect(BITS, q, n, g);
  }

  lemma KnownUnary(op: UnOp, x: Expr, n: byte, v: bool, a: Writing, g: map<string, Value>)
    requires Known(x, n, v, a, g)
    ensures var q, rx := Unary(op, x), Place(x, n).reg;
            rx in a && Known(q, n, v, a[Place(q, n).reg := Bit(On(a[rx]))], g)
  {
    hide Value1, Effect, Temp, Freed;
    var q := Unary(op, x);
    UnaryValue(BITS, q, g);
    UnaryEffect(BITS, q, n, g);
  }

  lemma KnownTernary(q: Expr, n: byte, vc: bool, a: Writing, vt: bool, bt: Writing, vf: bool, bf: Writing, g: map<string, Value>)
    requires q.Ternary? && Known(q.cond, n, vc, a, g)
    requires var d := Temp(AfterCond(q.cond, n));
             var y := Place(q.thn, d.next);
             Known(q.thn, d.next, vt, bt, g) && Known(q.els, Freed(y.next, y.reg), vf, bf, g)
    ensures var d, rc := Temp(AfterCond(q.cond, n)), Place(q.cond, n).reg;
            var y := Place(q.thn, d.next);
            var z := Place(q.els, Freed(y.next, y.reg));
            && rc in a && y.reg in bt && z.reg in bf && Place(q, n).reg == d.reg
            && Known(q, n, if vc then vt else vf,
                     if On(a[rc]) then (a + bt)[d.reg := bt[y.reg]] else (a + bf)[d.reg := bf[z.reg]], g)
  {
    hide Value1, Effect, Temp, Freed, AfterCond;
    TernaryValue(BITS, q, g);
    TernaryEffect(BITS, q, n, g);
  }

  // What the allocation of a compound expression says, opened once.
  lemma BinaryOpened(e: Expr, n: byte)
    requires e.Binary? && Simple(e)
    ensures Simple(e.left) && Simple(e.right)
    ensures var x := Place(e.left, n);
            && Writes(e, n) == Writes(e.left, n) + Writes(e.right, x.next) + {Place(e, n).reg}
            && (NoClobber(e, n) <==> NoClobber(e.left, n) && NoClobber(e.right, x.next) && x.reg !in Writes(e.right, x.next))
  {
    hide Temp, Freed;
  }

  lemma TernaryOpened(e: Expr, n: byte)
    requires e.Ternary? && Simple(e)
    ensures Simple(e.cond) && Simple(e.thn) && Simple(e.els)
    ensures var d := Temp(AfterCond(e.cond, n));
            var y := Place(e.thn, d.next);
            var m := Freed(y.next, y.reg);
            && Place(e, n).reg == d.reg
            && Writes(e, n) == Writes(e.cond, n) + Writes(e.thn, d.next) + Writes(e.els, m) + {d.reg}
            && (NoClobber(e, n) <==> NoClobber(e.cond, n) && NoClobber(e.thn, d.next) && NoClobber(e.els, m))
  {
    hide Temp, Freed, AfterCond;
  }

  // Where all leaves are the same, all values are, so nothing that is overwritten is lost.
  ghost predicate AllSame(w: Writing, b: bool) {
    forall i :: i in w ==> w[i] == Bit(b)
  }

  lemma {:induction false} PaintFacts(e: Expr, b: bool, n: byte, g: map<string, Value>) returns (w: Writing)
    requires Simple(e)
    ensures SameShape(e, Paint(e, b)) && Known(Paint(e, b), n, b, w, g) && AllSame(w, b)
    decreases e
  {
    hide Known, Place, Freed, AfterCond, Effect, Value1;
    var q := Paint(e, b);
    if e.Binary? {
      var a := PaintFacts(e.left, b, n, g);
      var c := PaintFacts(e.right, b, Place(q.left, n).next, g);
      KnownBinary(e.op, q.left, q.right, n, b, a, b, c, g);
      w := (a + c)[Place(q, n).reg := Bit(b)];
    } else if e.Unary? {
      var a := PaintFacts(e.operand, b, n, g);
      KnownUnary(e.uop, q.operand, n, b, a, g);
      w := a[Place(q, n).reg := Bit(b)];
    } else if e.Ternary? {
      var d := Temp(AfterCond(q.cond, n));
      var y := Place(q.thn, d.next);
      var a := PaintFacts(e.cond, b, n, g);
      var bt := PaintFacts(e.thn, b, d.next, g);
      var bf := PaintFacts(e.els, b, Freed(y.next, y.reg), g);
      KnownTernary(q, n, b, a, b, bt, b, bf, g);
      w := (if b then a + bt else a + bf)[d.reg := Bit(b)];
    } else {
      KnownLeaf(b, n, g);
      w := map[Temp(n).reg := Bit(b)];
    }
  }

  // A painted part of an expression, placed as the part is.
  lemma Painted(e: Expr, b: bool, n: byte, g: map<string, Value>) returns (q: Expr, w: Writing)
    requires Simple(e)
    ensures q == Paint(e, b) && SameShape(e, q) && Known(q, n, b, w, g) && AllSame(w, b)
    ensures Place(q, n) == Place(e, n) && Place(q, n).reg in w && w[Place(q, n).reg] == Bit(b)
  {
    hide Known, Place, Paint;
    q := Paint(e, b);
    w := PaintFacts(e, b, n, g);
    ShapePlaces(e, q, n);
    KnownReg(q, n, b, w, g);
  }

  // --- A register that may be written is written for some leaves ---

  // The same shape, with bits as leaves and the value zero, whose code writes the register.
  ghost predicate Steered(e: Expr, q: Expr, n: byte, reg: byte, w: Writing, g: map<string, Value>) {
    SameShape(e, q) && Known(q, n, false, w, g) && reg in w && Place(q, n) == Place(e, n)
  }

  lemma {:induction false} Steer(e: Expr, n: byte, reg: byte, g: map<string, Value>) returns (q: Expr, w: Writing)
    requires Simple(e) && reg in Writes(e, n)
    ensures Steered(e, q, n, reg, w, g)
    decreases e
  {
    if reg == Place(e, n).reg {
      q, w := Painted(e, false, n, g);
    } else {
      match e
      case Binary(_, _, _) => q, w := SteerBinary(e, n, reg, g);
      case Unary(op, x) => q, w := SteerUnary(e, n, reg, g);
      case Ternary(_, _, _) => q, w := SteerTernary(e, n, reg, g);
    }
  }

  lemma SteerUnary(e: Expr, n: byte, reg: byte, g: map<string, Value>) returns (q: Expr, w: Writing)
    requires Simple(e) && e.Unary? && reg in Writes(e, n) && reg != Place(e, n).reg
    ensures Steered(e, q, n, reg, w, g)
    decreases e, 0
  {
    hide Known;
    var p, a := Steer(e.operand, n, reg, g);
    q := Unary(e.uop, p);
    KnownUnary(e.uop, p, n, false, a, g);
    w := a[Place(q, n).reg := Bit(On(a[Place(p, n).reg]))];
  }

  lemma SteerBinary(e: Expr, n: byte, reg: byte, g: map<string, Value>) returns (q: Expr, w: Writing)
    requires Simple(e) && e.Binary? && reg in Writes(e, n) && reg != Place(e, n).reg
    ensures Steered(e, q, n, reg, w, g)
    decreases e, 0
  {
    hide Known, Place, Writes, NoClobber, Paint;
    BinaryOpened(e, n);
    var x := Place(e.left, n);
    var p, r, a, b;
    if reg in Writes(e.left, n) {
      p, a := Steer(e.left, n, reg, g);
      r, b := Painted(e.right, false, x.next, g);
    } else {
      p, a := Painted(e.left, false, n, g);
      r, b := Steer(e.right, x.next, reg, g);
    }
    q := Binary(e.op, p, r);
    KnownBinary(e.op, p, r, n, false, a, false, b, g);
    ShapePlaces(e, q, n);
    w := (a + b)[Place(q, n).reg := Bit(On((a + b)[x.reg]) || On((a + b)[Place(r, x.next).reg]))];
  }

  lemma SteerTernary(e: Expr, n: byte, reg: byte, g: map<string, Value>) returns (q: Expr, w: Writing)
    requires Simple(e) && e.Ternary? && reg in Writes(e, n) && reg != Place(e, n).reg
    ensures Steered(e, q, n, reg, w, g)
    decreases e, 0
  {
    hide Known, Place, Writes, NoClobber, Paint, Freed, AfterCond, Temp;
    TernaryOpened(e, n);
    var d := Temp(AfterCond(e.cond, n));
    var y := Place(e.thn, d.next);
    var m := Freed(y.next, y.reg);
    var c, a, vc;
    var t, bt := Painted(e.thn, false, d.next, g);
    var f, bf := Painted(e.els, false, m, g);
    if reg in Writes(e.cond, n) {
      c, a := Steer(e.cond, n, reg, g);
      vc := false;
    } else if reg in Writes(e.thn, d.next) {
      c, a := Painted(e.cond, true, n, g);
      t, bt := Steer(e.thn, d.next, reg, g);
      vc := true;
    } else {
      c, a := Painted(e.cond, false, n, g);
      f, bf := Steer(e.els, m, reg, g);
      vc := false;
    }
    q := Ternary(c, t, f);
    AfterCondSame(e.cond, c, n);
    KnownTernary(q, n, vc, a, false, bt, false, bf, g);
    ShapePlaces(e, q, n);
    w := if On(a[Place(c, n).reg]) then (a + bt)[d.reg := bt[y.reg]] else (a + bf)[d.reg := bf[Place(f, m).reg]];
  }

  lemma AfterCondSame(c: Expr, q: Expr, n: byte)
    requires Place(c, n) == Place(q, n)
    ensures AfterCond(c, n) == AfterCond(q, n)
  {
  }

  // --- An operand that may be overwritten makes the value wrong for some leaves ---

  // The same shape with bits as leaves, whose value is b while the code computes the other bit.
  ghost predicate Fails(e: Expr, q: Expr, n: byte, b: bool, w: Writing, g: map<string, Value>) {
    && SameShape(e, q) && Known(q, n, b, w, g) && Place(q, n) == Place(e, n)
    && Place(q, n).reg in w && w[Place(q, n).reg] == Bit(!b)
  }

  lemma {:induction false} Clobbered(e: Expr, n: byte, g: map<string, Value>) returns (q: Expr, b: bool, w: Writing)
    requires Simple(e) && !NoClobber(e, n)
    ensures Fails(e, q, n, b, w, g)
    decreases e
  {
    match e
    case Binary(_, _, _) => q, b, w := ClobberedBinary(e, n, g);
    case Unary(_, _) => q, b, w := ClobberedUnary(e, n, g);
    case Ternary(_, _, _) => q, b, w := ClobberedTernary(e, n, g);
  }

  lemma ClobberedUnary(e: Expr, n: byte, g: map<string, Value>) returns (q: Expr, b: bool, w: Writing)
    requires Simple(e) && e.Unary? && !NoClobber(e, n)
    ensures Fails(e, q, n, b, w, g)
    decreases e, 0
  {
    hide Known;
    var p, a;
    p, b, a := Clobbered(e.operand, n, g);
    q := Unary(e.uop, p);
    KnownUnary(e.uop, p, n, b, a, g);
    w := a[Place(q, n).reg := Bit(On(a[Place(p, n).reg]))];
  }

  lemma ClobberedBinary(e: Expr, n: byte, g: map<string, Value>) returns (q: Expr, b: bool, w: Writing)
    requires Simple(e) && e.Binary? && !NoClobber(e, n)
    ensures Fails(e, q, n, b, w, g)
    decreases e, 0
  {
    hide Known, Place, Writes, NoClobber, Paint;
    BinaryOpened(e, n);
    var x := Place(e.left, n);
    if x.reg in Writes(e.right, x.next) {
      q, b, w := Overwritten(e, n, g);
    } else {
      var p, r, a, c, vl, vr;
      if !NoClobber(e.left, n) {
        p, b, a := Clobbered(e.left, n, g);
        r, c := Painted(e.right, false, x.next, g);
        vl, vr := b, false;
      } else {
        p, a := Painted(e.left, false, n, g);
        r, b, c := Clobbered(e.right, x.next, g);
        vl, vr := false, b;
      }
      ShapePlaces(e.right, r, x.next);
      KnownReg(r, x.next, vr, c, g);
      q := Binary(e.op, p, r);
      KnownBinary(e.op, p, r, n, vl, a, vr, c, g);
      ShapePlaces(e, q, n);
      w := (a + c)[Place(q, n).reg := Bit(On((a + c)[x.reg]) || On((a + c)[Place(r, x.next).reg]))];
      assert (a + c)[x.reg] == a[x.reg];
    }
  }

  // The left operand is overwritten by something in the right one: choose its bit to be the other one.
  lemma Overwritten(e: Expr, n: byte, g: map<string, Value>) returns (q: Expr, b: bool, w: Writing)
    requires Simple(e) && e.Binary? && var x := Place(e.left, n); x.reg in Writes(e.right, x.next)
    ensures Fails(e, q, n, b, w, g)
  {
    hide Known, Place, Writes, NoClobber, Paint;
    BinaryOpened(e, n);
    var x := Place(e.left, n);
    var r, c := Steer(e.right, x.next, x.reg, g);
    KnownReg(r, x.next, false, c, g);
    b := !On(c[x.reg]) && !On(c[Place(r, x.next).reg]);
    var p, a := Painted(e.left, b, n, g);
    q := Binary(e.op, p, r);
    KnownBinary(e.op, p, r, n, b, a, false, c, g);
    ShapePlaces(e, q, n);
    w := (a + c)[Place(q, n).reg := Bit(!b)];
  }

  lemma ClobberedTernary(e: Expr, n: byte, g: map<string, Value>) returns (q: Expr, b: bool, w: Writing)
    requires Simple(e) && e.Ternary? && !NoClobber(e, n)
    ensures Fails(e, q, n, b, w, g)
    decreases e, 0
  {
    hide Known, Place, Writes, NoClobber, Paint, Freed, AfterCond, Temp;
    TernaryOpened(e, n);
    var d := Temp(AfterCond(e.cond, n));
    var y := Place(e.thn, d.next);
    var m := Freed(y.next, y.reg);
    var c, a, vc;
    var t, bt := Painted(e.thn, true, d.next, g);
    var f, bf := Painted(e.els, false, m, g);
    var vt, vf := true, false;
    if !NoClobber(e.cond, n) {
      c, b, a := Clobbered(e.cond, n, g);
      vc := b;
    } else if !NoClobber(e.thn, d.next) {
      c, a := Painted(e.cond, true, n, g);
      t, b, bt := Clobbered(e.thn, d.next, g);
      vc, vt := true, b;
    } else {
      c, a := Painted(e.cond, false, n, g);
      f, b, bf := Clobbered(e.els, m, g);
      vc, vf := false, b;
    }
    q := Ternary(c, t, f);
    AfterCondSame(e.cond, c, n);
    KnownTernary(q, n, vc, a, vt, bt, vf, bf, g);
    ShapePlaces(e, q, n);
    w := if On(a[Place(c, n).reg]) then (a + bt)[d.reg := bt[y.reg]] else (a + bf)[d.reg := bf[Place(f, m).reg]];
  }

  // The code of a shape computes the value of every expression of that shape, whatever the operators mean
  // and the globals hold, if and only if no operand is overwritten.
  lemma RegistersExact(e: Expr, n: byte)
    requires Simple(e)
    ensures NoClobber(e, n) <==> forall p, q, g {:trigger Computes(p, q, n, g)} :: SameShape(e, q) && Simple(q) ==> Computes(p, q, n, g)
  {
    if NoClobber(e, n) {
      forall p, q, g | SameShape(e, q) && Simple(q) ensures Computes(p, q, n, g) {
        ShapePlaces(e, q, n);
        NoClobberComputes(p, q, n, g);
      }
    } else {
      var q, b, w := Clobbered(e, n, map[]);
      assert !Computes(BITS, q, n, map[]);
    }
  }

  // --- Sums of integers ---

  // vs[0] + vs[1] + ..., as it is parsed.
  function Sum(vs: seq<int>): Expr
    requires vs != []
    decreases |vs|
  {
    var k := |vs| - 1;
    if k == 0 then Lit(Int(vs[0])) else Binary(Add, Sum(vs[..k]), Lit(Int(vs[k])))
  }

  function SumOf(vs: seq<int>): int
    decreases |vs|
  {
    if vs == [] then 0 else SumOf(vs[..|vs| - 1]) + vs[|vs| - 1]
  }

  // Two registers on, nothing before them is freed.
  lemma LeakTwo(a: nat)
    requires a > 0
    ensures Temp(a % REG_MAX) == Spot(a % REG_MAX, (a + 1) % REG_MAX) && Temp((a + 1) % REG_MAX) == Spot((a + 1) % REG_MAX, (a + 2) % REG_MAX)
    ensures Freed(Freed((a + 2) % REG_MAX, a % REG_MAX), (a - 1) % REG_MAX) == (a + 2) % REG_MAX
    ensures (a - 1) % REG_MAX != a % REG_MAX
  {
  }

  // Each + leaks a register, and after 256 of them the same registers come round again.
  lemma {:induction false} SumPlace(vs: seq<int>, n: byte)
    requires vs != []
    ensures Simple(Sum(vs)) && Place(Sum(vs), n) == Spot((n + 2 * |vs| - 2) % REG_MAX, (n + 2 * |vs| - 1) % REG_MAX)
    decreases |vs|
  {
    var k := |vs| - 1;
    if k > 0 {
      SumPlace(vs[..k], n);
      LeakTwo(n + 2 * k - 1);
      hide Temp, Freed;
    }
  }

  // A sum without parentheses only needs its last three registers, so it is right however long it is.
  lemma {:induction false} SumNoClobber(vs: seq<int>, n: byte)
    requires vs != []
    ensures NoClobber(Sum(vs), n)
    decreases |vs|
  {
    var k := |vs| - 1;
    if k > 0 {
      SumPlace(vs[..k], n);
      SumNoClobber(vs[..k], n);
      var x := Place(Sum(vs[..k]), n);
      LeakTwo(n + 2 * k - 1);
      assert Writes(Lit(Int(vs[k])), x.next) == {x.next};
      hide Place, Writes, Temp, Freed;
    }
  }

  // With r0 taken, the terms go to the even registers.
  lemma SumParts(vs: seq<int>)
    requires |vs| > 1
    ensures var k := |vs| - 1; var l := Sum(vs[..k]);
            && Simple(l) && Sum(vs) == Binary(Add, l, Lit(Int(vs[k])))
            && Place(l, 1).next == (2 * k) % REG_MAX && Place(Sum(vs), 1).reg == (2 * k + 1) % REG_MAX
  {
    hide Place, Temp, Freed;
    var k := |vs| - 1;
    SumPlace(vs, 1);
    SumPlace(vs[..k], 1);
  }

  lemma EvenTerms(k: nat)
    ensures ((2 * k) % REG_MAX == 0 <==> k % 128 == 0) && (2 * k + 1) % REG_MAX != 0
  {
    assert k == k / 128 * 128 + k % 128;
  }

  lemma {:induction false} SumWrites(vs: seq<int>)
    requires vs != []
    ensures 0 in Writes(Sum(vs), 1) <==> |vs| > 128
    decreases |vs|
  {
    var k := |vs| - 1;
    if k > 0 {
      SumParts(vs);
      EvenTerms(k);
      SumWrites(vs[..k]);
      assert forall n: byte :: Writes(Lit(Int(vs[k])), n) == {n};
      hide Sum, Place, Writes;
      BinaryOpened(Binary(Add, Sum(vs[..k]), Lit(Int(vs[k]))), 1);
    }
  }

  // v + (vs[0] + vs[1] + ...): v waits in r0.
  function Late(v: int, vs: seq<int>): Expr
    requires vs != []
  {
    Binary(Add, Lit(Int(v)), Sum(vs))
  }

  // With more than 128 terms in the parentheses, v is lost.
  lemma LateClobbers(v: int, vs: seq<int>)
    requires vs != []
    ensures Simple(Late(v, vs)) && (NoClobber(Late(v, vs), 0) <==> |vs| <= 128)
  {
    SumPlace(vs, 1);
    SumNoClobber(vs, 1);
    SumWrites(vs);
    assert Place(Lit(Int(v)), 0) == Spot(0, 1);
    hide Sum, Writes, Place;
    BinaryOpened(Late(v, vs), 0);
  }

  // The term that ends up in r0.
  function Thrown(vs: seq<int>): (v: int)
    requires |vs| > 128
  {
    vs[(|vs| - 1) / 128 * 128]
  }

  lemma {:induction false} SumThrows(p: Prims, vs: seq<int>, g: map<string, Value>)
    requires |vs| > 128
    ensures Simple(Sum(vs))
    ensures var r := Effect(p, Sum(vs), 1, g); r.Some? ==> 0 in r.value && r.value[0] == Int(Thrown(vs))
    decreases |vs|
  {
    var k := |vs| - 1;
    SumParts(vs);
    EvenTerms(k);
    if k % 128 != 0 {
      SumThrows(p, vs[..k], g);
      assert Thrown(vs) == Thrown(vs[..k]) by {
        assert (k - 1) / 128 == k / 128;
      }
    } else {
      assert Thrown(vs) == vs[k];
    }
    hide Thrown;
    LastTerm(p, Sum(vs[..k]), vs[k], (2 * k) % REG_MAX, g);
  }

  // What r0 holds after one term more.
  lemma LastTerm(p: Prims, l: Expr, v: int, n: byte, g: map<string, Value>)
    requires Simple(l) && Place(l, 1).next == n
    ensures var e := Binary(Add, l, Lit(Int(v)));
            var a, r := Effect(p, l, 1, g), Effect(p, e, 1, g);
            && Simple(e) && (r.Some? ==> a.Some?)
            && (r.Some? && Place(e, 1).reg != 0 && n == 0 ==> 0 in r.value && r.value[0] == Int(v))
            && (r.Some? && Place(e, 1).reg != 0 && n != 0 && 0 in a.value ==> 0 in r.value && r.value[0] == a.value[0])
  {
    assert Effect(p, Lit(Int(v)), n, g) == Some(map[n := Int(v)]);
    hide Place, Effect, Temp, Freed;
    BinaryEffect(p, Binary(Add, l, Lit(Int(v))), 1, g);
  }

  // The condition is about shapes, because a lost operand may happen to be equal to what took its place.
  lemma EqualOperands(p: Prims, v: int, vs: seq<int>, g: map<string, Value>)
    requires |vs| > 128 && Thrown(vs) == v
    ensures Simple(Late(v, vs)) && !NoClobber(Late(v, vs), 0) && Computes(p, Late(v, vs), 0, g)
  {
    LateClobbers(v, vs);
    LateEffect(p, v, vs, g);
    hide Late, Effect, Value1, NoClobber, Thrown;
  }

  // Any other time it is the wrong number that is added to the sum.
  lemma LateEffect(p: Prims, v: int, vs: seq<int>, g: map<string, Value>)
    requires |vs| > 128
    ensures Simple(Sum(vs)) && Simple(Late(v, vs))
    ensures var s := Value1(p, Sum(vs), g);
            var sum := if s.None? then None else p.bin(Add, Int(v), s.value);
            var r := if s.None? then None else p.bin(Add, Int(Thrown(vs)), s.value);
            var w := Effect(p, Late(v, vs), 0, g);
            && Value1(p, Late(v, vs), g) == sum
            && if r.None? then w.None? else w.Some? && w.value[Place(Late(v, vs), 0).reg] == r.value
  {
    var e := Late(v, vs);
    SumPlace(vs, 1);
    SumNoClobber(vs, 1);
    NoClobberComputes(p, Sum(vs), 1, g);
    SumThrows(p, vs, g);
    assert Place(Lit(Int(v)), 0) == Spot(0, 1) && Effect(p, Lit(Int(v)), 0, g) == Some(map[0 := Int(v)]);
    LeafValue(p, Lit(Int(v)), g);
    hide Sum, Thrown, Effect, Value1, NoClobber;
    BinaryValue(p, e, g);
    BinaryEffect(p, e, 0, g);
    assert Place(e, 0).reg == Temp(Place(Sum(vs), 1).next).reg;
  }

  ghost predicate Adds(p: Prims) {
    forall a, b :: p.bin(Add, Int(a), Int(b)) == Some(Int(a + b))
  }

  lemma {:induction false} SumValue(p: Prims, vs: seq<int>, g: map<string, Value>)
    requires vs != [] && Adds(p)
    ensures Simple(Sum(vs)) && Value1(p, Sum(vs), g) == Some(Int(SumOf(vs)))
    decreases |vs|
  {
    var k := |vs| - 1;
    if k > 0 {
      SumValue(p, vs[..k], g);
      BinaryValue(p, Sum(vs), g);
    } else {
      assert vs[..0] == [];
    }
  }

  predicate Small(vs: seq<int>) {
    forall i :: 0 <= i < |vs| ==> Immediate(Int(vs[i]))
  }

  lemma {:induction false} SumFits(vs: seq<int>)
    requires vs != [] && Small(vs)
    ensures RegFits(Sum(vs), []) && RegConsts(Sum(vs), []) == []
    decreases |vs|
  {
    if |vs| > 1 {
      SumFits(vs[..|vs| - 1]);
    }
  }

  // A flat sum of small integers is returned right by every machine that adds integers, however long it is.
  lemma SumReturns(vm: RegVm, vs: seq<int>, regs: Regs, globals: map<string, Value>) returns (k: nat)
    requires RegWired(vm) && Adds(vm.p) && vs != [] && Small(vs) && ExprProgAt(vm.prog.code, Sum(vs))
    ensures var r := RegRun(vm, RegMachine(0, regs, globals), k); r.Returned? && r.v == Int(SumOf(vs))
  {
    hide RegRun, RegWired, ExprProgAt, Effect, Value1, Place, Sum, SumOf;
    SumFits(vs);
    SumValue(vm.p, vs, globals);
    SumNoClobber(vs, 0);
    NoClobberComputes(vm.p, Sum(vs), 0, globals);
    k := MachineReturns(vm, Sum(vs), regs, globals);
  }

  // But v + (vs[0] + vs[1] + ...), with more than 128 terms in the parentheses, is returned with one of the
  // terms in the place of v.
  lemma RegistersRunOut(vm: RegVm, v: int, vs: seq<int>, regs: Regs, globals: map<string, Value>) returns (k: nat)
    requires RegWired(vm) && Adds(vm.p) && |vs| > 128 && ExprProgAt(vm.prog.code, Late(v, vs))
    requires Immediate(Int(v)) && Small(vs)
    ensures Simple(Late(v, vs)) && Value1(vm.p, Late(v, vs), globals) == Some(Int(v + SumOf(vs)))
    ensures var r := RegRun(vm, RegMachine(0, regs, globals), k); r.Returned? && r.v == Int(Thrown(vs) + SumOf(vs))
  {
    SumFits(vs);
    LateFits(v, vs);
    hide RegRun, RegWired, ExprProgAt, Effect, Value1, Place, Sum, SumOf, Late, Thrown;
    SumValue(vm.p, vs, globals);
    LateEffect(vm.p, v, vs, globals);
    assert vm.p.bin(Add, Int(Thrown(vs)), Int(SumOf(vs))) == Some(Int(Thrown(vs) + SumOf(vs)));
    k := MachineReturns(vm, Late(v, vs), regs, globals);
  }

  lemma LateFits(v: int, vs: seq<int>)
    requires vs != [] && Immediate(Int(v)) && RegFits(Sum(vs), []) && RegConsts(Sum(vs), []) == []
    ensures RegFits(Late(v, vs), []) && RegConsts(Late(v, vs), []) == []
  {
    hide Sum;
    var l := Lit(Int(v));
    assert RegFits(l, []) && RegConsts(l, []) == [];
  }
}
