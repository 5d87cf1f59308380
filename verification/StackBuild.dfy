/** How the stack compiler's code comes to have its layout: bytes are only appended, and a forward
    jump is written with a placeholder that is filled in once the target is known.
 */
module StackBuild {
  import opened Ast
  import opened StackCode

  predicate Same(c1: seq<byte>, c2: seq<byte>, lo: nat, hi: nat) {
    hi <= |c1| && hi <= |c2| && forall i :: lo <= i < hi ==> c1[i] == c2[i]
  }

  // chunk_patch_jump: aim the jump whose operand is at `offset` at the end of the code, if that is near enough.
  function Patched(code: seq<byte>, offset: nat): (r: seq<byte>)
    requires offset + 2 <= |code|
    ensures |r| == |code| && forall i :: 0 <= i < |code| && i != offset && i != offset + 1 ==> r[i] == code[i]
  {
    var jump := |code| - offset - 2;
    if jump > 0xFFFF then code else code[offset := jump / 256][offset + 1 := jump % 256]
  }

  // An emitted jump that has not been patched yet.
  predicate Placeholder(code: seq<byte>, a: nat, op: byte) {
    a + 2 < |code| && code[a] == op && code[a + 1] == 0xFF && code[a + 2] == 0xFF
  }

  lemma PatchedLands(code: seq<byte>, a: nat, op: byte)
    requires Placeholder(code, a, op)
    ensures JumpAt(Patched(code, a + 1), a, op, |code| - (a + 3))
  {
  }

  // --- Code elsewhere does not matter ---

  lemma FrameOp(c1: seq<byte>, c2: seq<byte>, a: nat, op: byte)
    requires OpAt(c1, a, op) && Same(c1, c2, a, a + 1)
    ensures OpAt(c2, a, op)
  {
  }

  lemma FrameJump(c1: seq<byte>, c2: seq<byte>, a: nat, op: byte, d: nat)
    requires JumpAt(c1, a, op, d) && Same(c1, c2, a, a + 3)
    ensures JumpAt(c2, a, op, d)
  {
  }

  lemma FrameVar(c1: seq<byte>, c2: seq<byte>, a: nat, localOp: byte, globalOp: byte, name: string, locals: seq<Local>, pools: Pools)
    requires VarAt(c1, a, localOp, globalOp, name, locals, pools) && Same(c1, c2, a, a + 3)
    ensures VarAt(c2, a, localOp, globalOp, name, locals, pools)
  {
    hide Resolve, IndexOf;
  }

  lemma SameSub(c1: seq<byte>, c2: seq<byte>, lo: nat, hi: nat, lo': nat, hi': nat)
    requires Same(c1, c2, lo, hi) && lo <= lo' && hi' <= hi
    ensures Same(c1, c2, lo', hi')
  {
  }

  lemma {:induction false} FramePair(c1: seq<byte>, c2: seq<byte>, a: nat, e: Expr, locals: seq<Local>, pools: Pools)
    requires e.Binary? || e.And? || e.Or?
    requires ExprAt(c1, a, e, locals, pools) && Same(c1, c2, a, a + SizeExpr(e))
    ensures ExprAt(c2, a, e, locals, pools)
    decreases e, 0
  {
    hide *;
    PairSize(e);
    var l, r := e.left, e.right;
    var b := a + SizeExpr(l);
    SameSub(c1, c2, a, a + SizeExpr(e), a, b);
    match e
    case Binary(op, _, _) =>
      BinaryShape(c1, a, e, locals, pools);
      BinaryShape(c2, a, e, locals, pools);
      FrameExpr(c1, c2, a, l, locals, pools);
      SameSub(c1, c2, a, a + SizeExpr(e), b, b + SizeExpr(r));
      FrameExpr(c1, c2, b, r, locals, ExprPools(l, locals, pools));
      SameSub(c1, c2, a, a + SizeExpr(e), b + SizeExpr(r), b + SizeExpr(r) + 1);
      FrameOp(c1, c2, b + SizeExpr(r), BinCode(op));
    case And(_, _) =>
      AndShape(c1, a, e, locals, pools);
      AndShape(c2, a, e, locals, pools);
      FrameExpr(c1, c2, a, l, locals, pools);
      SameSub(c1, c2, a, a + SizeExpr(e), b, b + 3);
      FrameJump(c1, c2, b, OP_JUMP_UNLESS, 1 + SizeExpr(r));
      SameSub(c1, c2, a, a + SizeExpr(e), b + 3, b + 3 + 1);
      FrameOp(c1, c2, b + 3, OP_POP);
      SameSub(c1, c2, a, a + SizeExpr(e), b + 4, b + 4 + SizeExpr(r));
      FrameExpr(c1, c2, b + 4, r, locals, ExprPools(l, locals, pools));
    case Or(_, _) =>
      OrShape(c1, a, e, locals, pools);
      OrShape(c2, a, e, locals, pools);
      FrameExpr(c1, c2, a, l, locals, pools);
      SameSub(c1, c2, a, a + SizeExpr(e), b, b + 3);
      FrameJump(c1, c2, b, OP_JUMP_UNLESS, 3);
      SameSub(c1, c2, a, a + SizeExpr(e), b + 3, b + 3 + 3);
      FrameJump(c1, c2, b + 3, OP_JUMP, 1 + SizeExpr(r));
      SameSub(c1, c2, a, a + SizeExpr(e), b + 6, b + 6 + 1);
      FrameOp(c1, c2, b + 6, OP_POP);
      SameSub(c1, c2, a, a + SizeExpr(e), b + 7, b + 7 + SizeExpr(r));
      FrameExpr(c1, c2, b + 7, r, locals, ExprPools(l, locals, pools));
  }

  lemma {:induction false} FrameTernary(c1: seq<byte>, c2: seq<byte>, a: nat, e: Expr, locals: seq<Local>, pools: Pools)
    requires e.Ternary?
    requires ExprAt(c1, a, e, locals, pools) && Same(c1, c2, a, a + SizeExpr(e))
    ensures ExprAt(c2, a, e, locals, pools)
    decreases e, 0
  {
    hide *;
    TernarySize(e);
    TernaryShape(c1, a, e, locals, pools);
    TernaryShape(c2, a, e, locals, pools);
    var c, t, f := e.cond, e.thn, e.els;
    var b, p1 := a + SizeExpr(c), ExprPools(c, locals, pools);
    var d := b + 4 + SizeExpr(t);
    SameSub(c1, c2, a, a + SizeExpr(e), a, a + SizeExpr(c));
    FrameExpr(c1, c2, a, c, locals, pools);
    SameSub(c1, c2, a, a + SizeExpr(e), b, b + 3);
    FrameJump(c1, c2, b, OP_JUMP_UNLESS, 1 + SizeExpr(t) + 3);
    SameSub(c1, c2, a, a + SizeExpr(e), b + 3, b + 3 + 1);
    FrameOp(c1, c2, b + 3, OP_POP);
    SameSub(c1, c2, a, a + SizeExpr(e), b + 4, b + 4 + SizeExpr(t));
    FrameExpr(c1, c2, b + 4, t, locals, p1);
    SameSub(c1, c2, a, a + SizeExpr(e), d, d + 3);
    FrameJump(c1, c2, d, OP_JUMP, 1 + SizeExpr(f));
    SameSub(c1, c2, a, a + SizeExpr(e), d + 3, d + 3 + 1);
    FrameOp(c1, c2, d + 3, OP_POP);
    SameSub(c1, c2, a, a + SizeExpr(e), d + 4, d + 4 + SizeExpr(f));
    FrameExpr(c1, c2, d + 4, f, locals, ExprPools(t, locals, p1));
  }

  lemma {:induction false} FrameAssign(c1: seq<byte>, c2: seq<byte>, a: nat, e: Expr, locals: seq<Local>, pools: Pools)
    requires e.Assign?
    requires ExprAt(c1, a, e, locals, pools) && Same(c1, c2, a, a + SizeExpr(e))
    ensures ExprAt(c2, a, e, locals, pools)
    decreases e, 0
  {
    hide *;
    AssignSize(e);
    AssignShape(c1, a, e, locals, pools);
    AssignShape(c2, a, e, locals, pools);
    var name, rhs := e.target, e.rhs;
    if e.aop.None? {
      SameSub(c1, c2, a, a + SizeExpr(e), a, a + SizeExpr(rhs));
      FrameExpr(c1, c2, a, rhs, locals, pools);
      SameSub(c1, c2, a, a + SizeExpr(e), a + SizeExpr(rhs), a + SizeExpr(rhs) + 3);
      FrameVar(c1, c2, a + SizeExpr(rhs), OP_SET_LOCAL, OP_SET_GLOBAL, name, locals, ExprPools(rhs, locals, pools));
    } else {
      var p1, b := VarPools(name, locals, pools), a + 3 + SizeExpr(rhs);
      SameSub(c1, c2, a, a + SizeExpr(e), a, a + 3);
      FrameVar(c1, c2, a, OP_GET_LOCAL, OP_GET_GLOBAL, name, locals, pools);
      SameSub(c1, c2, a, a + SizeExpr(e), a + 3, a + 3 + SizeExpr(rhs));
      FrameExpr(c1, c2, a + 3, rhs, locals, p1);
      SameSub(c1, c2, a, a + SizeExpr(e), b, b + 1);
      FrameOp(c1, c2, b, BinCode(e.aop.value));
      SameSub(c1, c2, a, a + SizeExpr(e), b + 1, b + 1 + 3);
      FrameVar(c1, c2, b + 1, OP_SET_LOCAL, OP_SET_GLOBAL, name, locals, ExprPools(rhs, locals, p1));
    }
  }

  lemma {:induction false} FrameExpr(c1: seq<byte>, c2: seq<byte>, a: nat, e: Expr, locals: seq<Local>, pools: Pools)
    requires ExprAt(c1, a, e, locals, pools) && Same(c1, c2, a, a + SizeExpr(e))
    ensures ExprAt(c2, a, e, locals, pools)
    decreases e, 1
  {
    hide OpAt, JumpAt, VarAt, LitAt, Same;
    match e
    case Lit(v) => FrameLit(c1, c2, a, v, pools);
    case Ident(name) => FrameVar(c1, c2, a, OP_GET_LOCAL, OP_GET_GLOBAL, name, locals, pools);
    case Binary(_, _, _) => FramePair(c1, c2, a, e, locals, pools);
    case And(_, _) => FramePair(c1, c2, a, e, locals, pools);
    case Or(_, _) => FramePair(c1, c2, a, e, locals, pools);
    case Unary(op, x) =>
      SameSub(c1, c2, a, a + SizeExpr(e), a, a + SizeExpr(x));
      FrameExpr(c1, c2, a, x, locals, pools);
      SameSub(c1, c2, a, a + SizeExpr(e), a + SizeExpr(x), a + SizeExpr(x) + 1);
      FrameOp(c1, c2, a + SizeExpr(x), UnCode(op));
    case Ternary(_, _, _) => FrameTernary(c1, c2, a, e, locals, pools);
    case Assign(_, _, _) => FrameAssign(c1, c2, a, e, locals, pools);
  }

  lemma FrameLit(c1: seq<byte>, c2: seq<byte>, a: nat, v: Value, pools: Pools)
    requires LitAt(c1, a, v, pools) && Same(c1, c2, a, a + if v.Nil? || v.Bool? then 1 else 3)
    ensures LitAt(c2, a, v, pools)
  {
  }

  // --- Building expressions ---

  function HighLow(i: nat): (r: seq<byte>)
    ensures |r| == 2
  {
    [i / 256 % 256, i % 256]
  }

  lemma ArgEmitted(code: seq<byte>, op: byte, i: nat)
    ensures ArgAt(code + [op] + HighLow(i), |code|, op, i)
  {
    assert i % 0x10000 == i / 256 % 256 * 256 + i % 256;
  }

  lemma PrefixSame(c1: seq<byte>, c2: seq<byte>, lo: nat, hi: nat)
    requires c1 <= c2 && hi <= |c1|
    ensures Same(c1, c2, lo, hi)
  {
  }

  lemma SameTrans(c1: seq<byte>, c2: seq<byte>, c3: seq<byte>, lo: nat, hi: nat)
    requires Same(c1, c2, lo, hi) && Same(c2, c3, lo, hi)
    ensures Same(c1, c3, lo, hi)
  {
  }

  const JUMP_UNLESS_POP: seq<byte> := [OP_JUMP_UNLESS, 0xFF, 0xFF, OP_POP]

  const JUMP_AWAY: seq<byte> := [OP_JUMP, 0xFF, 0xFF]

  // What follows a jump, a pop or both.
  lemma Emitted(c1: seq<byte>, c2: seq<byte>)
    ensures c1 + JUMP_UNLESS_POP <= c2 ==> Placeholder(c2, |c1|, OP_JUMP_UNLESS) && OpAt(c2, |c1| + 3, OP_POP) && c1 <= c2
    ensures c1 + [OP_JUMP_UNLESS, 0xFF, 0xFF] <= c2 ==> Placeholder(c2, |c1|, OP_JUMP_UNLESS) && c1 <= c2
    ensures c1 + JUMP_AWAY <= c2 ==> Placeholder(c2, |c1|, OP_JUMP) && c1 <= c2
    ensures c1 + [OP_POP] <= c2 ==> OpAt(c2, |c1|, OP_POP) && c1 <= c2
  {
  }

  // A patch, seen from everything else.
  lemma PatchFrames(code: seq<byte>, offset: nat, a: nat, op: byte)
    requires offset + 2 <= |code|
    ensures var c := Patched(code, offset);
            && (OpAt(code, a, op) && a != offset && a != offset + 1 ==> OpAt(c, a, op))
            && (Placeholder(code, a, op) && (a + 3 <= offset || offset + 2 <= a) ==> Placeholder(c, a, op))
  {
  }

  // A jump over everything emitted since (and; the tail of while).
  lemma Skip(c1: seq<byte>, c2: seq<byte>)
    requires c1 + JUMP_UNLESS_POP <= c2
    ensures var c := Patched(c2, |c1| + 1);
            && c1 <= c && |c| == |c2|
            && JumpAt(c, |c1|, OP_JUMP_UNLESS, |c2| - (|c1| + 3)) && OpAt(c, |c1| + 3, OP_POP)
            && Same(c1, c, 0, |c1|) && Same(c2, c, |c1| + 4, |c2|)
  {
    hide Patched, JumpAt, Placeholder, OpAt;
    Emitted(c1, c2);
    PatchedLands(c2, |c1|, OP_JUMP_UNLESS);
    PatchFrames(c2, |c1| + 1, |c1| + 3, OP_POP);
  }

  // The two jumps of or: the first over the second, the second over the rest.
  lemma Choose(c1: seq<byte>, c4: seq<byte>)
    requires Patched(c1 + [OP_JUMP_UNLESS, 0xFF, 0xFF] + JUMP_AWAY, |c1| + 1) + [OP_POP] <= c4
    ensures var c := Patched(c4, |c1| + 4);
            && c1 <= c && |c| == |c4|
            && JumpAt(c, |c1|, OP_JUMP_UNLESS, 3) && JumpAt(c, |c1| + 3, OP_JUMP, |c4| - (|c1| + 6)) && OpAt(c, |c1| + 6, OP_POP)
            && Same(c1, c, 0, |c1|) && Same(c4, c, |c1| + 7, |c4|)
  {
    hide Patched, JumpAt, Placeholder, OpAt;
    var n := |c1|;
    var c2 := c1 + [OP_JUMP_UNLESS, 0xFF, 0xFF] + JUMP_AWAY;
    var c3, c := Patched(c2, n + 1), Patched(c4, n + 4);
    Emitted(c1, c2);
    Emitted(c1 + [OP_JUMP_UNLESS, 0xFF, 0xFF], c2);
    PatchedLands(c2, n, OP_JUMP_UNLESS);
    PatchFrames(c2, n + 1, n + 3, OP_JUMP);
    Emitted(c3, c4);
    FramePlaceholder(c3, c4, n + 3, OP_JUMP);
    PatchedLands(c4, n + 3, OP_JUMP);
    PatchFrames(c4, n + 4, n + 6, OP_POP);
    FrameJump(c3, c, n, OP_JUMP_UNLESS, 3);
  }

  lemma FramePlaceholder(c1: seq<byte>, c2: seq<byte>, a: nat, op: byte)
    requires Placeholder(c1, a, op) && Same(c1, c2, a, a + 3)
    ensures Placeholder(c2, a, op)
  {
  }

  // The two jumps of a conditional: past the first arm, and past the second.
  lemma Fork(c1: seq<byte>, c2: seq<byte>, c4: seq<byte>)
    requires c1 + JUMP_UNLESS_POP <= c2
    requires Patched(c2 + JUMP_AWAY, |c1| + 1) + [OP_POP] <= c4
    ensures var c := Patched(c4, |c2| + 1);
            && c1 <= c && |c| == |c4|
            && JumpAt(c, |c1|, OP_JUMP_UNLESS, |c2| - |c1|) && OpAt(c, |c1| + 3, OP_POP)
            && JumpAt(c, |c2|, OP_JUMP, |c4| - (|c2| + 3)) && OpAt(c, |c2| + 3, OP_POP)
            && Same(c1, c, 0, |c1|) && Same(c2, c, |c1| + 4, |c2|) && Same(c4, c, |c2| + 4, |c4|)
  {
    hide Patched, JumpAt, Placeholder, OpAt;
    var j, n, k := c2 + JUMP_AWAY, |c1|, |c2|;
    var c3, c := Patched(j, n + 1), Patched(c4, k + 1);
    Emitted(c1, j);
    Emitted(c2, j);
    PatchedLands(j, n, OP_JUMP_UNLESS);
    PatchFrames(j, n + 1, n + 3, OP_POP);
    PatchFrames(j, n + 1, k, OP_JUMP);
    Emitted(c3, c4);
    FramePlaceholder(c3, c4, k, OP_JUMP);
    PatchedLands(c4, k, OP_JUMP);
    PatchFrames(c4, k + 1, k + 3, OP_POP);
    FrameJump(c3, c, n, OP_JUMP_UNLESS, k - n);
    FrameOp(c3, c, n + 3, OP_POP);
  }

  lemma Grows(c1: seq<byte>, c2: seq<byte>, a: nat, e: Expr, locals: seq<Local>, pools: Pools)
    requires ExprAt(c1, a, e, locals, pools) && a + SizeExpr(e) <= |c1| && c1 <= c2
    ensures ExprAt(c2, a, e, locals, pools)
  {
    hide *;
    PrefixSame(c1, c2, a, a + SizeExpr(e));
    FrameExpr(c1, c2, a, e, locals, pools);
  }

  lemma AtEnd(code: seq<byte>, op: byte)
    ensures OpAt(code + [op], |code|, op)
  {
  }

  lemma IdentShape(code: seq<byte>, a: nat, name: string, locals: seq<Local>, pools: Pools)
    ensures ExprAt(code, a, Ident(name), locals, pools) <==> VarAt(code, a, OP_GET_LOCAL, OP_GET_GLOBAL, name, locals, pools)
  {
    hide VarAt;
  }

  // An assignment's value stands in c1; storing it completes the assignment.
  lemma FrameAssigned(c1: seq<byte>, c2: seq<byte>, a: nat, e: Expr, locals: seq<Local>, pools: Pools)
    requires e.Assign? && c1 <= c2
    requires var gap := if e.aop.Some? then 3 else 0;
             var p1, b := if e.aop.Some? then VarPools(e.target, locals, pools) else pools, a + gap + SizeExpr(e.rhs);
             var end := if e.aop.Some? then b + 1 else b;
             && |c1| == end
             && (e.aop.Some? ==> VarAt(c1, a, OP_GET_LOCAL, OP_GET_GLOBAL, e.target, locals, pools)
                                 && OpAt(c1, b, BinCode(e.aop.value)))
             && ExprAt(c1, a + gap, e.rhs, locals, p1)
             && VarAt(c2, end, OP_SET_LOCAL, OP_SET_GLOBAL, e.target, locals, ExprPools(e.rhs, locals, p1))
    ensures ExprAt(c2, a, e, locals, pools)
  {
    hide *;
    AssignShape(c2, a, e, locals, pools);
    if e.aop.Some? {
      var b := a + 3 + SizeExpr(e.rhs);
      PrefixSame(c1, c2, a, a + 3);
      PrefixSame(c1, c2, b, b + 1);
      FrameVar(c1, c2, a, OP_GET_LOCAL, OP_GET_GLOBAL, e.target, locals, pools);
      FrameOp(c1, c2, b, BinCode(e.aop.value));
      Grows(c1, c2, a + 3, e.rhs, locals, VarPools(e.target, locals, pools));
    } else {
      Grows(c1, c2, a, e.rhs, locals, pools);
    }
  }

  lemma AndBuilt(c1: seq<byte>, c2: seq<byte>, a: nat, e: Expr, locals: seq<Local>, pools: Pools)
    requires e.And? && ExprAt(c1, a, e.left, locals, pools) && |c1| == a + SizeExpr(e.left)
    requires c1 + JUMP_UNLESS_POP <= c2 && |c2| == |c1| + 4 + SizeExpr(e.right)
    requires ExprAt(c2, |c1| + 4, e.right, locals, ExprPools(e.left, locals, pools))
    ensures var c := Patched(c2, |c1| + 1); ExprAt(c, a, e, locals, pools) && |c| == a + SizeExpr(e) && c1 <= c
  {
    hide *;
    var c := Patched(c2, |c1| + 1);
    PairSize(e);
    Skip(c1, c2);
    SameSub(c1, c, 0, |c1|, a, |c1|);
    FrameExpr(c1, c, a, e.left, locals, pools);
    FrameExpr(c2, c, |c1| + 4, e.right, locals, ExprPools(e.left, locals, pools));
    AndShape(c, a, e, locals, pools);
  }

  lemma OrBuilt(c1: seq<byte>, c4: seq<byte>, a: nat, e: Expr, locals: seq<Local>, pools: Pools)
    requires e.Or? && ExprAt(c1, a, e.left, locals, pools) && |c1| == a + SizeExpr(e.left)
    requires Patched(c1 + [OP_JUMP_UNLESS, 0xFF, 0xFF] + JUMP_AWAY, |c1| + 1) + [OP_POP] <= c4
    requires |c4| == |c1| + 7 + SizeExpr(e.right)
    requires ExprAt(c4, |c1| + 7, e.right, locals, ExprPools(e.left, locals, pools))
    ensures var c := Patched(c4, |c1| + 4); ExprAt(c, a, e, locals, pools) && |c| == a + SizeExpr(e) && c1 <= c
  {
    hide *;
    var c := Patched(c4, |c1| + 4);
    PairSize(e);
    Choose(c1, c4);
    SameSub(c1, c, 0, |c1|, a, |c1|);
    FrameExpr(c1, c, a, e.left, locals, pools);
    FrameExpr(c4, c, |c1| + 7, e.right, locals, ExprPools(e.left, locals, pools));
    OrShape(c, a, e, locals, pools);
  }

  lemma TernaryBuilt(c1: seq<byte>, c2: seq<byte>, c4: seq<byte>, a: nat, e: Expr, locals: seq<Local>, pools: Pools)
    requires e.Ternary? && ExprAt(c1, a, e.cond, locals, pools) && |c1| == a + SizeExpr(e.cond)
    requires c1 + JUMP_UNLESS_POP <= c2 && |c2| == |c1| + 4 + SizeExpr(e.thn)
    requires Patched(c2 + JUMP_AWAY, |c1| + 1) + [OP_POP] <= c4 && |c4| == |c2| + 4 + SizeExpr(e.els)
    requires var p1 := ExprPools(e.cond, locals, pools);
             && ExprAt(c2, |c1| + 4, e.thn, locals, p1)
             && ExprAt(c4, |c2| + 4, e.els, locals, ExprPools(e.thn, locals, p1))
    ensures var c := Patched(c4, |c2| + 1); ExprAt(c, a, e, locals, pools) && |c| == a + SizeExpr(e) && c1 <= c
  {
    hide *;
    var c, p1 := Patched(c4, |c2| + 1), ExprPools(e.cond, locals, pools);
    TernarySize(e);
    Fork(c1, c2, c4);
    SameSub(c1, c, 0, |c1|, a, |c1|);
    FrameExpr(c1, c, a, e.cond, locals, pools);
    FrameExpr(c2, c, |c1| + 4, e.thn, locals, p1);
    FrameExpr(c4, c, |c2| + 4, e.els, locals, ExprPools(e.thn, locals, p1));
    TernaryShape(c, a, e, locals, pools);
  }

  // --- What the compiler accepts ---

  // Only too many constants and assignments to constant locals are reported.
  predicate ExprOk(e: Expr, locals: seq<Local>, pools: Pools) {
    match e
    case Lit(v) => v.Nil? || v.Bool? || |pools.consts| <= 0xFFFF
    case Ident(_) => true
    case Binary(_, l, r) => ExprOk(l, locals, pools) && ExprOk(r, locals, ExprPools(l, locals, pools))
    case And(l, r) => ExprOk(l, locals, pools) && ExprOk(r, locals, ExprPools(l, locals, pools))
    case Or(l, r) => ExprOk(l, locals, pools) && ExprOk(r, locals, ExprPools(l, locals, pools))
    case Unary(_, x) => ExprOk(x, locals, pools)
    case Ternary(c, t, f) =>
      var p1 := ExprPools(c, locals, pools);
      ExprOk(c, locals, pools) && ExprOk(t, locals, p1) && ExprOk(f, locals, ExprPools(t, locals, p1))
    case Assign(name, aop, rhs) =>
      && ExprOk(rhs, locals, if aop.Some? then VarPools(name, locals, pools) else pools)
      && (Resolve(locals, name) >= 0 ==> !locals[Resolve(locals, name)].isConst)
  }

  lemma PairOk(e: Expr, locals: seq<Local>, pools: Pools)
    requires e.Binary? || e.And? || e.Or?
    ensures ExprOk(e, locals, pools) <==> ExprOk(e.left, locals, pools) && ExprOk(e.right, locals, ExprPools(e.left, locals, pools))
    ensures ExprPools(e, locals, pools) == ExprPools(e.right, locals, ExprPools(e.left, locals, pools))
  {
  }

  lemma TernaryOk(e: Expr, locals: seq<Local>, pools: Pools)
    requires e.Ternary?
    ensures var p1 := ExprPools(e.cond, locals, pools);
            var p2 := ExprPools(e.thn, locals, p1);
            && (ExprOk(e, locals, pools) <==>
                ExprOk(e.cond, locals, pools) && ExprOk(e.thn, locals, p1) && ExprOk(e.els, locals, p2))
            && ExprPools(e, locals, pools) == ExprPools(e.els, locals, p2)
  {
  }

  lemma AssignOk(e: Expr, locals: seq<Local>, pools: Pools)
    requires e.Assign?
    ensures var p1 := if e.aop.Some? then VarPools(e.target, locals, pools) else pools;
            && (ExprOk(e, locals, pools) <==>
                && ExprOk(e.rhs, locals, p1)
                && (Resolve(locals, e.target) >= 0 ==> !locals[Resolve(locals, e.target)].isConst))
            && ExprPools(e, locals, pools) == VarPools(e.target, locals, ExprPools(e.rhs, locals, p1))
  {
  }
}
