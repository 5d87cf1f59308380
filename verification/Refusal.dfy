/** Which sources the stack compiler refuses, said of the syntax tree: what may not occur in it, and how much
    of it there may be.
 */
module Refusal {
  import opened Ast
  import opened StackCode
  import opened StackBuild
  import opened StackPatch

  // --- No name twice in a block ---

  // The names that a block declares itself.
  function Own(ss: Stmts): seq<string> {
    match ss
    case Done => []
    case Then(s, rest) => (if s.Let? then [s.name] else []) + Own(rest)
  }

  predicate BlockOnce(ss: Stmts)
    decreases ss, 2
  {
    && (forall i, j :: 0 <= i < j < |Own(ss)| ==> Own(ss)[i] != Own(ss)[j])
    && ListOnce(ss)
  }

  // In all blocks inside the statements.
  predicate ListOnce(ss: Stmts)
    decreases ss, 1
  {
    match ss
    case Done => true
    case Then(s, rest) => StmtOnce(s) && ListOnce(rest)
  }

  predicate StmtOnce(s: Stmt)
    decreases s, 1
  {
    match s
    case IfStmt(i) => IfOnce(i)
    case While(_, body) => BlockOnce(body)
    case Block(ss) => BlockOnce(ss)
    case _ => true
  }

  predicate IfOnce(i: If)
    decreases i, 1
  {
    BlockOnce(i.thn) && ElseOnce(i.els)
  }

  predicate ElseOnce(x: Else)
    decreases x, 1
  {
    match x
    case NoElse => true
    case ElseBlock(ss) => BlockOnce(ss)
    case ElseIf(i) => IfOnce(i)
  }

  // --- Break and continue in loops only ---

  predicate ListLeaves(ss: Stmts, inLoop: bool)
    decreases ss, 1
  {
    match ss
    case Done => true
    case Then(s, rest) => StmtLeaves(s, inLoop) && ListLeaves(rest, inLoop)
  }

  predicate StmtLeaves(s: Stmt, inLoop: bool)
    decreases s, 1
  {
    match s
    case IfStmt(i) => IfLeaves(i, inLoop)
    case While(_, body) => ListLeaves(body, true)
    case Block(ss) => ListLeaves(ss, inLoop)
    case Break => inLoop
    case Continue => inLoop
    case _ => true
  }

  predicate IfLeaves(i: If, inLoop: bool)
    decreases i, 1
  {
    ListLeaves(i.thn, inLoop) && ElseLeaves(i.els, inLoop)
  }

  predicate ElseLeaves(x: Else, inLoop: bool)
    decreases x, 1
  {
    match x
    case NoElse => true
    case ElseBlock(ss) => ListLeaves(ss, inLoop)
    case ElseIf(i) => IfLeaves(i, inLoop)
  }

  // --- How much there is ---

  // The most locals that are in scope at once, the deepest nesting of loops, and the number of literals
  // that need a place in the constant pool.
  datatype Extent = Extent(locals: nat, loops: nat, literals: nat)

  function Max(a: nat, b: nat): nat {
    if a < b then b else a
  }

  function Beside(x: Extent, y: Extent): Extent {
    Extent(Max(x.locals, y.locals), Max(x.loops, y.loops), x.literals + y.literals)
  }

  function Literals(e: Expr): nat {
    match e
    case Lit(v) => if v.Nil? || v.Bool? then 0 else 1
    case Ident(_) => 0
    case Binary(_, l, r) => Literals(l) + Literals(r)
    case And(l, r) => Literals(l) + Literals(r)
    case Or(l, r) => Literals(l) + Literals(r)
    case Unary(_, x) => Literals(x)
    case Ternary(c, t, f) => Literals(c) + Literals(t) + Literals(f)
    case Assign(_, _, rhs) => Literals(rhs)
  }

  function Only(e: Expr): Extent {
    Extent(0, 0, Literals(e))
  }

  // Outside all blocks, a declaration makes a global.
  function ListExtent(ss: Stmts, top: bool): Extent
    decreases ss, 1
  {
    match ss
    case Done => Extent(0, 0, 0)
    case Then(s, rest) =>
      var x := ListExtent(rest, top);
      Beside(StmtExtent(s, top), if s.Let? && !top then x.(locals := 1 + x.locals) else x)
  }

  function StmtExtent(s: Stmt, top: bool): Extent
    decreases s, 1
  {
    match s
    case Let(_, _, e) => Extent(if top then 0 else 1, 0, Literals(e))
    case Eval(e) => Only(e)
    case IfStmt(i) => IfExtent(i)
    case While(cond, body) =>
      var x := ListExtent(body, false);
      Beside(Only(cond), x.(loops := 1 + x.loops))
    case Block(ss) => ListExtent(ss, false)
    case _ => Extent(0, 0, 0)
  }

  function IfExtent(i: If): Extent
    decreases i, 1
  {
    Beside(Only(i.cond), Beside(ListExtent(i.thn, false), ElseExtent(i.els)))
  }

  function ElseExtent(x: Else): Extent
    decreases x, 1
  {
    match x
    case NoElse => Extent(0, 0, 0)
    case ElseBlock(ss) => ListExtent(ss, false)
    case ElseIf(j) => IfExtent(j)
  }

  // --- Constants stay what they are, and loops are short ---

  // No assignment to a local constant: the innermost local of its name is not one.
  predicate Writable(e: Expr, locals: seq<Local>) {
    match e
    case Binary(_, l, r) => Writable(l, locals) && Writable(r, locals)
    case And(l, r) => Writable(l, locals) && Writable(r, locals)
    case Or(l, r) => Writable(l, locals) && Writable(r, locals)
    case Unary(_, x) => Writable(x, locals)
    case Ternary(c, t, f) => Writable(c, locals) && Writable(t, locals) && Writable(f, locals)
    case Assign(name, _, rhs) =>
      Writable(rhs, locals) && (Resolve(locals, name) >= 0 ==> !locals[Resolve(locals, name)].isConst)
    case _ => true
  }

  predicate ListSound(ss: Stmts, c: Scope)
    decreases ss, 1
  {
    match ss
    case Done => true
    case Then(s, rest) => StmtSound(s, c) && ListSound(rest, After(s, c))
  }

  // A loop jumps back over its condition and its body.
  predicate StmtSound(s: Stmt, c: Scope)
    decreases s, 1
  {
    match s
    case Let(_, _, e) => Writable(e, c.locals)
    case Eval(e) => Writable(e, c.locals)
    case IfStmt(i) => IfSound(i, c)
    case While(cond, body) =>
      Writable(cond, c.locals) && ListSound(body, Inner(InLoop(c))) && SizeExpr(cond) + 4 + SizeBlock(body, InLoop(c)) + 3 <= 0xFFFF
    case Block(ss) => ListSound(ss, Inner(c))
    case _ => true
  }

  predicate IfSound(i: If, c: Scope)
    decreases i, 1
  {
    Writable(i.cond, c.locals) && ListSound(i.thn, Inner(c)) && ElseSound(i.els, c)
  }

  predicate ElseSound(x: Else, c: Scope)
    decreases x, 1
  {
    match x
    case NoElse => true
    case ElseBlock(ss) => ListSound(ss, Inner(c))
    case ElseIf(i) => IfSound(i, c)
  }

  // --- The sources that are accepted ---

  predicate Within(x: Extent, locals: nat, loops: nat, literals: nat) {
    locals + x.locals <= 256 && loops + x.loops <= 32 && literals + x.literals <= 0x10000
  }

  predicate Accepted(ss: Stmts) {
    ListOnce(ss) && ListLeaves(ss, false) && Within(ListExtent(ss, true), 0, 0, 0) && ListSound(ss, TOP)
  }

  // --- Names ---

  // Locals are in the order of their scopes.
  predicate Scoped(c: Scope) {
    && (forall i :: 0 <= i < |c.locals| ==> c.locals[i].depth <= c.depth)
    && (forall i, j :: 0 <= i < j < |c.locals| ==> c.locals[i].depth <= c.locals[j].depth)
  }

  // The name is one of the current block's.
  predicate Here(c: Scope, name: string) {
    exists i :: 0 <= i < |c.locals| && c.locals[i].depth == c.depth && c.locals[i].name == name
  }

  // The search from the last local down to the first one of an outer scope finds the names of the block.
  lemma {:induction false} RedeclaredIff(c: Scope, name: string)
    requires Scoped(c)
    ensures Redeclared(c.locals, c.depth, name) <==> Here(c, name)
    decreases |c.locals|
  {
    if c.locals != [] {
      var n := |c.locals| - 1;
      var d := c.(locals := c.locals[..n]);
      RedeclaredIff(d, name);
      if Here(d, name) {
        var i :| 0 <= i < n && d.locals[i].depth == c.depth && d.locals[i].name == name;
        assert c.locals[i] == d.locals[i];
      }
    }
  }

  predicate NewNames(names: seq<string>, c: Scope) {
    && (forall i, j :: 0 <= i < j < |names| ==> names[i] != names[j])
    && (forall i :: 0 <= i < |names| ==> !Here(c, names[i]))
  }

  lemma HereAfter(s: Stmt, c: Scope, name: string)
    requires s.Let? && c.depth > 0
    ensures Here(After(s, c), name) <==> Here(c, name) || name == s.name
  {
    var d := After(s, c);
    if Here(c, name) {
      var i :| 0 <= i < |c.locals| && c.locals[i].depth == c.depth && c.locals[i].name == name;
      assert d.locals[i] == c.locals[i];
    }
    assert d.locals[|c.locals|].name == s.name;
  }

  lemma NewNamesStep(s: Stmt, rest: Stmts, c: Scope)
    requires c.depth > 0
    ensures NewNames(Own(Then(s, rest)), c) <==> (s.Let? ==> !Here(c, s.name)) && NewNames(Own(rest), After(s, c))
  {
    hide Here;
    var ns, more := Own(Then(s, rest)), Own(rest);
    if s.Let? {
      forall name ensures Here(After(s, c), name) <==> Here(c, name) || name == s.name {
        HereAfter(s, c, name);
      }
      assert ns[0] == s.name && forall i :: 0 <= i < |more| ==> ns[i + 1] == more[i];
      assert forall i :: 0 < i < |ns| ==> ns[i] == more[i - 1];
    } else {
      assert ns == more;
    }
  }

  lemma NoneHere(c: Scope, name: string)
    requires Scoped(c)
    ensures !Here(Inner(c), name)
  {
  }

  // --- Pools ---

  lemma {:induction false} LiteralsPooled(e: Expr, locals: seq<Local>, pools: Pools)
    ensures |ExprPools(e, locals, pools).consts| == |pools.consts| + Literals(e)
    decreases e
  {
    match e
    case Binary(_, l, r) => LiteralsPooled(l, locals, pools); LiteralsPooled(r, locals, ExprPools(l, locals, pools));
    case And(l, r) => LiteralsPooled(l, locals, pools); LiteralsPooled(r, locals, ExprPools(l, locals, pools));
    case Or(l, r) => LiteralsPooled(l, locals, pools); LiteralsPooled(r, locals, ExprPools(l, locals, pools));
    case Unary(_, x) => LiteralsPooled(x, locals, pools);
    case Ternary(c, t, f) =>
      LiteralsPooled(c, locals, pools);
      LiteralsPooled(t, locals, ExprPools(c, locals, pools));
      LiteralsPooled(f, locals, ExprPools(t, locals, ExprPools(c, locals, pools)));
    case Assign(name, aop, rhs) => LiteralsPooled(rhs, locals, if aop.Some? then VarPools(name, locals, pools) else pools);
    case _ =>
  }

  lemma {:induction false} ExprIff(e: Expr, locals: seq<Local>, pools: Pools)
    requires |pools.consts| <= 0x10000
    ensures ExprOk(e, locals, pools) <==> |pools.consts| + Literals(e) <= 0x10000 && Writable(e, locals)
    decreases e
  {
    match e
    case Lit(_) =>
    case Ident(_) =>
    case Unary(_, x) => ExprIff(x, locals, pools);
    case Assign(name, aop, rhs) => ExprIff(rhs, locals, if aop.Some? then VarPools(name, locals, pools) else pools);
    case Ternary(c, t, f) =>
      TernaryIff(e, locals, pools);
    case _ =>
      PairOk(e, locals, pools);
      LiteralsPooled(e.left, locals, pools);
      ExprIff(e.left, locals, pools);
      if ExprOk(e.left, locals, pools) {
        ExprIff(e.right, locals, ExprPools(e.left, locals, pools));
      }
  }

  lemma {:induction false} TernaryIff(e: Expr, locals: seq<Local>, pools: Pools)
    requires e.Ternary? && |pools.consts| <= 0x10000
    ensures ExprOk(e, locals, pools) <==> |pools.consts| + Literals(e) <= 0x10000 && Writable(e, locals)
    decreases e, 0
  {
    TernaryOk(e, locals, pools);
    var p1 := ExprPools(e.cond, locals, pools);
    LiteralsPooled(e.cond, locals, pools);
    LiteralsPooled(e.thn, locals, p1);
    ExprIff(e.cond, locals, pools);
    if ExprOk(e.cond, locals, pools) {
      ExprIff(e.thn, locals, p1);
      if ExprOk(e.thn, locals, p1) {
        ExprIff(e.els, locals, ExprPools(e.thn, locals, p1));
      }
    }
  }

  lemma {:induction false} ListPooled(ss: Stmts, c: Scope, top: bool, pools: Pools)
    ensures |ListPools(ss, c, pools).consts| == |pools.consts| + ListExtent(ss, top).literals
    decreases ss, 1
  {
    if ss.Then? {
      StmtPooled(ss.head, c, top, pools);
      ListPooled(ss.tail, After(ss.head, c), top, StmtPools(ss.head, c, pools));
    }
  }

  lemma {:induction false} StmtPooled(s: Stmt, c: Scope, top: bool, pools: Pools)
    ensures |StmtPools(s, c, pools).consts| == |pools.consts| + StmtExtent(s, top).literals
    decreases s, 1
  {
    match s
    case Let(_, _, e) => LiteralsPooled(e, c.locals, pools);
    case Eval(e) => LiteralsPooled(e, c.locals, pools);
    case IfStmt(i) => IfPooled(i, c, pools);
    case While(cond, body) =>
      LiteralsPooled(cond, c.locals, pools);
      ListPooled(body, Inner(InLoop(c)), false, ExprPools(cond, c.locals, pools));
    case Block(ss) => ListPooled(ss, Inner(c), false, pools);
    case _ =>
  }

  lemma {:induction false} IfPooled(i: If, c: Scope, pools: Pools)
    ensures |IfPools(i, c, pools).consts| == |pools.consts| + IfExtent(i).literals
    decreases i, 1
  {
    LiteralsPooled(i.cond, c.locals, pools);
    var p1 := ExprPools(i.cond, c.locals, pools);
    ListPooled(i.thn, Inner(c), false, p1);
    match i.els
    case NoElse =>
    case ElseBlock(ss) => ListPooled(ss, Inner(c), false, ListPools(i.thn, Inner(c), p1));
    case ElseIf(j) => IfPooled(j, c, ListPools(i.thn, Inner(c), p1));
  }

  // --- Every rule, in the middle of a source ---

  // No limit has been passed so far.
  predicate Open(c: Scope, heads: seq<nat>, pools: Pools) {
    Scoped(c) && |c.locals| <= 256 && |heads| <= 32 && |pools.consts| <= 0x10000
  }

  // The next n bytes lie in the innermost loop, which is short.
  predicate Inside(heads: seq<nat>, a: nat, n: nat) {
    heads != [] ==> a + n <= heads[|heads| - 1] + 0xFFFF
  }

  predicate Room(x: Extent, c: Scope, heads: seq<nat>, pools: Pools) {
    Within(x, |c.locals|, |heads|, |pools.consts|)
  }

  predicate StmtRules(s: Stmt, c: Scope, heads: seq<nat>, pools: Pools) {
    && (s.Let? && c.depth > 0 ==> !Here(c, s.name)) && StmtOnce(s) && StmtLeaves(s, heads != [])
    && Room(StmtExtent(s, c.depth == 0), c, heads, pools) && StmtSound(s, c)
  }

  predicate ListRules(ss: Stmts, c: Scope, heads: seq<nat>, pools: Pools) {
    && (c.depth > 0 ==> NewNames(Own(ss), c)) && ListOnce(ss) && ListLeaves(ss, heads != [])
    && Room(ListExtent(ss, c.depth == 0), c, heads, pools) && ListSound(ss, c)
  }

  predicate IfRules(i: If, c: Scope, heads: seq<nat>, pools: Pools) {
    IfOnce(i) && IfLeaves(i, heads != []) && Room(IfExtent(i), c, heads, pools) && IfSound(i, c)
  }

  predicate ElseRules(x: Else, c: Scope, heads: seq<nat>, pools: Pools) {
    ElseOnce(x) && ElseLeaves(x, heads != []) && Room(ElseExtent(x), c, heads, pools) && ElseSound(x, c)
  }

  lemma RoomStep(s: Stmt, rest: Stmts, c: Scope, heads: seq<nat>, pools: Pools)
    ensures var top := c.depth == 0;
            Room(ListExtent(Then(s, rest), top), c, heads, pools) <==>
            Room(StmtExtent(s, top), c, heads, pools) && Room(ListExtent(rest, top), After(s, c), heads, StmtPools(s, c, pools))
  {
    StmtPooled(s, c, c.depth == 0, pools);
    hide StmtPools, StmtExtent;
    var top := c.depth == 0;
    assert s.Let? && !top ==> |After(s, c).locals| == |c.locals| + 1;
    assert ListExtent(Then(s, rest), top) ==
           Beside(StmtExtent(s, top), if s.Let? && !top then ListExtent(rest, top).(locals := 1 + ListExtent(rest, top).locals) else ListExtent(rest, top));
  }

  lemma ListStep(s: Stmt, rest: Stmts, c: Scope, heads: seq<nat>, pools: Pools)
    ensures ListRules(Then(s, rest), c, heads, pools) <==>
            StmtRules(s, c, heads, pools) && ListRules(rest, After(s, c), heads, StmtPools(s, c, pools))
  {
    hide Room, NewNames, Own, ListExtent, StmtPools, StmtExtent, StmtOnce, StmtLeaves, StmtSound, Here;
    if c.depth > 0 {
      NewNamesStep(s, rest, c);
    }
    RoomStep(s, rest, c, heads, pools);
  }

  // A block's rules are those of its statements.
  lemma BlockStep(ss: Stmts, c: Scope, heads: seq<nat>, pools: Pools)
    requires Scoped(c)
    ensures ListRules(ss, Inner(c), heads, pools) <==>
            BlockOnce(ss) && ListLeaves(ss, heads != []) && Room(ListExtent(ss, false), c, heads, pools) && ListSound(ss, Inner(c))
  {
    forall name ensures !Here(Inner(c), name) {
      NoneHere(c, name);
    }
    hide ListOnce, ListLeaves, ListExtent, ListSound, Here, Own;
  }

  lemma {:induction false} ListIff(ss: Stmts, c: Scope, heads: seq<nat>, a: nat, pools: Pools)
    requires Open(c, heads, pools) && Inside(heads, a, SizeList(ss, c))
    ensures ListOk(ss, c, heads, a, pools) <==> ListRules(ss, c, heads, pools)
    decreases ss, 1
  {
    hide *;
    if ss.Done? {
      NoneRules(c, heads, a, pools);
    } else {
      var s, p1 := ss.head, StmtPools(ss.head, c, pools);
      ListOpened(ss, c, heads, a, pools);
      InsideParts(heads, a, SizeStmt(s, c), SizeList(ss.tail, After(s, c)));
      StmtIff(s, c, heads, a, pools);
      ListStep(s, ss.tail, c, heads, pools);
      if StmtRules(s, c, heads, pools) {
        StillOpen(s, c, heads, pools);
        ListIff(ss.tail, After(s, c), heads, a + SizeStmt(s, c), p1);
      }
    }
  }

  lemma ListOpened(ss: Stmts, c: Scope, heads: seq<nat>, a: nat, pools: Pools)
    requires ss.Then?
    ensures var s := ss.head;
            && SizeList(ss, c) == SizeStmt(s, c) + SizeList(ss.tail, After(s, c))
            && (ListOk(ss, c, heads, a, pools) <==>
                StmtOk(s, c, heads, a, pools) && ListOk(ss.tail, After(s, c), heads, a + SizeStmt(s, c), StmtPools(s, c, pools)))
  {
    hide StmtOk, SizeStmt, StmtPools;
  }

  lemma InsideParts(heads: seq<nat>, a: nat, m: nat, n: nat)
    requires Inside(heads, a, m + n)
    ensures Inside(heads, a, m) && Inside(heads, a + m, n)
  {
  }

  lemma NoneRules(c: Scope, heads: seq<nat>, a: nat, pools: Pools)
    requires Open(c, heads, pools)
    ensures ListOk(Done, c, heads, a, pools) && ListRules(Done, c, heads, pools)
  {
  }

  lemma StillOpen(s: Stmt, c: Scope, heads: seq<nat>, pools: Pools)
    requires Open(c, heads, pools) && StmtRules(s, c, heads, pools)
    ensures Open(After(s, c), heads, StmtPools(s, c, pools))
  {
    StmtPooled(s, c, c.depth == 0, pools);
    hide StmtPools, StmtOnce, StmtLeaves, StmtSound, Here;
  }

  lemma {:induction false} StmtIff(s: Stmt, c: Scope, heads: seq<nat>, a: nat, pools: Pools)
    requires Open(c, heads, pools) && Inside(heads, a, SizeStmt(s, c))
    ensures StmtOk(s, c, heads, a, pools) <==> StmtRules(s, c, heads, pools)
    decreases s, 1
  {
    match s
    case Let(name, _, e) =>
      LetIff(s, c, heads, a, pools);
    case Eval(e) =>
      hide ExprOk, Literals, Writable, Scoped;
      ExprIff(e, c.locals, pools);
    case IfStmt(i) =>
      hide IfOk, IfOnce, IfLeaves, IfExtent, IfSound, SizeIf, Scoped;
      IfIff(i, c, heads, a, pools);
    case While(cond, body) => WhileIff(s, c, heads, a, pools);
    case Block(ss) =>
      hide ListOk, ListRules, BlockOnce, ListLeaves, ListExtent, ListSound, SizeList, Scoped;
      OpenIs(c, heads, pools);
      BlockStep(ss, c, heads, pools);
      ListIff(ss, Inner(c), heads, a, pools);
    case Break =>
    case Continue =>
  }

  lemma LetIff(s: Stmt, c: Scope, heads: seq<nat>, a: nat, pools: Pools)
    requires s.Let? && Open(c, heads, pools)
    ensures StmtOk(s, c, heads, a, pools) <==> StmtRules(s, c, heads, pools)
  {
    hide Redeclared, Here, ExprOk, Literals, Writable, Scoped;
    RedeclaredIff(c, s.name);
    ExprIff(s.init, c.locals, pools);
  }

  // A loop's rules are those of its parts.
  lemma WhileStep(s: Stmt, c: Scope, heads: seq<nat>, a: nat, pools: Pools)
    requires s.While? && Scoped(c)
    ensures var p1, d := ExprPools(s.cond, c.locals, pools), InLoop(c);
            && |p1.consts| == |pools.consts| + Literals(s.cond) && Scoped(d)
            && (StmtRules(s, c, heads, pools) <==>
                && |heads| + 1 <= 32 && |p1.consts| <= 0x10000 && Writable(s.cond, c.locals) && |c.locals| <= 256
                && ListRules(s.body, Inner(d), heads + [a], p1) && SizeExpr(s.cond) + 4 + SizeBlock(s.body, d) + 3 <= 0xFFFF)
  {
    var p1, d := ExprPools(s.cond, c.locals, pools), InLoop(c);
    LiteralsPooled(s.cond, c.locals, pools);
    BlockStep(s.body, d, heads + [a], p1);
    hide ListRules, BlockOnce, ListLeaves, ListExtent, ListSound, Writable, Literals, ExprPools, SizeBlock, SizeExpr;
  }

  lemma WhileOpened(s: Stmt, c: Scope, heads: seq<nat>, a: nat, pools: Pools)
    requires s.While?
    ensures var p1, d, b := ExprPools(s.cond, c.locals, pools), InLoop(c), a + SizeExpr(s.cond) + 4;
            && SizeBlock(s.body, d) == SizeList(s.body, Inner(d)) + Declared(s.body)
            && (StmtOk(s, c, heads, a, pools) <==>
                && |heads| < 32 && ExprOk(s.cond, c.locals, pools) && ListOk(s.body, Inner(d), heads + [a], b, p1)
                && b + SizeBlock(s.body, d) + 3 - a <= 0xFFFF)
  {
    hide ExprOk, ListOk, SizeExpr, SizeList, ExprPools;
  }

  lemma InsideNew(heads: seq<nat>, a: nat, b: nat, n: nat)
    requires b + n <= a + 0xFFFF
    ensures Inside(heads + [a], b, n)
  {
  }

  lemma OpenIs(c: Scope, heads: seq<nat>, pools: Pools)
    ensures Open(c, heads, pools) <==> Scoped(c) && |c.locals| <= 256 && |heads| <= 32 && |pools.consts| <= 0x10000
    ensures Scoped(c) ==> Scoped(Inner(c)) && Inner(c).locals == InLoop(c).locals == c.locals
  {
  }

  lemma {:induction false} WhileIff(s: Stmt, c: Scope, heads: seq<nat>, a: nat, pools: Pools)
    requires s.While? && Open(c, heads, pools)
    ensures StmtOk(s, c, heads, a, pools) <==> StmtRules(s, c, heads, pools)
    decreases s, 0
  {
    hide *;
    OpenIs(c, heads, pools);
    WhileStep(s, c, heads, a, pools);
    WhileOpened(s, c, heads, a, pools);
    ExprIff(s.cond, c.locals, pools);
    var p1, d, b := ExprPools(s.cond, c.locals, pools), InLoop(c), a + SizeExpr(s.cond) + 4;
    if |heads| < 32 && ExprOk(s.cond, c.locals, pools) && b + SizeBlock(s.body, d) + 3 - a <= 0xFFFF {
      OpenIs(d, heads, pools);
      OpenIs(Inner(d), heads + [a], p1);
      InsideNew(heads, a, b, SizeList(s.body, Inner(d)));
      ListIff(s.body, Inner(d), heads + [a], b, p1);
    }
  }

  lemma {:induction false} TailSize(ss: Stmts, c: Scope)
    ensures SizeList(ss, c) <= SizeTail(ss, c) + 1
    decreases ss
  {
    if ss.Then? {
      TailSize(ss.tail, After(ss.head, c));
    }
    hide SizeExpr;
  }

  // A conditional's rules are those of its parts.
  lemma IfStep(i: If, c: Scope, heads: seq<nat>, pools: Pools)
    requires Open(c, heads, pools)
    ensures var p1 := ExprPools(i.cond, c.locals, pools);
            var p2 := ListPools(i.thn, Inner(c), p1);
            && |p1.consts| == |pools.consts| + Literals(i.cond)
            && (ListRules(i.thn, Inner(c), heads, p1) ==> Open(c, heads, p2))
            && (IfRules(i, c, heads, pools) <==>
                |p1.consts| <= 0x10000 && Writable(i.cond, c.locals) && ListRules(i.thn, Inner(c), heads, p1) && ElseRules(i.els, c, heads, p2))
  {
    var p1 := ExprPools(i.cond, c.locals, pools);
    LiteralsPooled(i.cond, c.locals, pools);
    ListPooled(i.thn, Inner(c), false, p1);
    BlockStep(i.thn, c, heads, p1);
    hide ListRules, BlockOnce, ListLeaves, ListExtent, ListSound, Writable, Literals, ExprPools, ListPools, ElseOnce, ElseLeaves,
         ElseExtent, ElseSound, Scoped;
  }

  lemma IfOpened(i: If, c: Scope, heads: seq<nat>, a: nat, pools: Pools)
    ensures var b, p1, n := a + SizeExpr(i.cond) + 4, ExprPools(i.cond, c.locals, pools), SizeBranch(i.thn, c);
            && SizeIf(i, c) == SizeExpr(i.cond) + 4 + n + 4 + SizeElse(i.els, c) && n == SizeTail(i.thn, Inner(c)) + Declared(i.thn)
            && (IfOk(i, c, heads, a, pools) <==>
                && ExprOk(i.cond, c.locals, pools) && ListOk(i.thn, Inner(c), heads, b, p1)
                && ElseOk(i.els, c, heads, b + n + 4, ListPools(i.thn, Inner(c), p1)))
  {
    hide ExprOk, ListOk, ElseOk, SizeExpr, SizeTail, SizeElse, ExprPools, ListPools;
  }

  lemma InsideLess(heads: seq<nat>, a: nat, n: nat, b: nat, m: nat)
    requires Inside(heads, a, n) && b + m <= a + n
    ensures Inside(heads, b, m)
  {
  }

  lemma {:induction false} IfIff(i: If, c: Scope, heads: seq<nat>, a: nat, pools: Pools)
    requires Open(c, heads, pools) && Inside(heads, a, SizeIf(i, c) + 1)
    ensures IfOk(i, c, heads, a, pools) <==> IfRules(i, c, heads, pools)
    decreases i, 1
  {
    hide *;
    var b, p1, n := a + SizeExpr(i.cond) + 4, ExprPools(i.cond, c.locals, pools), SizeBranch(i.thn, c);
    OpenIs(c, heads, pools);
    ExprIff(i.cond, c.locals, pools);
    IfStep(i, c, heads, pools);
    IfOpened(i, c, heads, a, pools);
    if ExprOk(i.cond, c.locals, pools) {
      OpenIs(Inner(c), heads, p1);
      TailSize(i.thn, Inner(c));
      InsideLess(heads, a, SizeIf(i, c) + 1, b, SizeList(i.thn, Inner(c)));
      ListIff(i.thn, Inner(c), heads, b, p1);
      if ListRules(i.thn, Inner(c), heads, p1) {
        InsideLess(heads, a, SizeIf(i, c) + 1, b + n + 4, SizeElse(i.els, c) + 1);
        ElseIff(i.els, c, heads, b + n + 4, ListPools(i.thn, Inner(c), p1));
      }
    }
  }

  lemma ElseOpened(x: Else, c: Scope, heads: seq<nat>, a: nat, pools: Pools)
    requires Open(c, heads, pools)
    ensures x.NoElse? ==> ElseOk(x, c, heads, a, pools) && ElseRules(x, c, heads, pools)
    ensures x.ElseIf? ==> SizeElse(x, c) == SizeIf(x.branch, c) && (ElseOk(x, c, heads, a, pools) <==> IfOk(x.branch, c, heads, a, pools))
                          && (ElseRules(x, c, heads, pools) <==> IfRules(x.branch, c, heads, pools))
    ensures x.ElseBlock? ==> SizeElse(x, c) == SizeTail(x.stmts, Inner(c)) + Declared(x.stmts)
                             && (ElseOk(x, c, heads, a, pools) <==> ListOk(x.stmts, Inner(c), heads, a, pools))
                             && (ElseRules(x, c, heads, pools) <==> ListRules(x.stmts, Inner(c), heads, pools))
  {
    if x.ElseBlock? {
      BlockStep(x.stmts, c, heads, pools);
    }
    hide ListRules, BlockOnce, ListLeaves, ListExtent, ListSound, ListOk, IfOk, IfOnce, IfLeaves, IfExtent, IfSound, SizeTail, SizeIf;
  }

  lemma {:induction false} ElseIff(x: Else, c: Scope, heads: seq<nat>, a: nat, pools: Pools)
    requires Open(c, heads, pools) && Inside(heads, a, SizeElse(x, c) + 1)
    ensures ElseOk(x, c, heads, a, pools) <==> ElseRules(x, c, heads, pools)
    decreases x, 1
  {
    hide *;
    ElseOpened(x, c, heads, a, pools);
    OpenIs(c, heads, pools);
    OpenIs(Inner(c), heads, pools);
    match x
    case NoElse =>
    case ElseBlock(ss) =>
      TailSize(ss, Inner(c));
      InsideLess(heads, a, SizeElse(x, c) + 1, a, SizeList(ss, Inner(c)));
      ListIff(ss, Inner(c), heads, a, pools);
    case ElseIf(i) => IfIff(i, c, heads, a, pools);
  }

  // A source breaks no rule of the compiler, step by step, if and only if it is one of these.
  lemma AcceptedIff(ss: Stmts)
    ensures ListOk(ss, TOP, [], 0, Pools([], [])) <==> Accepted(ss)
  {
    ListIff(ss, TOP, [], 0, Pools([], []));
  }
}
