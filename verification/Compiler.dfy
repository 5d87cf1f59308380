/** The stack compiler of src/lang/compiler.c: a walk over the tree that appends to a chunk, patches
    jumps in place, and keeps the locals in scope, the scope depth and the open loops with their
    unpatched breaks. What it leaves behind has the layout that the correctness proof is about.
 */
module StackCompiler {
  import opened Ast
  import opened StackCode
  import opened StackBuild
  import opened StackPatch

  datatype LoopContext = LoopContext(start: nat, breaks: seq<nat>, scopeDepth: nat)

  // How many locals at the end are declared deeper than `depth`.
  function Trailing(locals: seq<Local>, depth: nat): (n: nat)
    ensures n <= |locals|
    ensures forall i :: |locals| - n <= i < |locals| ==> locals[i].depth > depth
    ensures n < |locals| ==> locals[|locals| - n - 1].depth <= depth
    decreases |locals|
  {
    var n := |locals| - 1;
    if n < 0 || locals[n].depth <= depth then 0 else 1 + Trailing(locals[..n], depth)
  }

  // The compiler's state between two statements.
  datatype Point = Point(code: seq<byte>, pools: Pools, locals: seq<Local>, depth: nat, loops: seq<LoopContext>)

  function ScopeOf(x: Point): Scope {
    Scope(x.locals, x.depth, if x.loops == [] then |x.locals| else Trailing(x.locals, x.loops[|x.loops| - 1].scopeDepth))
  }

  // The innermost loop, whose end is not known yet.
  function LoopOf(x: Point): Option<Loop> {
    if x.loops == [] then None else Some(Loop(x.loops[|x.loops| - 1].start, None))
  }

  function HeadsOf(x: Point): seq<nat> {
    seq(|x.loops|, i requires 0 <= i < |x.loops| => x.loops[i].start)
  }

  function Record(loops: seq<LoopContext>, sites: seq<nat>): seq<LoopContext> {
    if loops == [] then loops
    else loops[|loops| - 1 := loops[|loops| - 1].(breaks := loops[|loops| - 1].breaks + sites)]
  }

  // From x to y, code and pools have grown, locals and depth are those of `c`, breaks are recorded.
  ghost predicate Grown(x: Point, y: Point, size: nat, pools: Pools, c: Scope, sites: seq<nat>) {
    && x.code <= y.code && |y.code| == |x.code| + size && y.pools == pools
    && y.locals == c.locals && y.depth == c.depth && y.loops == Record(x.loops, sites)
  }

  ghost predicate StmtMade(x: Point, y: Point, s: Stmt) {
    var c, a := ScopeOf(x), |x.code|;
    && Grown(x, y, SizeStmt(s, c), StmtPools(s, c, x.pools), After(s, c), SitesStmt(s, c, a))
    && StmtAt(y.code, a, s, c, LoopOf(x), x.pools)
  }

  ghost predicate ListMade(x: Point, y: Point, ss: Stmts) {
    var c, a := ScopeOf(x), |x.code|;
    && Grown(x, y, SizeList(ss, c), ListPools(ss, c, x.pools), AfterList(ss, c), SitesList(ss, c, a))
    && ListAt(y.code, a, ss, c, LoopOf(x), x.pools)
  }

  ghost predicate BlockMade(x: Point, y: Point, ss: Stmts) {
    var c, a := ScopeOf(x), |x.code|;
    && Grown(x, y, SizeBlock(ss, c), ListPools(ss, Inner(c), x.pools), c, SitesList(ss, Inner(c), a))
    && BlockAt(y.code, a, ss, c, LoopOf(x), x.pools)
  }

  ghost predicate TailMade(x: Point, y: Point, ss: Stmts) {
    var c, a := ScopeOf(x), |x.code|;
    && Grown(x, y, SizeTail(ss, c), ListPools(ss, c, x.pools), AfterList(ss, c), SitesTail(ss, c, a))
    && TailAt(y.code, a, ss, c, LoopOf(x), x.pools)
  }

  ghost predicate BranchMade(x: Point, y: Point, ss: Stmts) {
    var c, a := ScopeOf(x), |x.code|;
    && Grown(x, y, SizeBranch(ss, c), ListPools(ss, Inner(c), x.pools), c, SitesTail(ss, Inner(c), a))
    && BranchAt(y.code, a, ss, c, LoopOf(x), x.pools)
  }

  ghost predicate IfMade(x: Point, y: Point, i: If) {
    var c, a := ScopeOf(x), |x.code|;
    && Grown(x, y, SizeIf(i, c), IfPools(i, c, x.pools), c, SitesIf(i, c, a))
    && IfAt(y.code, a, i, c, LoopOf(x), x.pools)
  }

  ghost predicate ElseMade(x: Point, y: Point, e: Else) {
    var c, a := ScopeOf(x), |x.code|;
    && Grown(x, y, SizeElse(e, c), ElsePools(e, c, x.pools), c, SitesElse(e, c, a))
    && ElseAt(y.code, a, e, c, LoopOf(x), x.pools)
  }

  // Breaks are recorded without touching anything else about the loops.
  lemma RecordKeeps(x: Point, y: Point, sites: seq<nat>)
    requires y.loops == Record(x.loops, sites)
    ensures LoopOf(y) == LoopOf(x) && HeadsOf(y) == HeadsOf(x) && |y.loops| == |x.loops|
    ensures x.loops != [] ==> y.loops[|y.loops| - 1].scopeDepth == x.loops[|x.loops| - 1].scopeDepth
  {
  }

  lemma RecordTwice(loops: seq<LoopContext>, s1: seq<nat>, s2: seq<nat>)
    ensures Record(Record(loops, s1), s2) == Record(loops, s1 + s2)
    ensures Record(loops, []) == loops
  {
    if loops != [] {
      var n := |loops| - 1;
      assert loops[n].breaks + s1 + s2 == loops[n].breaks + (s1 + s2);
      assert Record(Record(loops, s1), s2) == Record(loops, s1 + s2);
      assert loops[n].breaks + [] == loops[n].breaks;
      assert Record(loops, []) == loops;
    }
  }

  // Locals are in the order of their scopes.
  predicate Ordered(locals: seq<Local>, depth: nat) {
    && |locals| <= 256
    && (forall i :: 0 <= i < |locals| ==> locals[i].depth <= depth)
    && (forall i, j :: 0 <= i < j < |locals| ==> locals[i].depth <= locals[j].depth)
  }

  // Statements stand deeper than the loop they stand in.
  predicate InBody(x: Point) {
    x.loops == [] || x.loops[|x.loops| - 1].scopeDepth < x.depth
  }

  lemma TrailingMore(locals: seq<Local>, l: Local, depth: nat)
    requires l.depth > depth
    ensures Trailing(locals + [l], depth) == Trailing(locals, depth) + 1
  {
    assert (locals + [l])[..|locals|] == locals;
  }

  // After a statement, the scope is the one the layout speaks of.
  lemma ScopeAfter(x: Point, y: Point, s: Stmt, sites: seq<nat>)
    requires InBody(x) && y.locals == After(s, ScopeOf(x)).locals && y.depth == After(s, ScopeOf(x)).depth && y.loops == Record(x.loops, sites)
    ensures ScopeOf(y) == After(s, ScopeOf(x)) && InBody(y)
  {
    RecordKeeps(x, y, sites);
    if s.Let? && x.depth > 0 && x.loops != [] {
      TrailingMore(x.locals, Local(s.name, x.depth, s.isConst), x.loops[|x.loops| - 1].scopeDepth);
    }
  }

  lemma ListCompose(x: Point, y: Point, z: Point, ss: Stmts)
    requires ss.Then? && InBody(x) && StmtMade(x, y, ss.head) && ListMade(y, z, ss.tail)
    ensures ListMade(x, z, ss)
  {
    hide SizeStmt, StmtPools, SitesStmt, StmtAt, ScopeOf, LoopOf, Record, InBody;
    var c, a := ScopeOf(x), |x.code|;
    ScopeAfter(x, y, ss.head, SitesStmt(ss.head, c, a));
    RecordKeeps(x, y, SitesStmt(ss.head, c, a));
    RecordTwice(x.loops, SitesStmt(ss.head, c, a), SitesList(ss.tail, ScopeOf(y), |y.code|));
    ListBuilt(y.code, z.code, a, ss, c, LoopOf(x), x.pools);
  }

  lemma TailCompose(x: Point, y: Point, z: Point, ss: Stmts)
    requires ss.Then? && !(ss.head.Eval? && ss.tail.Done?) && InBody(x) && StmtMade(x, y, ss.head) && TailMade(y, z, ss.tail)
    ensures TailMade(x, z, ss)
  {
    hide SizeStmt, StmtPools, SitesStmt, StmtAt, ScopeOf, LoopOf, Record, InBody, ExprAt;
    var c, a := ScopeOf(x), |x.code|;
    ScopeAfter(x, y, ss.head, SitesStmt(ss.head, c, a));
    RecordKeeps(x, y, SitesStmt(ss.head, c, a));
    RecordTwice(x.loops, SitesStmt(ss.head, c, a), SitesTail(ss.tail, ScopeOf(y), |y.code|));
    TailBuilt(y.code, z.code, a, ss, c, LoopOf(x), x.pools);
  }

  lemma {:induction false} ListLocals(ss: Stmts, c: Scope)
    requires c.depth > 0
    ensures var r := AfterList(ss, c);
            && r.depth == c.depth && c.locals <= r.locals && |r.locals| == |c.locals| + Declared(ss)
            && forall i :: |c.locals| <= i < |r.locals| ==> r.locals[i].depth == c.depth
  {
    match ss
    case Done =>
    case Then(s, rest) => ListLocals(rest, After(s, c));
  }

  lemma {:induction false} TrailingIs(locals: seq<Local>, k: nat, depth: nat)
    requires k <= |locals| && (k > 0 ==> locals[k - 1].depth <= depth)
    requires forall i :: k <= i < |locals| ==> locals[i].depth > depth
    ensures Trailing(locals, depth) == |locals| - k
    decreases |locals|
  {
    if |locals| > k {
      TrailingIs(locals[..|locals| - 1], k, depth);
    }
  }

  lemma TrailingEnd(locals: seq<Local>, depth: nat)
    requires locals == [] || locals[|locals| - 1].depth <= depth
    ensures Trailing(locals, depth) == 0
  {
  }

  lemma MorePops(code: seq<byte>, n: nat)
    ensures code + Pops(n) + [OP_POP] == code + Pops(n + 1)
  {
  }

  // Leaving a scope drops exactly the locals that its statements declared.
  lemma Dropped(ss: Stmts, c: Scope)
    requires Ordered(c.locals, c.depth)
    ensures var r := AfterList(ss, Inner(c)).locals;
            && Trailing(r, c.depth) == Declared(ss)
            && |r| - Declared(ss) == |c.locals| && r[..|c.locals|] == c.locals
  {
    hide AfterList, Declared;
    ListLocals(ss, Inner(c));
    var r, d := AfterList(ss, Inner(c)).locals, Declared(ss);
    TrailingIs(r, |c.locals|, c.depth);
  }

  predicate LoopsWithin(loops: seq<LoopContext>, n: nat) {
    forall i :: 0 <= i < |loops| ==> loops[i].start <= n && Inside(loops[i].breaks, n)
  }

  lemma WithinGrows(loops: seq<LoopContext>, n: nat, n': nat)
    requires LoopsWithin(loops, n) && n <= n'
    ensures LoopsWithin(loops, n')
  {
  }

  predicate Near(x: Point) {
    x.loops == [] || x.loops[|x.loops| - 1].scopeDepth <= x.depth
  }

  // Entering a scope.
  function Deeper(x: Point): Point {
    x.(depth := x.depth + 1)
  }

  // Leaving a scope.
  function Shallower(y: Point, depth: nat): Point {
    var n := Trailing(y.locals, depth);
    y.(depth := depth, locals := y.locals[..|y.locals| - n], code := y.code + Pops(n))
  }

  lemma DeeperScope(x: Point)
    ensures ScopeOf(Deeper(x)) == Inner(ScopeOf(x)) && LoopOf(Deeper(x)) == LoopOf(x) && HeadsOf(Deeper(x)) == HeadsOf(x)
    ensures Near(x) ==> InBody(Deeper(x))
  {
  }

  lemma BlockCompose(x: Point, y: Point, ss: Stmts)
    requires Ordered(x.locals, x.depth) && ListMade(Deeper(x), y, ss)
    ensures BlockMade(x, Shallower(y, x.depth), ss)
  {
    hide SizeList, ListPools, SitesList, ListAt, BlockAt, SizeBlock, ScopeOf, LoopOf, Record, Ordered, AfterList, Declared, Trailing;
    DeeperScope(x);
    ScopeLocals(x);
    Dropped(ss, ScopeOf(x));
    BlockBuilt(y.code, |x.code|, ss, ScopeOf(x), LoopOf(x), x.pools);
  }

  lemma BranchCompose(x: Point, y: Point, ss: Stmts)
    requires Ordered(x.locals, x.depth) && TailMade(Deeper(x), y, ss)
    ensures BranchMade(x, Shallower(y, x.depth), ss)
  {
    hide SizeTail, ListPools, SitesTail, TailAt, BranchAt, SizeBranch, ScopeOf, LoopOf, Record, Ordered, AfterList, Declared, Trailing;
    DeeperScope(x);
    ScopeLocals(x);
    Dropped(ss, ScopeOf(x));
    BranchBuilt(y.code, |x.code|, ss, ScopeOf(x), LoopOf(x), x.pools);
  }

  lemma ScopeLocals(x: Point)
    ensures ScopeOf(x).locals == x.locals && ScopeOf(x).depth == x.depth
  {
  }

  lemma EvalMade(x: Point, y: Point, c1: seq<byte>, s: Stmt)
    requires s.Eval? && ExprAt(c1, |x.code|, s.e, x.locals, x.pools) && |c1| == |x.code| + SizeExpr(s.e) && x.code <= c1
    requires y == x.(code := c1 + [OP_POP], pools := ExprPools(s.e, x.locals, x.pools))
    ensures StmtMade(x, y, s)
  {
    hide ExprAt, OpAt, SizeExpr, ExprPools, Trailing;
    Grows(c1, y.code, |x.code|, s.e, x.locals, x.pools);
    AtEnd(c1, OP_POP);
    RecordTwice(x.loops, [], []);
  }

  lemma LocalMade(x: Point, y: Point, s: Stmt)
    requires s.Let? && x.depth > 0 && ExprAt(y.code, |x.code|, s.init, x.locals, x.pools)
    requires |y.code| == |x.code| + SizeExpr(s.init) && x.code <= y.code
    requires y == x.(code := y.code, pools := ExprPools(s.init, x.locals, x.pools),
                     locals := x.locals + [Local(s.name, x.depth, s.isConst)])
    ensures StmtMade(x, y, s)
  {
    hide ExprAt, SizeExpr, ExprPools, Trailing;
    RecordTwice(x.loops, [], []);
  }

  lemma GlobalMade(x: Point, y: Point, c1: seq<byte>, s: Stmt)
    requires s.Let? && x.depth == 0 && ExprAt(c1, |x.code|, s.init, x.locals, x.pools)
    requires |c1| == |x.code| + SizeExpr(s.init) && x.code <= c1
    requires var p1 := ExprPools(s.init, x.locals, x.pools);
             y == x.(code := c1 + [OP_SET_GLOBAL] + HighLow(IndexOf(p1.strings, s.name)) + [OP_POP],
                     pools := p1.(strings := AddString(p1.strings, s.name)))
    ensures StmtMade(x, y, s)
  {
    hide ExprAt, OpAt, ArgAt, SizeExpr, ExprPools, Trailing, IndexOf, AddString, HighLow;
    var index := IndexOf(ExprPools(s.init, x.locals, x.pools).strings, s.name);
    var c2 := c1 + [OP_SET_GLOBAL] + HighLow(index);
    Grows(c1, y.code, |x.code|, s.init, x.locals, x.pools);
    ArgEmitted(c1, OP_SET_GLOBAL, index);
    FrameArg(c2, y.code, |c1|, OP_SET_GLOBAL, index);
    AtEnd(c2, OP_POP);
    RecordTwice(x.loops, [], []);
  }

  // The pops and the jump of a break or a continue.
  lemma BreakMade(x: Point, y: Point)
    requires x.loops != [] && y.code == x.code + Pops(ScopeOf(x).over) + JUMP_AWAY
    requires y == x.(code := y.code, loops := Record(x.loops, [|y.code| - 2]))
    ensures StmtMade(x, y, Break)
  {
    hide Trailing, Record;
    var n := ScopeOf(x).over;
    PopsEmitted(x.code, n);
    FramePops(x.code + Pops(n), y.code, |x.code|, n);
    Emitted(x.code + Pops(n), y.code);
  }

  lemma ContinueMade(x: Point, y: Point)
    requires x.loops != [] && x.loops[|x.loops| - 1].start <= |x.code|
    requires var start, b := x.loops[|x.loops| - 1].start, |x.code| + ScopeOf(x).over;
             && b + 3 - start <= 0xFFFF
             && y == x.(code := x.code + Pops(ScopeOf(x).over) + [OP_LOOP] + HighLow(b + 3 - start))
    ensures StmtMade(x, y, Continue)
  {
    hide Trailing, ArgAt, HighLow;
    var n, start := ScopeOf(x).over, x.loops[|x.loops| - 1].start;
    PopsEmitted(x.code, n);
    FramePops(x.code + Pops(n), y.code, |x.code|, n);
    ArgEmitted(x.code + Pops(n), OP_LOOP, |x.code| + n + 3 - start);
    RecordTwice(x.loops, [], []);
  }

  lemma Widths()
    ensures |JUMP_UNLESS_POP| == 4 && |JUMP_AWAY| == 3
  {
  }

  // From the parts of an if to the whole: condition to c1, first arm from x1 to y1, second from x2 to y2.
  lemma IfCompose(x: Point, c1: seq<byte>, x1: Point, y1: Point, x2: Point, y2: Point, y: Point, i: If)
    requires ExprAt(c1, |x.code|, i.cond, x.locals, x.pools) && |c1| == |x.code| + SizeExpr(i.cond) && x.code <= c1
    requires x1 == x.(code := c1 + JUMP_UNLESS_POP, pools := ExprPools(i.cond, x.locals, x.pools))
    requires BranchMade(x1, y1, i.thn)
    requires x2 == y1.(code := Patched(y1.code + JUMP_AWAY, |c1| + 1) + [OP_POP])
    requires ElseMade(x2, y2, i.els)
    requires y == y2.(code := Patched(y2.code, |y1.code| + 1))
    ensures IfMade(x, y, i)
  {
    hide *;
    var c, a := ScopeOf(x), |x.code|;
    Widths();
    ArmPoints(x, x1, y1, x2, i.thn);
    MadeGrown(x1, y1, x2, y2, i);
    var s1, s2 := SitesTail(i.thn, Inner(c), |c1| + 4), SitesElse(i.els, c, |y1.code| + 4);
    RecordTwice(x.loops, s1, s2);
    IfBuilt(c1, y1.code, y2.code, a, i, c, LoopOf(x), x.pools);
    IfSites(i, c, a);
    IfIntro(x, y, i);
  }

  // Between the arms nothing but code and pools has changed.
  lemma ArmPoints(x: Point, x1: Point, y1: Point, x2: Point, ss: Stmts)
    requires x1 == x.(code := x1.code, pools := x1.pools) && BranchMade(x1, y1, ss) && x2 == y1.(code := x2.code)
    ensures ScopeOf(x1) == ScopeOf(x) && LoopOf(x1) == LoopOf(x) && HeadsOf(x1) == HeadsOf(x) && Near(x1) == Near(x)
    ensures ScopeOf(x2) == ScopeOf(x) && LoopOf(x2) == LoopOf(x) && HeadsOf(x2) == HeadsOf(x) && Near(x2) == Near(x)
    ensures x2.locals == x.locals && x2.depth == x.depth && ScopeOf(x).locals == x.locals && ScopeOf(x).depth == x.depth
  {
    hide SizeBranch, ListPools, SitesTail, BranchAt, Record, Trailing;
    RecordKeeps(x1, y1, SitesTail(ss, Inner(ScopeOf(x1)), |x1.code|));
  }

  lemma MadeGrown(x1: Point, y1: Point, x2: Point, y2: Point, i: If)
    requires BranchMade(x1, y1, i.thn) && ElseMade(x2, y2, i.els)
    ensures var c := ScopeOf(x1);
            && x1.code <= y1.code && |y1.code| == |x1.code| + SizeBranch(i.thn, c) && y1.pools == ListPools(i.thn, Inner(c), x1.pools)
            && y1.loops == Record(x1.loops, SitesTail(i.thn, Inner(c), |x1.code|))
            && BranchAt(y1.code, |x1.code|, i.thn, c, LoopOf(x1), x1.pools)
    ensures var c := ScopeOf(x2);
            && x2.code <= y2.code && |y2.code| == |x2.code| + SizeElse(i.els, c) && y2.pools == ElsePools(i.els, c, x2.pools)
            && y2.locals == c.locals && y2.depth == c.depth && y2.loops == Record(x2.loops, SitesElse(i.els, c, |x2.code|))
            && ElseAt(y2.code, |x2.code|, i.els, c, LoopOf(x2), x2.pools)
  {
    hide ScopeOf, LoopOf, SizeBranch, SizeElse, ListPools, ElsePools, SitesTail, SitesElse, BranchAt, ElseAt, Record;
  }

  lemma IfIntro(x: Point, y: Point, i: If)
    requires var c, a := ScopeOf(x), |x.code|;
             && x.code <= y.code && |y.code| == a + SizeIf(i, c) && y.locals == c.locals && y.depth == c.depth
             && y.pools == ElsePools(i.els, c, ListPools(i.thn, Inner(c), ExprPools(i.cond, c.locals, x.pools)))
             && y.loops == Record(x.loops, SitesIf(i, c, a)) && IfAt(y.code, a, i, c, LoopOf(x), x.pools)
    ensures IfMade(x, y, i)
  {
    hide ScopeOf, LoopOf, SizeIf, SitesIf, IfAt, Record, ListPools, ElsePools, ExprPools;
  }

  lemma IfStmtMade(x: Point, y: Point, z: Point, s: Stmt)
    requires s.IfStmt? && IfMade(x, y, s.branch) && z == y.(code := y.code + [OP_POP])
    ensures StmtMade(x, z, s)
  {
    hide ScopeOf, LoopOf, SizeIf, SitesIf, IfAt, Record, IfPools, OpAt, Same;
    var a := |x.code|;
    PrefixSame(y.code, z.code, a, |y.code|);
    IfFrame(y.code, z.code, a, s.branch, ScopeOf(x), LoopOf(x), x.pools);
    AtEnd(y.code, OP_POP);
  }

  // The point where the body of a loop begins.
  lemma BodyPoint(x: Point, xb: Point)
    requires Ordered(x.locals, x.depth)
    requires xb == x.(code := xb.code, pools := xb.pools, loops := x.loops + [LoopContext(|x.code|, [], x.depth)])
    ensures ScopeOf(xb) == InLoop(ScopeOf(x)) && LoopOf(xb) == Some(Loop(|x.code|, None)) && Near(xb)
    ensures HeadsOf(xb) == HeadsOf(x) + [|x.code|]
  {
    hide Trailing;
    TrailingEnd(x.locals, x.depth);
    assert HeadsOf(xb) == HeadsOf(x) + [|x.code|];
  }

  lemma WhileCompose(x: Point, c1: seq<byte>, xb: Point, yb: Point, s: Stmt) returns (sites: seq<nat>)
    requires s.While? && Ordered(x.locals, x.depth)
    requires ExprAt(c1, |x.code|, s.cond, x.locals, x.pools) && |c1| == |x.code| + SizeExpr(s.cond) && x.code <= c1
    requires xb == x.(code := c1 + JUMP_UNLESS_POP, pools := ExprPools(s.cond, x.locals, x.pools),
                      loops := x.loops + [LoopContext(|x.code|, [], x.depth)])
    requires BlockMade(xb, yb, s.body) && |yb.code| + 3 - |x.code| <= 0xFFFF
    ensures yb.loops == x.loops + [LoopContext(|x.code|, sites, x.depth)]
    ensures var c5 := Patched(yb.code + [OP_LOOP] + HighLow(|yb.code| + 3 - |x.code|), |c1| + 1) + [OP_POP];
            Inside(sites, |c5|) && StmtMade(x, x.(code := PatchAll(c5, sites), pools := yb.pools), s)
  {
    hide *;
    var c, a := ScopeOf(x), |x.code|;
    Widths();
    ScopeLocals(x);
    BodyPoint(x, xb);
    sites := SitesList(s.body, Inner(InLoop(c)), |c1| + 4);
    BodyGrown(x, xb, yb, s, sites);
    WhileBuilt(c1, yb.code, a, s, c, LoopOf(x), x.pools);
    RecordTwice(x.loops, [], []);
    var c5 := Patched(yb.code + [OP_LOOP] + HighLow(|yb.code| + 3 - a), |c1| + 1) + [OP_POP];
    WhileIntro(x, PatchAll(c5, sites), yb.pools, s);
  }

  lemma BodyGrown(x: Point, xb: Point, yb: Point, s: Stmt, sites: seq<nat>)
    requires s.While? && BlockMade(xb, yb, s.body) && ScopeOf(xb) == InLoop(ScopeOf(x)) && LoopOf(xb) == Some(Loop(|x.code|, None))
    requires xb.loops == x.loops + [LoopContext(|x.code|, [], x.depth)]
    requires sites == SitesList(s.body, Inner(InLoop(ScopeOf(x))), |xb.code|)
    ensures xb.code <= yb.code && |yb.code| == |xb.code| + SizeBlock(s.body, InLoop(ScopeOf(x)))
    ensures yb.pools == ListPools(s.body, Inner(InLoop(ScopeOf(x))), xb.pools)
    ensures BlockAt(yb.code, |xb.code|, s.body, InLoop(ScopeOf(x)), Some(Loop(|x.code|, None)), xb.pools)
    ensures yb.loops == x.loops + [LoopContext(|x.code|, sites, x.depth)]
  {
    hide ScopeOf, LoopOf, SizeBlock, ListPools, SitesList, BlockAt;
    var n := |x.loops|;
    assert [] + sites == sites;
    assert xb.loops[n] == LoopContext(|x.code|, [], x.depth);
    assert Record(xb.loops, sites) == x.loops + [LoopContext(|x.code|, sites, x.depth)];
  }

  lemma WhileIntro(x: Point, code: seq<byte>, pools: Pools, s: Stmt)
    requires s.While? && x.code <= code && |code| == |x.code| + SizeStmt(s, ScopeOf(x))
    requires pools == ListPools(s.body, Inner(InLoop(ScopeOf(x))), ExprPools(s.cond, x.locals, x.pools))
    requires Record(x.loops, []) == x.loops && StmtAt(code, |x.code|, s, ScopeOf(x), LoopOf(x), x.pools)
    ensures StmtMade(x, x.(code := code, pools := pools), s)
  {
    hide LoopOf, SizeStmt, StmtAt, ListPools, ExprPools, Record, Trailing;
  }

  // How the parts of a compound statement are accepted.
  lemma ListOpened(x: Point, ss: Stmts)
    requires ss.Then?
    ensures var c, h, a := ScopeOf(x), HeadsOf(x), |x.code|;
            ListOk(ss, c, h, a, x.pools) <==>
            && StmtOk(ss.head, c, h, a, x.pools)
            && ListOk(ss.tail, After(ss.head, c), h, a + SizeStmt(ss.head, c), StmtPools(ss.head, c, x.pools))
  {
    hide StmtOk, SizeStmt, StmtPools, ScopeOf, HeadsOf;
  }

  lemma LastOpened(x: Point, ss: Stmts)
    requires ss.Then? && ss.head.Eval? && ss.tail.Done?
    ensures ListOk(ss, ScopeOf(x), HeadsOf(x), |x.code|, x.pools) <==> ExprOk(ss.head.e, x.locals, x.pools)
  {
    hide ExprOk, SizeStmt, StmtPools, Trailing;
  }

  lemma IfOpened(x: Point, i: If)
    ensures var c, h := ScopeOf(x), HeadsOf(x);
            var b, p1 := |x.code| + SizeExpr(i.cond) + 4, ExprPools(i.cond, x.locals, x.pools);
            IfOk(i, c, h, |x.code|, x.pools) <==>
            && ExprOk(i.cond, x.locals, x.pools)
            && ListOk(i.thn, Inner(c), h, b, p1)
            && ElseOk(i.els, c, h, b + SizeBranch(i.thn, c) + 4, ListPools(i.thn, Inner(c), p1))
  {
    hide ExprOk, SizeExpr, ExprPools, SizeBranch, ListOk, ElseOk, ListPools, Trailing, HeadsOf;
  }

  lemma WhileOpened(x: Point, s: Stmt)
    requires s.While?
    ensures var c, h := InLoop(ScopeOf(x)), HeadsOf(x);
            var b, p1 := |x.code| + SizeExpr(s.cond) + 4, ExprPools(s.cond, x.locals, x.pools);
            StmtOk(s, ScopeOf(x), h, |x.code|, x.pools) <==>
            && |x.loops| < 32
            && ExprOk(s.cond, x.locals, x.pools)
            && ListOk(s.body, Inner(c), h + [|x.code|], b, p1)
            && b + SizeBlock(s.body, c) + 3 - |x.code| <= 0xFFFF
  {
    hide ExprOk, SizeExpr, ExprPools, SizeBlock, ListOk, Trailing;
  }

  lemma LetOpened(x: Point, s: Stmt)
    requires s.Let?
    ensures StmtOk(s, ScopeOf(x), HeadsOf(x), |x.code|, x.pools) <==>
            && ExprOk(s.init, x.locals, x.pools)
            && (x.depth > 0 ==> |x.locals| < 256 && !Redeclared(x.locals, x.depth, s.name))
  {
    hide ExprOk, Redeclared, Trailing;
  }

  lemma NothingMade(x: Point, ss: Stmts)
    requires ss.Done?
    ensures ListMade(x, x, ss) && ListOk(ss, ScopeOf(x), HeadsOf(x), |x.code|, x.pools)
  {
    hide Trailing;
    RecordTwice(x.loops, [], []);
  }

  lemma NilMade(x: Point, y: Point, ss: Stmts)
    requires ss.Done? && y == x.(code := x.code + [OP_NIL])
    ensures TailMade(x, y, ss) && ListOk(ss, ScopeOf(x), HeadsOf(x), |x.code|, x.pools)
  {
    hide Trailing;
    AtEnd(x.code, OP_NIL);
    RecordTwice(x.loops, [], []);
  }

  lemma LastMade(x: Point, y: Point, ss: Stmts)
    requires ss.Then? && ss.head.Eval? && ss.tail.Done? && ExprAt(y.code, |x.code|, ss.head.e, x.locals, x.pools)
    requires |y.code| == |x.code| + SizeExpr(ss.head.e) && x.code <= y.code
    requires y == x.(code := y.code, pools := ExprPools(ss.head.e, x.locals, x.pools))
    ensures TailMade(x, y, ss)
  {
    hide Trailing, ExprAt, SizeExpr, ExprPools;
    RecordTwice(x.loops, [], []);
    assert AfterList(ss, ScopeOf(x)) == ScopeOf(x);
    assert ListPools(ss, ScopeOf(x), x.pools) == StmtPools(ss.head, ScopeOf(x), x.pools);
  }

  lemma NoElseMade(x: Point, y: Point)
    requires y == x.(code := x.code + [OP_NIL])
    ensures ElseMade(x, y, NoElse)
  {
    hide Trailing;
    AtEnd(x.code, OP_NIL);
    RecordTwice(x.loops, [], []);
  }

  lemma ElseBlockMade(x: Point, y: Point, ss: Stmts)
    requires BranchMade(x, y, ss)
    ensures ElseMade(x, y, ElseBlock(ss))
  {
    hide ScopeOf, LoopOf, SizeBranch, SitesTail, BranchAt, Record, ListPools;
  }

  lemma ElseIfMade(x: Point, y: Point, i: If)
    requires IfMade(x, y, i)
    ensures ElseMade(x, y, ElseIf(i))
  {
    hide ScopeOf, LoopOf, SizeIf, SitesIf, IfAt, Record, IfPools;
  }

  lemma BlockStmtMade(x: Point, y: Point, s: Stmt)
    requires s.Block? && BlockMade(x, y, s.stmts)
    ensures StmtMade(x, y, s)
  {
    hide ScopeOf, LoopOf, SizeBlock, SitesList, BlockAt, Record, ListPools;
  }

  // Where the compiler stands after each part.
  lemma MadeStmt(x: Point, y: Point, s: Stmt)
    requires StmtMade(x, y, s) && InBody(x)
    ensures ScopeOf(y) == After(s, ScopeOf(x)) && HeadsOf(y) == HeadsOf(x) && InBody(y)
    ensures |y.code| == |x.code| + SizeStmt(s, ScopeOf(x)) && y.pools == StmtPools(s, ScopeOf(x), x.pools)
  {
    hide SizeStmt, StmtPools, SitesStmt, StmtAt, ScopeOf, Record, InBody;
    var sites := SitesStmt(s, ScopeOf(x), |x.code|);
    ScopeAfter(x, y, s, sites);
    RecordKeeps(x, y, sites);
  }

  lemma MadeBlock(x: Point, y: Point, ss: Stmts)
    requires BlockMade(x, y, ss)
    ensures y.locals == x.locals && y.depth == x.depth && |y.code| == |x.code| + SizeBlock(ss, ScopeOf(x)) && x.code <= y.code
  {
    hide SizeBlock, ListPools, SitesList, BlockAt, Record, Trailing;
  }

  lemma MadeBranch(x: Point, y: Point, ss: Stmts)
    requires BranchMade(x, y, ss)
    ensures y.locals == x.locals && y.depth == x.depth && |y.code| == |x.code| + SizeBranch(ss, ScopeOf(x)) && x.code <= y.code
    ensures y.pools == ListPools(ss, Inner(ScopeOf(x)), x.pools)
  {
    hide SizeBranch, ListPools, SitesTail, BranchAt, Record, Trailing;
  }

  lemma MadeIf(x: Point, y: Point, i: If)
    requires IfMade(x, y, i)
    ensures y.locals == x.locals && y.depth == x.depth
  {
    hide SizeIf, IfPools, SitesIf, IfAt, Record, Trailing;
  }

  lemma SamePoint(x: Point, y: Point)
    requires y == x.(code := y.code, pools := y.pools)
    ensures ScopeOf(y) == ScopeOf(x) && LoopOf(y) == LoopOf(x) && HeadsOf(y) == HeadsOf(x) && Near(y) == Near(x)
  {
  }

  // --- Programs ---

  ghost predicate ProgramMade(x: Point, y: Point, ss: Stmts) {
    && x.code <= y.code && |y.code| == |x.code| + SizeProgram(ss) && y.pools == ListPools(ss, TOP, x.pools)
    && ProgramAt(y.code, |x.code|, ss, x.pools)
  }

  lemma TopPoint(x: Point)
    requires x.locals == [] && x.depth == 0 && x.loops == []
    ensures ScopeOf(x) == TOP && LoopOf(x) == None && HeadsOf(x) == [] && InBody(x) && Near(x)
  {
  }

  lemma TopAgain(x: Point, y: Point, s: Stmt)
    requires x.locals == [] && x.depth == 0 && x.loops == [] && StmtMade(x, y, s)
    ensures y.locals == [] && y.depth == 0 && y.loops == []
    ensures |y.code| == |x.code| + SizeStmt(s, TOP) && y.pools == StmtPools(s, TOP, x.pools)
  {
    hide SizeStmt, StmtPools, SitesStmt, StmtAt, ScopeOf;
    TopPoint(x);
  }

  lemma ProgramOpened(ss: Stmts, a: nat, pools: Pools)
    requires ss.Then?
    ensures ListOk(ss, TOP, [], a, pools) <==>
            StmtOk(ss.head, TOP, [], a, pools) && ListOk(ss.tail, TOP, [], a + SizeStmt(ss.head, TOP), StmtPools(ss.head, TOP, pools))
    ensures ss.head.Eval? && ss.tail.Done? ==> (ListOk(ss, TOP, [], a, pools) <==> ExprOk(ss.head.e, [], pools))
    ensures ss.head.IfStmt? && ss.tail.Done? ==> (ListOk(ss, TOP, [], a, pools) <==> IfOk(ss.head.branch, TOP, [], a, pools))
  {
    hide ExprOk, IfOk, SizeStmt, StmtPools;
    assert After(ss.head, TOP) == TOP;
  }

  lemma HaltMade(x: Point, y: Point, ss: Stmts)
    requires ss.Done? && y == x.(code := x.code + [OP_HALT])
    ensures ProgramMade(x, y, ss) && ListOk(ss, TOP, [], |x.code|, x.pools)
  {
    AtEnd(x.code, OP_HALT);
  }

  lemma AnswerMade(x: Point, y: Point, c1: seq<byte>, ss: Stmts)
    requires ss.Then? && ss.head.Eval? && ss.tail.Done? && ExprAt(c1, |x.code|, ss.head.e, [], x.pools)
    requires |c1| == |x.code| + SizeExpr(ss.head.e) && x.code <= c1
    requires y == x.(code := c1 + [OP_HALT], pools := ExprPools(ss.head.e, [], x.pools))
    ensures ProgramMade(x, y, ss)
  {
    hide ExprAt, OpAt, SizeExpr, ExprPools;
    Grows(c1, y.code, |x.code|, ss.head.e, [], x.pools);
    AtEnd(c1, OP_HALT);
    assert ListPools(ss, TOP, x.pools) == StmtPools(ss.head, TOP, x.pools);
  }

  lemma FinalIfMade(x: Point, y: Point, z: Point, ss: Stmts)
    requires ss.Then? && ss.head.IfStmt? && ss.tail.Done? && x.locals == [] && x.depth == 0 && x.loops == []
    requires IfMade(x, y, ss.head.branch) && z == y.(code := y.code + [OP_HALT])
    ensures ProgramMade(x, z, ss)
  {
    hide ScopeOf, LoopOf, HeadsOf, InBody, Near, SizeIf, SitesIf, IfAt, Record, IfPools, OpAt, Same;
    TopPoint(x);
    PrefixSame(y.code, z.code, |x.code|, |y.code|);
    IfFrame(y.code, z.code, |x.code|, ss.head.branch, TOP, None, x.pools);
    AtEnd(y.code, OP_HALT);
    assert ListPools(ss, TOP, x.pools) == StmtPools(ss.head, TOP, x.pools);
  }

  lemma ProgramCompose(x: Point, y: Point, z: Point, ss: Stmts)
    requires ss.Then? && !((ss.head.Eval? || ss.head.IfStmt?) && ss.tail.Done?)
    requires x.locals == [] && x.depth == 0 && x.loops == [] && StmtMade(x, y, ss.head) && ProgramMade(y, z, ss.tail)
    ensures ProgramMade(x, z, ss)
  {
    hide SizeStmt, StmtPools, SitesStmt, StmtAt, ScopeOf, LoopOf, HeadsOf, InBody, Near, ExprAt, IfAt, SizeIf, Same;
    TopPoint(x);
    TopAgain(x, y, ss.head);
    PrefixSame(y.code, z.code, |x.code|, |y.code|);
    StmtFrame(y.code, z.code, |x.code|, ss.head, TOP, None, x.pools);
  }

  class Compiler {
    var code: seq<byte>
    var consts: seq<Value>
    var strings: seq<string>
    var locals: seq<Local>
    var depth: nat
    var loops: seq<LoopContext>
    var hadError: bool

    // Every loop starts, and every recorded break lies, in the code.
    ghost predicate Safe()
      reads this
    {
      LoopsWithin(loops, |code|)
    }

    ghost predicate Valid()
      reads this
    {
      Safe() && (!hadError ==> Ordered(locals, depth))
    }

    ghost function Now(): Point
      reads this
    {
      Point(code, ThePools(), locals, depth, loops)
    }

    ghost function ThePools(): Pools
      reads this
    {
      Pools(consts, strings)
    }

    // The expression's code has been appended, and nothing else has happened to the code.
    twostate predicate Appended(e: Expr)
      reads this
    {
      && |code| == |old(code)| + SizeExpr(e)
      && ExprAt(code, |old(code)|, e, locals, old(ThePools()))
      && ThePools() == ExprPools(e, locals, old(ThePools()))
    }

    method EmitByte(b: byte)
      modifies `code
      ensures code == old(code) + [b]
    {
      code := code + [b];
    }

    method EmitArg(op: byte, i: nat)
      modifies `code
      ensures code == old(code) + [op] + HighLow(i) && ArgAt(code, |old(code)|, op, i)
    {
      EmitByte(op);
      EmitByte(i / 256 % 256);
      EmitByte(i % 256);
      ArgEmitted(old(code), op, i);
      assert code == old(code) + [op] + HighLow(i);
    }

    method EmitJump(op: byte) returns (offset: nat)
      modifies `code
      ensures code == old(code) + [op, 0xFF, 0xFF] && offset == |code| - 2
    {
      EmitByte(op);
      EmitByte(0xFF);
      EmitByte(0xFF);
      offset := |code| - 2;
    }

    // A conditional jump peeks the condition; the side it does not jump over pops it.
    method EmitTest() returns (offset: nat)
      modifies `code
      ensures code == old(code) + JUMP_UNLESS_POP && offset == |old(code)| + 1
    {
      offset := EmitJump(OP_JUMP_UNLESS);
      EmitByte(OP_POP);
    }

    // Between the arms of a conditional.
    method EmitElse(elseJump: nat) returns (endJump: nat)
      requires elseJump + 2 <= |code|
      modifies `code
      ensures code == Patched(old(code) + JUMP_AWAY, elseJump) + [OP_POP] && endJump == |old(code)| + 1
    {
      endJump := EmitJump(OP_JUMP);
      PatchJump(elseJump);
      EmitByte(OP_POP);
    }

    method PatchJump(offset: nat)
      requires offset + 2 <= |code|
      modifies `code
      ensures code == Patched(old(code), offset)
    {
      var jump := |code| - offset - 2;
      if jump > 0xFFFF {
        return;
      }
      code := code[offset := jump / 256];
      code := code[offset + 1 := jump % 256];
    }

    method EmitConstant(v: Value)
      modifies `code, `consts, `hadError
      ensures consts == old(consts) + [v]
      ensures hadError <==> old(hadError) || |old(consts)| > 0xFFFF
      ensures old(code) <= code
      ensures |old(consts)| <= 0xFFFF ==> |code| == |old(code)| + 3 && ArgAt(code, |old(code)|, OP_CONST, |old(consts)|)
    {
      var index := |consts|;
      consts := consts + [v];
      if index > 0xFFFF {
        hadError := true;
        return;
      }
      EmitArg(OP_CONST, index);
    }

    // Search the string table, and extend it if the name is new.
    method Intern(name: string) returns (index: nat)
      modifies `strings
      ensures strings == AddString(old(strings), name) && index == IndexOf(old(strings), name)
    {
      index := 0;
      while index < |strings|
        invariant index <= |strings|
        invariant forall j :: 0 <= j < index ==> strings[j] != name
      {
        if strings[index] == name {
          return;
        }
        index := index + 1;
      }
      strings := strings + [name];
    }

    method ResolveLocal(name: string) returns (slot: int)
      ensures slot == Resolve(locals, name)
    {
      slot := |locals| - 1;
      while slot >= 0
        invariant -1 <= slot < |locals|
        invariant forall j :: slot < j < |locals| ==> locals[j].name != name
      {
        if locals[slot].name == name {
          return;
        }
        slot := slot - 1;
      }
    }

    method CompileLiteral(v: Value)
      modifies `code, `consts, `hadError
      ensures old(code) <= code
      ensures hadError <==> old(hadError) || !ExprOk(Lit(v), locals, old(ThePools()))
      ensures !hadError ==> Appended(Lit(v))
    {
      match v
      case Nil => EmitByte(OP_NIL);
      case Bool(b) => EmitByte(if b then OP_TRUE else OP_FALSE);
      case _ => EmitConstant(v);
    }

    method CompileIdent(name: string)
      modifies `code, `strings
      ensures old(code) <= code
      ensures Appended(Ident(name)) && ThePools() == VarPools(name, locals, old(ThePools()))
      ensures |code| == |old(code)| + 3
    {
      var slot := ResolveLocal(name);
      if slot >= 0 {
        EmitArg(OP_GET_LOCAL, slot);
      } else {
        var index := Intern(name);
        EmitArg(OP_GET_GLOBAL, index);
      }
    }

    method CompileAnd(e: Expr)
      requires e.And?
      modifies `code, `consts, `strings, `hadError
      ensures old(code) <= code
      ensures hadError <==> old(hadError) || !ExprOk(e, locals, old(ThePools()))
      ensures !hadError ==> Appended(e)
      decreases e, 0
    {
      hide ExprAt, ExprOk, ExprPools, SizeExpr, Patched, OpAt, JumpAt, BinCode;
      ghost var a, p0 := |code|, ThePools();
      PairOk(e, locals, p0);
      CompileExpr(e.left);
      ghost var c1 := code;
      var endJump := EmitTest();
      CompileExpr(e.right);
      ghost var c2 := code;
      PatchJump(endJump);
      if !hadError {
        AndBuilt(c1, c2, a, e, locals, p0);
      }
    }

    method CompileOr(e: Expr)
      requires e.Or?
      modifies `code, `consts, `strings, `hadError
      ensures old(code) <= code
      ensures hadError <==> old(hadError) || !ExprOk(e, locals, old(ThePools()))
      ensures !hadError ==> Appended(e)
      decreases e, 0
    {
      hide ExprAt, ExprOk, ExprPools, SizeExpr, Patched, OpAt, JumpAt, BinCode;
      ghost var a, p0 := |code|, ThePools();
      PairOk(e, locals, p0);
      CompileExpr(e.left);
      ghost var c1 := code;
      var elseJump := EmitJump(OP_JUMP_UNLESS);
      var endJump := EmitJump(OP_JUMP);
      PatchJump(elseJump);
      EmitByte(OP_POP);
      CompileExpr(e.right);
      ghost var c4 := code;
      PatchJump(endJump);
      if !hadError {
        OrBuilt(c1, c4, a, e, locals, p0);
      }
    }

    method CompileBinary(e: Expr)
      requires e.Binary? || e.And? || e.Or?
      modifies `code, `consts, `strings, `hadError
      ensures old(code) <= code
      ensures hadError <==> old(hadError) || !ExprOk(e, locals, old(ThePools()))
      ensures !hadError ==> Appended(e)
      decreases e, 1
    {
      hide ExprAt, ExprOk, ExprPools, SizeExpr, OpAt, BinCode;
      if e.And? {
        CompileAnd(e);
        return;
      }
      if e.Or? {
        CompileOr(e);
        return;
      }
      ghost var a, p0 := |code|, ThePools();
      PairOk(e, locals, p0);
      CompileExpr(e.left);
      ghost var c1 := code;
      CompileExpr(e.right);
      ghost var c2 := code;
      EmitByte(BinCode(e.op));
      if !hadError {
        PairSize(e);
        Grows(c1, code, a, e.left, locals, p0);
        Grows(c2, code, |c1|, e.right, locals, ExprPools(e.left, locals, p0));
        AtEnd(c2, BinCode(e.op));
        BinaryShape(code, a, e, locals, p0);
      }
    }

    method CompileUnary(e: Expr)
      requires e.Unary?
      modifies `code, `consts, `strings, `hadError
      ensures old(code) <= code
      ensures hadError <==> old(hadError) || !ExprOk(e, locals, old(ThePools()))
      ensures !hadError ==> Appended(e)
      decreases e, 0
    {
      CompileExpr(e.operand);
      ghost var c1 := code;
      EmitByte(UnCode(e.uop));
      if !hadError {
        Grows(c1, code, |old(code)|, e.operand, locals, old(ThePools()));
      }
    }

    method CompileTernary(e: Expr)
      requires e.Ternary?
      modifies `code, `consts, `strings, `hadError
      ensures old(code) <= code
      ensures hadError <==> old(hadError) || !ExprOk(e, locals, old(ThePools()))
      ensures !hadError ==> Appended(e)
      decreases e, 0
    {
      hide ExprAt, ExprOk, ExprPools, SizeExpr, Patched, OpAt, JumpAt, BinCode;
      ghost var a, p0 := |code|, ThePools();
      TernaryOk(e, locals, p0);
      CompileExpr(e.cond);
      ghost var c1 := code;
      var elseJump := EmitTest();
      CompileExpr(e.thn);
      ghost var c2 := code;
      var endJump := EmitElse(elseJump);
      CompileExpr(e.els);
      ghost var c4 := code;
      PatchJump(endJump);
      if !hadError {
        TernaryBuilt(c1, c2, c4, a, e, locals, p0);
      }
    }

    method CompileAssign(e: Expr)
      requires e.Assign? && !hadError
      modifies `code, `consts, `strings, `hadError
      ensures old(code) <= code
      ensures hadError <==> old(hadError) || !ExprOk(e, locals, old(ThePools()))
      ensures !hadError ==> Appended(e)
      decreases e, 0
    {
      hide ExprAt, ExprOk, ExprPools, SizeExpr, OpAt, VarAt, VarPools, BinCode;
      ghost var p0 := ThePools();
      AssignOk(e, locals, p0);
      AssignSize(e);
      if e.aop.Some? {
        CompileIdent(e.target);
        ghost var c1 := code;
        CompileExpr(e.rhs);
        ghost var c2 := code;
        EmitByte(BinCode(e.aop.value));
        if !hadError {
          AtEnd(c2, BinCode(e.aop.value));
          IdentShape(c1, |old(code)|, e.target, locals, p0);
          FrameVar(c1, code, |old(code)|, OP_GET_LOCAL, OP_GET_GLOBAL, e.target, locals, p0);
          Grows(c2, code, |c1|, e.rhs, locals, VarPools(e.target, locals, p0));
        }
      } else {
        CompileExpr(e.rhs);
      }
      ghost var c3 := code;
      StoreVariable(e.target);
      if !hadError {
        FrameAssigned(c3, code, |old(code)|, e, locals, p0);
      }
    }

    // The last part of an assignment.
    method StoreVariable(name: string)
      modifies `code, `strings, `hadError
      ensures old(code) <= code
      ensures hadError <==> old(hadError) || (Resolve(locals, name) >= 0 && locals[Resolve(locals, name)].isConst)
      ensures !hadError ==>
                && |code| == |old(code)| + 3
                && VarAt(code, |old(code)|, OP_SET_LOCAL, OP_SET_GLOBAL, name, locals, old(ThePools()))
                && ThePools() == VarPools(name, locals, old(ThePools()))
    {
      var slot := ResolveLocal(name);
      if slot >= 0 {
        if locals[slot].isConst {
          hadError := true;
          return;
        }
        EmitArg(OP_SET_LOCAL, slot);
      } else {
        var index := Intern(name);
        EmitArg(OP_SET_GLOBAL, index);
      }
    }

    method CompileExpr(e: Expr)
      modifies `code, `consts, `strings, `hadError
      ensures old(code) <= code
      ensures hadError <==> old(hadError) || !ExprOk(e, locals, old(ThePools()))
      ensures !hadError ==> Appended(e)
      decreases e, 2
    {
      if hadError {
        return;
      }
      match e
      case Lit(v) => CompileLiteral(v);
      case Ident(name) => CompileIdent(name);
      case Binary(_, _, _) => CompileBinary(e);
      case And(_, _) => CompileBinary(e);
      case Or(_, _) => CompileBinary(e);
      case Unary(_, _) => CompileUnary(e);
      case Ternary(_, _, _) => CompileTernary(e);
      case Assign(_, _, _) => CompileAssign(e);
    }

    // --- Scopes and loops ---

    method BeginScope()
      modifies `depth
      ensures depth == old(depth) + 1
    {
      depth := depth + 1;
    }

    method EndScope()
      requires depth > 0
      modifies `code, `locals, `depth
      ensures depth == old(depth) - 1
      ensures var n := Trailing(old(locals), depth);
              locals == old(locals)[..|old(locals)| - n] && code == old(code) + Pops(n)
    {
      hide Trailing, Pops;
      depth := depth - 1;
      ghost var all := locals;
      while locals != [] && locals[|locals| - 1].depth > depth
        invariant depth == old(depth) - 1 && |locals| <= |all| && locals == all[..|locals|]
        invariant code == old(code) + Pops(|all| - |locals|)
        invariant forall i :: |locals| <= i < |all| ==> all[i].depth > depth
        decreases |locals|
      {
        EmitByte(OP_POP);
        MorePops(old(code), |all| - |locals|);
        locals := locals[..|locals| - 1];
      }
      TrailingIs(all, |locals|, depth);
    }

    method AddLocal(name: string, isConst: bool)
      modifies `locals, `hadError
      ensures hadError <==> old(hadError) || |old(locals)| >= 256 || Redeclared(old(locals), depth, name)
      ensures locals == if |old(locals)| < 256 && !Redeclared(old(locals), depth, name)
                        then old(locals) + [Local(name, depth, isConst)] else old(locals)
    {
      if |locals| >= 256 {
        hadError := true;
        return;
      }
      var i := |locals|;
      assert locals[..i] == locals;
      while i > 0
        invariant 0 <= i <= |locals|
        invariant Redeclared(locals, depth, name) <==> Redeclared(locals[..i], depth, name)
      {
        ghost var scanned := locals[..i];
        i := i - 1;
        assert scanned[..i] == locals[..i];
        if locals[i].depth < depth {
          break;
        }
        if locals[i].name == name {
          hadError := true;
          return;
        }
      }
      locals := locals + [Local(name, depth, isConst)];
    }

    method BeginLoop(start: nat)
      modifies `loops, `hadError
      ensures hadError <==> old(hadError) || |old(loops)| >= 32
      ensures loops == if |old(loops)| >= 32 then old(loops) else old(loops) + [LoopContext(start, [], depth)]
    {
      if |loops| >= 32 {
        hadError := true;
        return;
      }
      loops := loops + [LoopContext(start, [], depth)];
    }

    method EndLoop()
      requires Safe()
      modifies `code, `loops
      ensures Safe() && |code| == |old(code)|
      ensures old(loops) != [] ==>
                && loops == old(loops)[..|old(loops)| - 1]
                && code == PatchAll(old(code), old(loops)[|old(loops)| - 1].breaks)
    {
      if loops == [] {
        return;
      }
      var loop := loops[|loops| - 1];
      loops := loops[..|loops| - 1];
      var i := 0;
      while i < |loop.breaks|
        invariant i <= |loop.breaks| && |code| == |old(code)| && loops == old(loops)[..|old(loops)| - 1]
        invariant Inside(loop.breaks[..i], |code|) && code == PatchAll(old(code), loop.breaks[..i])
      {
        PatchJump(loop.breaks[i]);
        i := i + 1;
        assert loop.breaks[..i][..i - 1] == loop.breaks[..i - 1];
      }
      assert loop.breaks[..i] == loop.breaks;
    }

    method EmitLoop(start: nat)
      requires start <= |code|
      modifies `code, `hadError
      ensures hadError <==> old(hadError) || |old(code)| + 3 - start > 0xFFFF
      ensures old(code) <= code
      ensures |old(code)| + 3 - start <= 0xFFFF ==> code == old(code) + [OP_LOOP] + HighLow(|old(code)| + 3 - start)
    {
      EmitByte(OP_LOOP);
      var offset := |code| - start + 2;
      if offset > 0xFFFF {
        hadError := true;
        return;
      }
      EmitByte(offset / 256);
      EmitByte(offset % 256);
      assert code == old(code) + [OP_LOOP] + HighLow(|old(code)| + 3 - start);
    }

    // Pop the locals of the scopes inside the loop; they stay declared.
    method EmitUnwind(scopeDepth: nat)
      modifies `code
      ensures code == old(code) + Pops(Trailing(locals, scopeDepth))
    {
      hide Trailing, Pops;
      var i := |locals|;
      while i > 0 && locals[i - 1].depth > scopeDepth
        invariant 0 <= i <= |locals|
        invariant code == old(code) + Pops(|locals| - i)
        invariant forall k :: i <= k < |locals| ==> locals[k].depth > scopeDepth
      {
        EmitByte(OP_POP);
        MorePops(old(code), |locals| - i);
        i := i - 1;
      }
      TrailingIs(locals, i, scopeDepth);
    }

    method EmitBreak()
      requires Safe()
      modifies `code, `loops, `hadError
      ensures Safe() && old(code) <= code
      ensures old(loops) == [] ==> hadError && loops == [] && code == old(code)
      ensures old(loops) != [] ==>
                && hadError == old(hadError)
                && code == old(code) + Pops(ScopeOf(old(Now())).over) + JUMP_AWAY
                && loops == Record(old(loops), [|code| - 2])
    {
      if loops == [] {
        hadError := true;
        return;
      }
      var loop := loops[|loops| - 1];
      EmitUnwind(loop.scopeDepth);
      var jump := EmitJump(OP_JUMP);
      loops := loops[|loops| - 1 := loop.(breaks := loop.breaks + [jump])];
    }

    method EmitContinue()
      requires loops == [] || loops[|loops| - 1].start <= |code|
      modifies `code, `hadError
      ensures old(code) <= code
      ensures loops == [] ==> hadError && code == old(code)
      ensures loops != [] ==>
                var start, b := loops[|loops| - 1].start, |old(code)| + ScopeOf(old(Now())).over;
                && (hadError <==> old(hadError) || b + 3 - start > 0xFFFF)
                && (b + 3 - start <= 0xFFFF ==>
                    code == old(code) + Pops(ScopeOf(old(Now())).over) + [OP_LOOP] + HighLow(b + 3 - start))
    {
      if loops == [] {
        hadError := true;
        return;
      }
      var loop := loops[|loops| - 1];
      EmitUnwind(loop.scopeDepth);
      EmitLoop(loop.start);
    }

    // --- Statements ---

    method CompileList(ss: Stmts)
      requires Valid() && (hadError || InBody(Now()))
      modifies this
      ensures Valid() && depth == old(depth) && |old(code)| <= |code|
      ensures hadError <==> old(hadError) || !ListOk(ss, ScopeOf(old(Now())), HeadsOf(old(Now())), |old(code)|, old(ThePools()))
      ensures !hadError ==> ListMade(old(Now()), Now(), ss)
      decreases ss, 1
    {
      hide Trailing, ScopeOf, LoopOf, HeadsOf, Record, InBody, Near,
           SizeStmt, StmtPools, SitesStmt, StmtAt, StmtOk, StmtMade,
           SizeList, ListPools, SitesList, ListAt, ListOk, ListMade;
      ghost var x := Now();
      if ss.Done? {
        NothingMade(x, ss);
        return;
      }
      ListOpened(x, ss);
      CompileStmt(ss.head);
      ghost var y := Now();
      if !hadError {
        MadeStmt(x, y, ss.head);
      }
      CompileList(ss.tail);
      if !hadError {
        ListCompose(x, y, Now(), ss);
      }
    }

    method CompileTail(ss: Stmts)
      requires Valid() && (hadError || InBody(Now()))
      modifies this
      ensures Valid() && depth == old(depth) && |old(code)| <= |code|
      ensures hadError <==> old(hadError) || !ListOk(ss, ScopeOf(old(Now())), HeadsOf(old(Now())), |old(code)|, old(ThePools()))
      ensures !hadError ==> TailMade(old(Now()), Now(), ss)
      decreases ss, 1
    {
      hide Trailing, ScopeOf, LoopOf, HeadsOf, Record, InBody, Near,
           SizeStmt, StmtPools, SitesStmt, StmtAt, StmtOk, StmtMade,
           SizeList, ListPools, SitesList, ListAt, ListOk, ListMade,
           SizeTail, SitesTail, TailAt, TailMade,
           SizeExpr, ExprPools, ExprAt, ExprOk;
      ghost var x := Now();
      if ss.Done? {
        EmitByte(OP_NIL);
        NilMade(x, Now(), ss);
        return;
      }
      ListOpened(x, ss);
      if ss.head.Eval? && ss.tail.Done? {
        LastOpened(x, ss);
        CompileExpr(ss.head.e);
        if !hadError {
          LastMade(x, Now(), ss);
        }
        return;
      }
      CompileStmt(ss.head);
      ghost var y := Now();
      if !hadError {
        MadeStmt(x, y, ss.head);
      }
      CompileTail(ss.tail);
      if !hadError {
        TailCompose(x, y, Now(), ss);
      }
    }

    method CompileBlock(ss: Stmts)
      requires Valid() && (hadError || Near(Now()))
      modifies this
      ensures Valid() && depth == old(depth) && |old(code)| <= |code|
      ensures hadError <==> old(hadError) || !ListOk(ss, Inner(ScopeOf(old(Now()))), HeadsOf(old(Now())), |old(code)|, old(ThePools()))
      ensures !hadError ==> BlockMade(old(Now()), Now(), ss)
      decreases ss, 2
    {
      hide Trailing, ScopeOf, LoopOf, HeadsOf, Record, InBody, Near,
           SizeList, ListPools, SitesList, ListAt, ListOk, ListMade,
           SizeBlock, BlockAt, BlockMade;
      ghost var x := Now();
      BeginScope();
      DeeperScope(x);
      CompileList(ss);
      ghost var y := Now();
      EndScope();
      if !hadError {
        assert Now() == Shallower(y, x.depth);
        BlockCompose(x, y, ss);
        MadeBlock(x, Now(), ss);
      }
    }

    method CompileBlockExpr(ss: Stmts)
      requires Valid() && (hadError || Near(Now()))
      modifies this
      ensures Valid() && depth == old(depth) && |old(code)| <= |code|
      ensures hadError <==> old(hadError) || !ListOk(ss, Inner(ScopeOf(old(Now()))), HeadsOf(old(Now())), |old(code)|, old(ThePools()))
      ensures !hadError ==> BranchMade(old(Now()), Now(), ss)
      decreases ss, 2
    {
      hide Trailing, ScopeOf, LoopOf, HeadsOf, Record, InBody, Near,
           SizeList, ListPools, SitesList, ListAt, ListOk, ListMade,
           SizeTail, SitesTail, TailAt, TailMade,
           SizeBranch, BranchAt, BranchMade;
      ghost var x := Now();
      BeginScope();
      DeeperScope(x);
      CompileTail(ss);
      ghost var y := Now();
      EndScope();
      if !hadError {
        assert Now() == Shallower(y, x.depth);
        BranchCompose(x, y, ss);
        MadeBranch(x, Now(), ss);
      }
    }

    method CompileElse(e: Else)
      requires Valid() && (hadError || Near(Now()))
      modifies this
      ensures Valid() && depth == old(depth) && |old(code)| <= |code|
      ensures hadError <==> old(hadError) || !ElseOk(e, ScopeOf(old(Now())), HeadsOf(old(Now())), |old(code)|, old(ThePools()))
      ensures !hadError ==> ElseMade(old(Now()), Now(), e)
      decreases e, 1
    {
      hide Trailing, ScopeOf, LoopOf, HeadsOf, Record, InBody, Near,
           Ordered,
           SizeList, ListPools, SitesList, ListAt, ListOk, ListMade,
           SizeTail, SitesTail, TailAt, TailMade,
           SizeBranch, BranchAt, BranchMade,
           SizeIf, IfPools, SitesIf, IfAt, IfOk, IfMade,
           SizeElse, ElsePools, SitesElse, ElseAt, ElseMade;
      ghost var x := Now();
      match e
      case NoElse =>
        EmitByte(OP_NIL);
        NoElseMade(x, Now());
      case ElseBlock(ss) =>
        CompileBlockExpr(ss);
        if !hadError {
          ElseBlockMade(x, Now(), ss);
        }
      case ElseIf(i) =>
        CompileIf(i);
        if !hadError {
          ElseIfMade(x, Now(), i);
        }
    }

    method CompileIf(i: If)
      requires Valid() && (hadError || Near(Now()))
      modifies this
      ensures Valid() && depth == old(depth) && |old(code)| <= |code|
      ensures hadError <==> old(hadError) || !IfOk(i, ScopeOf(old(Now())), HeadsOf(old(Now())), |old(code)|, old(ThePools()))
      ensures !hadError ==> IfMade(old(Now()), Now(), i)
      decreases i, 1
    {
      hide LoopsWithin, Trailing, ScopeOf, LoopOf, HeadsOf, Record, InBody, Near,
           Ordered, Patched,
           SizeList, ListPools, SitesList, ListAt, ListOk, ListMade,
           SizeBranch, BranchAt, BranchMade,
           SizeIf, IfPools, SitesIf, IfAt, IfOk, IfMade,
           SizeElse, ElsePools, SitesElse, ElseAt, ElseOk, ElseMade,
           SizeExpr, ExprPools, ExprAt, ExprOk;
      ghost var x := Now();
      IfOpened(x, i);
      CompileExpr(i.cond);
      ghost var c1 := code;
      var elseJump := EmitTest();
      ghost var x1 := Now();
      WithinGrows(loops, |x.code|, |code|);
      SamePoint(x, x1);
      CompileBlockExpr(i.thn);
      ghost var y1 := Now();
      var endJump := EmitElse(elseJump);
      ghost var x2 := Now();
      WithinGrows(loops, |y1.code|, |code|);
      if !hadError {
        ArmPoints(x, x1, y1, x2, i.thn);
        MadeBranch(x1, y1, i.thn);
      }
      CompileElse(i.els);
      ghost var y2 := Now();
      PatchJump(endJump);
      if !hadError {
        IfCompose(x, c1, x1, y1, x2, y2, Now(), i);
        MadeIf(x, Now(), i);
      }
    }

    // The end of a while loop: jump back, let the condition's jump out, let the breaks out.
    method CloseLoop(start: nat, exitJump: nat)
      requires Safe() && start <= |code| && exitJump + 2 <= |code|
      modifies `code, `loops, `hadError
      ensures Safe() && |old(code)| <= |code|
      ensures hadError <==> old(hadError) || |old(code)| + 3 - start > 0xFFFF
      ensures !hadError && old(loops) != [] ==>
                var c5 := Patched(old(code) + [OP_LOOP] + HighLow(|old(code)| + 3 - start), exitJump) + [OP_POP];
                var sites := old(loops)[|old(loops)| - 1].breaks;
                && loops == old(loops)[..|old(loops)| - 1]
                && Inside(sites, |c5|) && code == PatchAll(c5, sites)
    {
      hide Patched, PatchAll, HighLow;
      EmitLoop(start);
      PatchJump(exitJump);
      EmitByte(OP_POP);
      EndLoop();
    }

    method CompileWhile(s: Stmt)
      requires Valid() && (hadError || InBody(Now())) && s.While?
      modifies this
      ensures Valid() && depth == old(depth) && |old(code)| <= |code|
      ensures hadError <==> old(hadError) || !StmtOk(s, ScopeOf(old(Now())), HeadsOf(old(Now())), |old(code)|, old(ThePools()))
      ensures !hadError ==> StmtMade(old(Now()), Now(), s)
      decreases s, 0
    {
      hide Trailing, ScopeOf, LoopOf, HeadsOf, Record, InBody, Near,
           Patched, PatchAll, HighLow,
           SizeStmt, StmtPools, SitesStmt, StmtAt, StmtOk, StmtMade,
           SizeList, ListPools, SitesList, ListAt, ListOk, ListMade,
           SizeBlock, BlockAt, BlockMade,
           SizeExpr, ExprPools, ExprAt, ExprOk;
      ghost var x := Now();
      WhileOpened(x, s);
      var start := |code|;
      BeginLoop(start);
      CompileExpr(s.cond);
      ghost var c1 := code;
      var exitJump := EmitTest();
      ghost var xb := Now();
      if !hadError {
        BodyPoint(x, xb);
        CompileBlock(s.body);
      }
      ghost var yb := Now();
      if !hadError {
        MadeBlock(xb, yb, s.body);
      }
      CloseLoop(start, exitJump);
      if !hadError {
        ghost var sites := WhileCompose(x, c1, xb, yb, s);
      }
    }

    method CompileLet(s: Stmt)
      requires Valid() && (hadError || InBody(Now())) && s.Let?
      modifies this
      ensures Valid() && depth == old(depth) && |old(code)| <= |code|
      ensures hadError <==> old(hadError) || !StmtOk(s, ScopeOf(old(Now())), HeadsOf(old(Now())), |old(code)|, old(ThePools()))
      ensures !hadError ==> StmtMade(old(Now()), Now(), s)
      decreases s, 0
    {
      hide Trailing, LoopOf, HeadsOf, Record,
           SizeStmt, StmtPools, SitesStmt, StmtAt, StmtOk, StmtMade,
           SizeExpr, ExprPools, ExprAt, ExprOk,
           IndexOf, AddString, HighLow, Redeclared;
      ghost var x := Now();
      LetOpened(x, s);
      CompileExpr(s.init);
      ghost var c1 := code;
      if depth > 0 {
        AddLocal(s.name, s.isConst);
        if !hadError {
          LocalMade(x, Now(), s);
        }
      } else {
        var index := Intern(s.name);
        EmitArg(OP_SET_GLOBAL, index);
        EmitByte(OP_POP);
        if !hadError {
          GlobalMade(x, Now(), c1, s);
        }
      }
    }

    method CompileStmt(s: Stmt)
      requires Valid() && (hadError || InBody(Now()))
      modifies this
      ensures Valid() && depth == old(depth) && |old(code)| <= |code|
      ensures hadError <==> old(hadError) || !StmtOk(s, ScopeOf(old(Now())), HeadsOf(old(Now())), |old(code)|, old(ThePools()))
      ensures !hadError ==> StmtMade(old(Now()), Now(), s)
      decreases s, 1
    {
      hide Trailing, LoopOf, Record, Ordered,
           SizeList, ListPools, SitesList, ListAt, ListOk, ListMade,
           SizeBlock, BlockAt, BlockMade,
           SizeIf, IfPools, SitesIf, IfAt, IfOk, IfMade,
           SizeExpr, ExprPools, ExprAt, ExprOk,
           SizeStmt, StmtPools, SitesStmt, StmtAt, StmtMade;
      if hadError {
        return;
      }
      ghost var x := Now();
      match s
      case Let(_, _, _) => CompileLet(s);
      case Eval(e) =>
        CompileExpr(e);
        ghost var c1 := code;
        EmitByte(OP_POP);
        if !hadError {
          EvalMade(x, Now(), c1, s);
        }
      case IfStmt(i) =>
        CompileIf(i);
        ghost var y := Now();
        EmitByte(OP_POP);
        if !hadError {
          IfStmtMade(x, y, Now(), s);
        }
      case While(_, _) => CompileWhile(s);
      case Block(ss) =>
        CompileBlock(ss);
        if !hadError {
          BlockStmtMade(x, Now(), s);
        }
      case Break =>
        EmitBreak();
        if !hadError {
          BreakMade(x, Now());
        }
      case Continue =>
        EmitContinue();
        if !hadError {
          ContinueMade(x, Now());
        }
    }


    // --- Programs ---

    constructor ()
      ensures Now() == Point([], Pools([], []), [], 0, []) && !hadError
    {
      code, consts, strings, locals, depth, loops, hadError := [], [], [], [], 0, [], false;
    }

    // Outside every function, block and loop.
    ghost predicate AtTop()
      reads this
    {
      locals == [] && depth == 0 && loops == []
    }

    method CompileProgram(ss: Stmts)
      requires Valid() && (hadError || AtTop())
      modifies this
      ensures |old(code)| <= |code|
      ensures hadError <==> old(hadError) || !ListOk(ss, TOP, [], |old(code)|, old(ThePools()))
      ensures !hadError ==> ProgramMade(old(Now()), Now(), ss)
      decreases ss
    {
      hide ListOk, StmtOk, IfOk, ExprOk, StmtMade, IfMade, ProgramMade, ScopeOf, HeadsOf, InBody, Near, ExprAt, ListPools,
           SizeStmt, StmtPools, SizeExpr, ExprPools, SizeProgram, ProgramAt, Ordered, LoopsWithin;
      ghost var x := Now();
      if !hadError {
        TopPoint(x);
      }
      if ss.Done? {
        EmitByte(OP_HALT);
        HaltMade(x, Now(), ss);
        return;
      }
      ProgramOpened(ss, |code|, x.pools);
      if ss.head.Eval? && ss.tail.Done? {
        CompileExpr(ss.head.e);
        ghost var c1 := code;
        EmitByte(OP_HALT);
        if !hadError {
          AnswerMade(x, Now(), c1, ss);
        }
      } else if ss.head.IfStmt? && ss.tail.Done? {
        CompileIf(ss.head.branch);
        ghost var y := Now();
        EmitByte(OP_HALT);
        if !hadError {
          FinalIfMade(x, y, Now(), ss);
        }
      } else {
        CompileStmt(ss.head);
        ghost var y := Now();
        if !hadError {
          TopAgain(x, y, ss.head);
        }
        CompileProgram(ss.tail);
        if !hadError {
          ProgramCompose(x, y, Now(), ss);
        }
      }
    }
  }
}
