/** Statements while they are being compiled: their breaks are jumps without a target until the end
    of the loop, where all of them are patched.
 */
module StackPatch {
  import opened Ast
  import opened StackCode
  import opened StackBuild

  // --- The unpatched breaks of a statement ---

  // Where the operands of its breaks stand, in the order in which they were emitted.
  function SitesStmt(s: Stmt, c: Scope, a: nat): seq<nat>
    decreases s, 1
  {
    match s
    case IfStmt(i) => SitesIf(i, c, a)
    case Block(ss) => SitesList(ss, Inner(c), a)
    case Break => [a + c.over + 1]
    case _ => []
  }

  function SitesList(ss: Stmts, c: Scope, a: nat): seq<nat>
    decreases ss, 1
  {
    match ss
    case Done => []
    case Then(s, rest) => SitesStmt(s, c, a) + SitesList(rest, After(s, c), a + SizeStmt(s, c))
  }

  function SitesTail(ss: Stmts, c: Scope, a: nat): seq<nat>
    decreases ss, 1
  {
    match ss
    case Done => []
    case Then(s, rest) =>
      if s.Eval? && rest.Done? then [] else SitesStmt(s, c, a) + SitesTail(rest, After(s, c), a + SizeStmt(s, c))
  }

  function SitesIf(i: If, c: Scope, a: nat): seq<nat>
    decreases i, 1
  {
    var b := a + SizeExpr(i.cond) + 4;
    SitesTail(i.thn, Inner(c), b) + SitesElse(i.els, c, b + SizeBranch(i.thn, c) + 4)
  }

  function SitesElse(x: Else, c: Scope, a: nat): seq<nat>
    decreases x, 1
  {
    match x
    case NoElse => []
    case ElseBlock(ss) => SitesTail(ss, Inner(c), a)
    case ElseIf(i) => SitesIf(i, c, a)
  }

  // Two-byte sites in increasing order, not overlapping, each behind its opcode.
  ghost predicate Spread(sites: seq<nat>, lo: nat, hi: nat) {
    && (forall i :: 0 <= i < |sites| ==> lo < sites[i] && sites[i] + 2 <= hi)
    && (forall i, j :: 0 <= i < j < |sites| ==> sites[i] + 3 <= sites[j])
  }

  lemma SpreadBoth(s1: seq<nat>, s2: seq<nat>, lo: nat, mid: nat, mid': nat, hi: nat)
    requires Spread(s1, lo, mid) && Spread(s2, mid', hi) && mid <= mid' && lo <= mid && mid' <= hi
    ensures Spread(s1 + s2, lo, hi)
  {
  }

  lemma SpreadWider(s: seq<nat>, lo: nat, hi: nat, lo': nat, hi': nat)
    requires Spread(s, lo, hi) && lo' <= lo && hi <= hi'
    ensures Spread(s, lo', hi')
  {
  }

  lemma {:induction false} StmtSpread(s: Stmt, c: Scope, a: nat)
    ensures Spread(SitesStmt(s, c, a), a, a + SizeStmt(s, c))
    decreases s, 1
  {
    match s
    case IfStmt(i) => IfSpread(i, c, a);
    case Block(ss) => ListSpread(ss, Inner(c), a);
    case _ =>
  }

  lemma {:induction false} ListSpread(ss: Stmts, c: Scope, a: nat)
    ensures Spread(SitesList(ss, c, a), a, a + SizeList(ss, c))
    decreases ss, 1
  {
    match ss
    case Done =>
    case Then(s, rest) =>
      var b := a + SizeStmt(s, c);
      StmtSpread(s, c, a);
      ListSpread(rest, After(s, c), b);
      SpreadBoth(SitesStmt(s, c, a), SitesList(rest, After(s, c), b), a, b, b, a + SizeList(ss, c));
  }

  lemma {:induction false} TailSpread(ss: Stmts, c: Scope, a: nat)
    ensures Spread(SitesTail(ss, c, a), a, a + SizeTail(ss, c))
    decreases ss, 1
  {
    if ss.Then? && !(ss.head.Eval? && ss.tail.Done?) {
      var s := ss.head;
      var b := a + SizeStmt(s, c);
      StmtSpread(s, c, a);
      TailSpread(ss.tail, After(s, c), b);
      SpreadBoth(SitesStmt(s, c, a), SitesTail(ss.tail, After(s, c), b), a, b, b, a + SizeTail(ss, c));
    }
  }

  lemma {:induction false} IfSpread(i: If, c: Scope, a: nat)
    ensures Spread(SitesIf(i, c, a), a, a + SizeIf(i, c))
    decreases i, 1
  {
    var b, n := a + SizeExpr(i.cond) + 4, SizeBranch(i.thn, c);
    TailSpread(i.thn, Inner(c), b);
    ElseSpread(i.els, c, b + n + 4);
    SpreadWider(SitesTail(i.thn, Inner(c), b), b, b + SizeTail(i.thn, Inner(c)), a, b + n);
    SpreadBoth(SitesTail(i.thn, Inner(c), b), SitesElse(i.els, c, b + n + 4), a, b + n, b + n + 4, a + SizeIf(i, c));
  }

  lemma {:induction false} ElseSpread(x: Else, c: Scope, a: nat)
    ensures Spread(SitesElse(x, c, a), a, a + SizeElse(x, c))
    decreases x, 1
  {
    match x
    case NoElse =>
    case ElseBlock(ss) =>
      TailSpread(ss, Inner(c), a);
      SpreadWider(SitesTail(ss, Inner(c), a), a, a + SizeTail(ss, Inner(c)), a, a + SizeBranch(ss, c));
    case ElseIf(i) => IfSpread(i, c, a);
  }

  // --- Patching all of them ---

  // Every site is the operand of a break that goes to `exit`, or has its placeholder if there is none yet.
  ghost predicate Breaks(code: seq<byte>, sites: seq<nat>, exit: Option<nat>) {
    forall i :: 0 <= i < |sites| ==> sites[i] >= 1 && BreakAt(code, sites[i] - 1, exit)
  }

  predicate Inside(sites: seq<nat>, n: nat) {
    forall i :: 0 <= i < |sites| ==> sites[i] + 2 <= n
  }

  function PatchAll(code: seq<byte>, sites: seq<nat>): (r: seq<byte>)
    requires Inside(sites, |code|)
    ensures |r| == |code|
    decreases |sites|
  {
    if sites == [] then code else Patched(PatchAll(code, sites[..|sites| - 1]), sites[|sites| - 1])
  }

  predicate Hole(sites: seq<nat>, i: nat) {
    exists k :: 0 <= k < |sites| && sites[k] <= i < sites[k] + 2
  }

  lemma PatchOne(code: seq<byte>, o: nat, exit: nat)
    requires 1 <= o && o + 2 <= |code| && BreakAt(code, o - 1, None) && exit == |code|
    ensures BreakAt(Patched(code, o), o - 1, Some(exit))
  {
  }

  lemma BreakFrame(c1: seq<byte>, c2: seq<byte>, a: nat, exit: Option<nat>)
    requires BreakAt(c1, a, exit) && Same(c1, c2, a, a + 3)
    ensures BreakAt(c2, a, exit)
  {
  }

  lemma {:induction false} PatchAllElsewhere(code: seq<byte>, sites: seq<nat>, i: nat)
    requires Inside(sites, |code|) && i < |code| && !Hole(sites, i)
    ensures PatchAll(code, sites)[i] == code[i]
    decreases |sites|
  {
    if sites != [] {
      var n := |sites| - 1;
      assert forall k :: 0 <= k < n ==> sites[..n][k] == sites[k];
      PatchAllElsewhere(code, sites[..n], i);
      assert !(sites[n] <= i < sites[n] + 2);
    }
  }

  // A break that is not among the patched ones stays as it is.
  lemma PatchAllKeeps(code: seq<byte>, sites: seq<nat>, o: nat, exit: Option<nat>)
    requires Inside(sites, |code|) && 1 <= o && BreakAt(code, o - 1, exit)
    requires forall k :: 0 <= k < |sites| ==> sites[k] + 3 <= o
    ensures BreakAt(PatchAll(code, sites), o - 1, exit)
  {
    hide BreakAt, PatchAll;
    assert o + 2 <= |code| by { BreakEnds(code, o - 1, exit); }
    forall i | o - 1 <= i < o + 2 ensures code[i] == PatchAll(code, sites)[i] {
      PatchAllElsewhere(code, sites, i);
    }
    BreakFrame(code, PatchAll(code, sites), o - 1, exit);
  }

  lemma BreakEnds(code: seq<byte>, a: nat, exit: Option<nat>)
    requires BreakAt(code, a, exit)
    ensures a + 3 <= |code|
  {
  }

  lemma {:induction false} PatchAllWorks(code: seq<byte>, sites: seq<nat>)
    requires Spread(sites, 0, |code|) && Breaks(code, sites, None) && Inside(sites, |code|)
    ensures Breaks(PatchAll(code, sites), sites, Some(|code|))
    decreases |sites|
  {
    hide BreakAt, Patched;
    if sites != [] {
      var n := |sites| - 1;
      var first, o := sites[..n], sites[n];
      var mid := PatchAll(code, first);
      assert forall k :: 0 <= k < n ==> first[k] == sites[k];
      PatchAllWorks(code, first);
      PatchAllKeeps(code, first, o, None);
      PatchOne(mid, o, |code|);
      forall k | 0 <= k < |sites| ensures sites[k] >= 1 && BreakAt(PatchAll(code, sites), sites[k] - 1, Some(|code|)) {
        if k < n {
          assert BreakAt(mid, first[k] - 1, Some(|code|));
          BreakFrame(mid, Patched(mid, o), sites[k] - 1, Some(|code|));
        }
      }
    }
  }

  // --- The sites are the breaks ---

  // All breaks of the statement go where its loop says; outside a loop it has none.
  ghost predicate Open(code: seq<byte>, sites: seq<nat>, l: Option<Loop>) {
    if l.None? then sites == [] else Breaks(code, sites, l.value.exit)
  }

  lemma OpenBoth(code: seq<byte>, s1: seq<nat>, s2: seq<nat>, l: Option<Loop>)
    requires Open(code, s1, l) && Open(code, s2, l)
    ensures Open(code, s1 + s2, l)
  {
    hide BreakAt;
  }

  lemma {:induction false} StmtOpen(code: seq<byte>, a: nat, s: Stmt, c: Scope, l: Option<Loop>, pools: Pools)
    requires StmtAt(code, a, s, c, l, pools)
    ensures Open(code, SitesStmt(s, c, a), l)
    decreases s, 1
  {
    hide ExprAt, JumpAt, OpAt, PopsAt, BackAt, BreakAt, ListAt, IfAt, SitesIf, SitesList;
    match s
    case IfStmt(i) => IfOpen(code, a, i, c, l, pools);
    case Block(ss) => ListOpen(code, a, ss, Inner(c), l, pools);
    case Break =>
    case _ =>
  }

  lemma {:induction false} ListOpen(code: seq<byte>, a: nat, ss: Stmts, c: Scope, l: Option<Loop>, pools: Pools)
    requires ListAt(code, a, ss, c, l, pools)
    ensures Open(code, SitesList(ss, c, a), l)
    decreases ss, 1
  {
    hide StmtAt, BreakAt, SitesStmt, SizeStmt, StmtPools;
    match ss
    case Done =>
    case Then(s, rest) =>
      StmtOpen(code, a, s, c, l, pools);
      ListOpen(code, a + SizeStmt(s, c), rest, After(s, c), l, StmtPools(s, c, pools));
      OpenBoth(code, SitesStmt(s, c, a), SitesList(rest, After(s, c), a + SizeStmt(s, c)), l);
  }

  lemma {:induction false} TailOpen(code: seq<byte>, a: nat, ss: Stmts, c: Scope, l: Option<Loop>, pools: Pools)
    requires TailAt(code, a, ss, c, l, pools)
    ensures Open(code, SitesTail(ss, c, a), l)
    decreases ss, 1
  {
    hide StmtAt, BreakAt, ExprAt, OpAt, SitesStmt, SizeStmt, StmtPools;
    if ss.Then? && !(ss.head.Eval? && ss.tail.Done?) {
      var s := ss.head;
      StmtOpen(code, a, s, c, l, pools);
      TailOpen(code, a + SizeStmt(s, c), ss.tail, After(s, c), l, StmtPools(s, c, pools));
      OpenBoth(code, SitesStmt(s, c, a), SitesTail(ss.tail, After(s, c), a + SizeStmt(s, c)), l);
    }
  }

  lemma {:induction false} IfOpen(code: seq<byte>, a: nat, i: If, c: Scope, l: Option<Loop>, pools: Pools)
    requires IfAt(code, a, i, c, l, pools)
    ensures Open(code, SitesIf(i, c, a), l)
    decreases i, 1
  {
    hide TailAt, ElseAt, BreakAt, ExprAt, OpAt, JumpAt, PopsAt, SitesTail, SitesElse, SizeBranch, SizeElse, SizeExpr, ExprPools, ListPools;
    var b, n, p1 := a + SizeExpr(i.cond) + 4, SizeBranch(i.thn, c), ExprPools(i.cond, c.locals, pools);
    TailOpen(code, b, i.thn, Inner(c), l, p1);
    ElseOpen(code, b + n + 4, i.els, c, l, ListPools(i.thn, Inner(c), p1));
    OpenBoth(code, SitesTail(i.thn, Inner(c), b), SitesElse(i.els, c, b + n + 4), l);
  }

  lemma {:induction false} ElseOpen(code: seq<byte>, a: nat, x: Else, c: Scope, l: Option<Loop>, pools: Pools)
    requires ElseAt(code, a, x, c, l, pools)
    ensures Open(code, SitesElse(x, c, a), l)
    decreases x, 1
  {
    hide TailAt, BreakAt, OpAt, PopsAt, IfAt, SitesTail, SitesIf;
    match x
    case NoElse =>
    case ElseBlock(ss) => TailOpen(code, a, ss, Inner(c), l, pools);
    case ElseIf(i) => IfOpen(code, a, i, c, l, pools);
  }

  // --- Patching the sites aims the statement ---

  // Outside the sites nothing has changed, and the sites are breaks to `exit` now.
  ghost predicate Moved(c1: seq<byte>, c2: seq<byte>, lo: nat, hi: nat, sites: seq<nat>, exit: Option<nat>) {
    && hi <= |c1| && hi <= |c2| && Breaks(c2, sites, exit)
    && forall i :: lo <= i < hi && !Hole(sites, i) ==> c1[i] == c2[i]
  }

  function Aim(l: Option<Loop>, exit: Option<nat>): Option<Loop> {
    if l.None? then None else Some(l.value.(exit := exit))
  }

  predicate Above(sites: seq<nat>, n: nat) {
    forall k :: 0 <= k < |sites| ==> n <= sites[k]
  }

  // No site reaches into the range.
  predicate Clear(sites: seq<nat>, lo: nat, hi: nat) {
    forall k :: 0 <= k < |sites| ==> sites[k] + 2 <= lo || hi <= sites[k]
  }

  lemma HoleBoth(s1: seq<nat>, s2: seq<nat>, i: nat)
    ensures Hole(s1 + s2, i) ==> Hole(s1, i) || Hole(s2, i)
  {
    if Hole(s1 + s2, i) {
      var k :| 0 <= k < |s1 + s2| && (s1 + s2)[k] <= i < (s1 + s2)[k] + 2;
      assert if k < |s1| then s1[k] <= i < s1[k] + 2 else s2[k - |s1|] <= i < s2[k - |s1|] + 2;
    }
  }

  lemma MovedLeft(c1: seq<byte>, c2: seq<byte>, lo: nat, hi: nat, s1: seq<nat>, s2: seq<nat>, x: Option<nat>, lo': nat, hi': nat)
    requires Moved(c1, c2, lo, hi, s1 + s2, x) && lo <= lo' && hi' <= hi
    requires Above(s2, hi')
    ensures Moved(c1, c2, lo', hi', s1, x)
  {
    hide BreakAt;
    forall i | lo' <= i < hi' && !Hole(s1, i) ensures c1[i] == c2[i] {
      HoleBoth(s1, s2, i);
    }
    forall k | 0 <= k < |s1| ensures s1[k] >= 1 && BreakAt(c2, s1[k] - 1, x) {
      assert (s1 + s2)[k] == s1[k];
    }
  }

  lemma MovedRight(c1: seq<byte>, c2: seq<byte>, lo: nat, hi: nat, s1: seq<nat>, s2: seq<nat>, x: Option<nat>, lo': nat, hi': nat)
    requires Moved(c1, c2, lo, hi, s1 + s2, x) && lo <= lo' && hi' <= hi
    requires Inside(s1, lo')
    ensures Moved(c1, c2, lo', hi', s2, x)
  {
    hide BreakAt;
    forall i | lo' <= i < hi' && !Hole(s2, i) ensures c1[i] == c2[i] {
      HoleBoth(s1, s2, i);
    }
    forall k | 0 <= k < |s2| ensures s2[k] >= 1 && BreakAt(c2, s2[k] - 1, x) {
      assert (s1 + s2)[|s1| + k] == s2[k];
    }
  }

  lemma MovedSame(c1: seq<byte>, c2: seq<byte>, lo: nat, hi: nat, sites: seq<nat>, x: Option<nat>, lo': nat, hi': nat)
    requires Moved(c1, c2, lo, hi, sites, x) && lo <= lo' && hi' <= hi
    requires Clear(sites, lo', hi')
    ensures Same(c1, c2, lo', hi')
  {
    hide BreakAt, Breaks;
  }

  lemma SameMoved(c1: seq<byte>, c2: seq<byte>, lo: nat, hi: nat, sites: seq<nat>, x: Option<nat>)
    requires Same(c1, c2, lo, hi) && Breaks(c1, sites, x) && Spread(sites, lo, hi)
    ensures Moved(c1, c2, lo, hi, sites, x)
  {
    hide BreakAt;
    forall k | 0 <= k < |sites| ensures sites[k] >= 1 && BreakAt(c2, sites[k] - 1, x) {
      BreakFrame(c1, c2, sites[k] - 1, x);
    }
  }

  lemma FramePops(c1: seq<byte>, c2: seq<byte>, a: nat, n: nat)
    requires PopsAt(c1, a, n) && Same(c1, c2, a, a + n)
    ensures PopsAt(c2, a, n)
  {
  }

  lemma FrameBack(c1: seq<byte>, c2: seq<byte>, a: nat, head: nat)
    requires BackAt(c1, a, head) && Same(c1, c2, a, a + 3)
    ensures BackAt(c2, a, head)
  {
  }

  lemma FrameArg(c1: seq<byte>, c2: seq<byte>, a: nat, op: byte, i: nat)
    requires ArgAt(c1, a, op, i) && Same(c1, c2, a, a + 3)
    ensures ArgAt(c2, a, op, i)
  {
  }

  lemma IfShape(code: seq<byte>, a: nat, i: If, c: Scope, l: Option<Loop>, pools: Pools)
    ensures var b, n, p1 := a + SizeExpr(i.cond), SizeBranch(i.thn, c), ExprPools(i.cond, c.locals, pools);
            var d := b + 4 + n;
            && SizeIf(i, c) == SizeExpr(i.cond) + 4 + n + 4 + SizeElse(i.els, c)
            && (IfAt(code, a, i, c, l, pools) <==>
                && ExprAt(code, a, i.cond, c.locals, pools)
                && JumpAt(code, b, OP_JUMP_UNLESS, 1 + n + 3) && OpAt(code, b + 3, OP_POP)
                && BranchAt(code, b + 4, i.thn, c, l, p1)
                && JumpAt(code, d, OP_JUMP, 1 + SizeElse(i.els, c)) && OpAt(code, d + 3, OP_POP)
                && ElseAt(code, d + 4, i.els, c, l, ListPools(i.thn, Inner(c), p1)))
  {
    hide ExprAt, JumpAt, OpAt, BranchAt, ElseAt, SizeExpr, SizeBranch, SizeElse, ExprPools, ListPools;
  }

  lemma WhileShape(code: seq<byte>, a: nat, s: Stmt, c: Scope, l: Option<Loop>, pools: Pools)
    requires s.While?
    ensures var b, n := a + SizeExpr(s.cond), SizeBlock(s.body, InLoop(c));
            && SizeStmt(s, c) == SizeExpr(s.cond) + 4 + n + 4
            && (StmtAt(code, a, s, c, l, pools) <==>
                && ExprAt(code, a, s.cond, c.locals, pools)
                && JumpAt(code, b, OP_JUMP_UNLESS, 1 + n + 3) && OpAt(code, b + 3, OP_POP)
                && BlockAt(code, b + 4, s.body, InLoop(c), Some(Loop(a, Some(b + 4 + n + 4))), ExprPools(s.cond, c.locals, pools))
                && BackAt(code, b + 4 + n, a) && OpAt(code, b + 4 + n + 3, OP_POP))
  {
    hide ExprAt, JumpAt, OpAt, BlockAt, BackAt, SizeExpr, SizeBlock, ExprPools;
  }

  lemma LoopFrame(c1: seq<byte>, c2: seq<byte>, a: nat, s: Stmt, c: Scope, l: Option<Loop>, l': Option<Loop>, pools: Pools)
    requires s.While? && StmtAt(c1, a, s, c, l, pools) && Same(c1, c2, a, a + SizeStmt(s, c))
    ensures StmtAt(c2, a, s, c, l', pools)
    decreases s, 0
  {
    hide *;
    WhileShape(c1, a, s, c, l, pools);
    WhileShape(c2, a, s, c, l', pools);
    var b, n, hi := a + SizeExpr(s.cond), SizeBlock(s.body, InLoop(c)), a + SizeStmt(s, c);
    SameSub(c1, c2, a, hi, a, b);
    FrameExpr(c1, c2, a, s.cond, c.locals, pools);
    SameSub(c1, c2, a, hi, b, b + 3);
    FrameJump(c1, c2, b, OP_JUMP_UNLESS, 1 + n + 3);
    SameSub(c1, c2, a, hi, b + 3, b + 4);
    FrameOp(c1, c2, b + 3, OP_POP);
    SameSub(c1, c2, a, hi, b + 4, b + 4 + n);
    BlockFrame(c1, c2, b + 4, s.body, InLoop(c), Some(Loop(a, Some(b + 4 + n + 4))), ExprPools(s.cond, c.locals, pools));
    SameSub(c1, c2, a, hi, b + 4 + n, b + 4 + n + 3);
    FrameBack(c1, c2, b + 4 + n, a);
    SameSub(c1, c2, a, hi, b + 4 + n + 3, hi);
    FrameOp(c1, c2, b + 4 + n + 3, OP_POP);
  }

  lemma BlockFrame(c1: seq<byte>, c2: seq<byte>, a: nat, ss: Stmts, c: Scope, l: Option<Loop>, pools: Pools)
    requires l.Some? && BlockAt(c1, a, ss, c, l, pools) && Same(c1, c2, a, a + SizeBlock(ss, c))
    ensures BlockAt(c2, a, ss, c, l, pools)
    decreases ss, 2
  {
    hide ListAt, PopsAt, SizeList, Same, SitesList, Breaks, Moved, Spread;
    var mid, hi, sites := a + SizeList(ss, Inner(c)), a + SizeBlock(ss, c), SitesList(ss, Inner(c), a);
    SameSub(c1, c2, a, hi, a, mid);
    SameSub(c1, c2, a, hi, mid, hi);
    ListOpen(c1, a, ss, Inner(c), l, pools);
    ListSpread(ss, Inner(c), a);
    SameMoved(c1, c2, a, mid, sites, l.value.exit);
    ListMoved(c1, c2, a, ss, Inner(c), l, l.value.exit, pools);
    FramePops(c1, c2, mid, Declared(ss));
  }

  lemma StmtMoved(c1: seq<byte>, c2: seq<byte>, a: nat, s: Stmt, c: Scope, l: Option<Loop>, x: Option<nat>, pools: Pools)
    requires StmtAt(c1, a, s, c, l, pools) && Moved(c1, c2, a, a + SizeStmt(s, c), SitesStmt(s, c, a), x)
    ensures StmtAt(c2, a, s, c, Aim(l, x), pools)
    decreases s, 1
  {
    var hi, sites := a + SizeStmt(s, c), SitesStmt(s, c, a);
    match s
    case IfStmt(i) => IfStmtMoved(c1, c2, a, s, c, l, x, pools);
    case Block(ss) => BlockMoved(c1, c2, a, ss, c, l, x, pools);
    case Break => BreakMoved(c1, c2, a, s, c, l, x, pools);
    case While(_, _) =>
      MovedSame(c1, c2, a, hi, sites, x, a, hi);
      LoopFrame(c1, c2, a, s, c, l, Aim(l, x), pools);
    case _ =>
      MovedSame(c1, c2, a, hi, sites, x, a, hi);
      PlainFrame(c1, c2, a, s, c, l, Aim(l, x), pools);
  }

  lemma BreakMoved(c1: seq<byte>, c2: seq<byte>, a: nat, s: Stmt, c: Scope, l: Option<Loop>, x: Option<nat>, pools: Pools)
    requires s.Break? && StmtAt(c1, a, s, c, l, pools) && Moved(c1, c2, a, a + SizeStmt(s, c), SitesStmt(s, c, a), x)
    ensures StmtAt(c2, a, s, c, Aim(l, x), pools)
  {
    hide BreakAt, PopsAt;
    var o := a + c.over + 1;
    assert SitesStmt(s, c, a)[0] == o;
    MovedSame(c1, c2, a, a + SizeStmt(s, c), SitesStmt(s, c, a), x, a, a + c.over);
    FramePops(c1, c2, a, c.over);
  }

  // Statements without breaks and without parts.
  lemma PlainFrame(c1: seq<byte>, c2: seq<byte>, a: nat, s: Stmt, c: Scope, l: Option<Loop>, l': Option<Loop>, pools: Pools)
    requires (s.Let? || s.Eval? || s.Continue?) && StmtAt(c1, a, s, c, l, pools) && Same(c1, c2, a, a + SizeStmt(s, c))
    requires (l.Some? <==> l'.Some?) && (l.Some? ==> l.value.head == l'.value.head)
    ensures StmtAt(c2, a, s, c, l', pools)
  {
    hide ExprAt, OpAt, ArgAt, PopsAt, BackAt, IndexOf, SizeExpr, ExprPools;
    match s
    case Let(name, _, e) =>
      FrameExpr(c1, c2, a, e, c.locals, pools);
      if c.depth == 0 {
        FrameArg(c1, c2, a + SizeExpr(e), OP_SET_GLOBAL, IndexOf(ExprPools(e, c.locals, pools).strings, name));
        FrameOp(c1, c2, a + SizeExpr(e) + 3, OP_POP);
      }
    case Eval(e) =>
      FrameExpr(c1, c2, a, e, c.locals, pools);
      FrameOp(c1, c2, a + SizeExpr(e), OP_POP);
    case Continue =>
      FramePops(c1, c2, a, c.over);
      FrameBack(c1, c2, a + c.over, l.value.head);
  }

  lemma BlockMoved(c1: seq<byte>, c2: seq<byte>, a: nat, ss: Stmts, c: Scope, l: Option<Loop>, x: Option<nat>, pools: Pools)
    requires BlockAt(c1, a, ss, c, l, pools) && Moved(c1, c2, a, a + SizeBlock(ss, c), SitesList(ss, Inner(c), a), x)
    ensures BlockAt(c2, a, ss, c, Aim(l, x), pools)
    decreases ss, 2
  {
    hide ListAt, PopsAt, SizeList, SitesList, Breaks, Moved;
    var mid, hi, sites := a + SizeList(ss, Inner(c)), a + SizeBlock(ss, c), SitesList(ss, Inner(c), a);
    ListSpread(ss, Inner(c), a);
    assert sites + [] == sites;
    MovedLeft(c1, c2, a, hi, sites, [], x, a, mid);
    MovedSame(c1, c2, a, hi, sites, x, mid, hi);
    ListMoved(c1, c2, a, ss, Inner(c), l, x, pools);
    FramePops(c1, c2, mid, Declared(ss));
  }

  lemma BranchMoved(c1: seq<byte>, c2: seq<byte>, a: nat, ss: Stmts, c: Scope, l: Option<Loop>, x: Option<nat>, pools: Pools)
    requires BranchAt(c1, a, ss, c, l, pools) && Moved(c1, c2, a, a + SizeBranch(ss, c), SitesTail(ss, Inner(c), a), x)
    ensures BranchAt(c2, a, ss, c, Aim(l, x), pools)
    decreases ss, 2
  {
    hide TailAt, PopsAt, SizeTail, SitesTail, Breaks, Moved;
    var mid, hi, sites := a + SizeTail(ss, Inner(c)), a + SizeBranch(ss, c), SitesTail(ss, Inner(c), a);
    TailSpread(ss, Inner(c), a);
    assert sites + [] == sites;
    MovedLeft(c1, c2, a, hi, sites, [], x, a, mid);
    MovedSame(c1, c2, a, hi, sites, x, mid, hi);
    TailMoved(c1, c2, a, ss, Inner(c), l, x, pools);
    FramePops(c1, c2, mid, Declared(ss));
  }

  lemma ListMoved(c1: seq<byte>, c2: seq<byte>, a: nat, ss: Stmts, c: Scope, l: Option<Loop>, x: Option<nat>, pools: Pools)
    requires ListAt(c1, a, ss, c, l, pools) && Moved(c1, c2, a, a + SizeList(ss, c), SitesList(ss, c, a), x)
    ensures ListAt(c2, a, ss, c, Aim(l, x), pools)
    decreases ss, 1
  {
    hide StmtAt, SizeStmt, SitesStmt, StmtPools, Breaks, Moved, Aim;
    match ss
    case Done =>
    case Then(s, rest) =>
      var d, b, hi := After(s, c), a + SizeStmt(s, c), a + SizeList(ss, c);
      var s1, s2 := SitesStmt(s, c, a), SitesList(rest, d, b);
      StmtSpread(s, c, a);
      ListSpread(rest, d, b);
      MovedLeft(c1, c2, a, hi, s1, s2, x, a, b);
      MovedRight(c1, c2, a, hi, s1, s2, x, b, hi);
      StmtMoved(c1, c2, a, s, c, l, x, pools);
      ListMoved(c1, c2, b, rest, d, l, x, StmtPools(s, c, pools));
  }

  lemma TailMoved(c1: seq<byte>, c2: seq<byte>, a: nat, ss: Stmts, c: Scope, l: Option<Loop>, x: Option<nat>, pools: Pools)
    requires TailAt(c1, a, ss, c, l, pools) && Moved(c1, c2, a, a + SizeTail(ss, c), SitesTail(ss, c, a), x)
    ensures TailAt(c2, a, ss, c, Aim(l, x), pools)
    decreases ss, 1
  {
    hide StmtAt, SizeStmt, SitesStmt, StmtPools, Breaks, Moved, Aim, ExprAt, OpAt, Same, ExprPools;
    var hi := a + SizeTail(ss, c);
    if ss.Done? {
      MovedSame(c1, c2, a, hi, [], x, a, hi);
      FrameOp(c1, c2, a, OP_NIL);
    } else if ss.head.Eval? && ss.tail.Done? {
      MovedSame(c1, c2, a, hi, [], x, a, hi);
      FrameExpr(c1, c2, a, ss.head.e, c.locals, pools);
    } else {
      var s := ss.head;
      var d, b := After(s, c), a + SizeStmt(s, c);
      var s1, s2 := SitesStmt(s, c, a), SitesTail(ss.tail, d, b);
      StmtSpread(s, c, a);
      TailSpread(ss.tail, d, b);
      MovedLeft(c1, c2, a, hi, s1, s2, x, a, b);
      MovedRight(c1, c2, a, hi, s1, s2, x, b, hi);
      StmtMoved(c1, c2, a, s, c, l, x, pools);
      TailMoved(c1, c2, b, ss.tail, d, l, x, StmtPools(s, c, pools));
    }
  }

  lemma IfStmtMoved(c1: seq<byte>, c2: seq<byte>, a: nat, s: Stmt, c: Scope, l: Option<Loop>, x: Option<nat>, pools: Pools)
    requires s.IfStmt? && StmtAt(c1, a, s, c, l, pools) && Moved(c1, c2, a, a + SizeStmt(s, c), SitesStmt(s, c, a), x)
    ensures StmtAt(c2, a, s, c, Aim(l, x), pools)
    decreases s, 0
  {
    hide IfAt, OpAt, SizeIf, SitesIf, Breaks, Moved;
    var mid, hi, sites := a + SizeIf(s.branch, c), a + SizeStmt(s, c), SitesIf(s.branch, c, a);
    IfSpread(s.branch, c, a);
    assert sites + [] == sites;
    MovedLeft(c1, c2, a, hi, sites, [], x, a, mid);
    MovedSame(c1, c2, a, hi, sites, x, mid, hi);
    IfMoved(c1, c2, a, s.branch, c, l, x, pools);
    FrameOp(c1, c2, mid, OP_POP);
  }

  lemma IfMoved(c1: seq<byte>, c2: seq<byte>, a: nat, i: If, c: Scope, l: Option<Loop>, x: Option<nat>, pools: Pools)
    requires IfAt(c1, a, i, c, l, pools) && Moved(c1, c2, a, a + SizeIf(i, c), SitesIf(i, c, a), x)
    ensures IfAt(c2, a, i, c, Aim(l, x), pools)
    decreases i, 1
  {
    hide *;
    IfShape(c1, a, i, c, l, pools);
    IfShape(c2, a, i, c, Aim(l, x), pools);
    var b, n, p1, hi := a + SizeExpr(i.cond), SizeBranch(i.thn, c), ExprPools(i.cond, c.locals, pools), a + SizeIf(i, c);
    var d := b + 4 + n;
    var s1, s2 := SitesTail(i.thn, Inner(c), b + 4), SitesElse(i.els, c, d + 4);
    IfSites(i, c, a);
    MovedSame(c1, c2, a, hi, s1 + s2, x, a, b);
    FrameExpr(c1, c2, a, i.cond, c.locals, pools);
    MovedSame(c1, c2, a, hi, s1 + s2, x, b, b + 3);
    FrameJump(c1, c2, b, OP_JUMP_UNLESS, 1 + n + 3);
    MovedSame(c1, c2, a, hi, s1 + s2, x, b + 3, b + 4);
    FrameOp(c1, c2, b + 3, OP_POP);
    MovedLeft(c1, c2, a, hi, s1, s2, x, b + 4, d);
    BranchMoved(c1, c2, b + 4, i.thn, c, l, x, p1);
    MovedSame(c1, c2, a, hi, s1 + s2, x, d, d + 3);
    FrameJump(c1, c2, d, OP_JUMP, 1 + SizeElse(i.els, c));
    MovedSame(c1, c2, a, hi, s1 + s2, x, d + 3, d + 4);
    FrameOp(c1, c2, d + 3, OP_POP);
    MovedRight(c1, c2, a, hi, s1, s2, x, d + 4, hi);
    ElseMoved(c1, c2, d + 4, i.els, c, l, x, ListPools(i.thn, Inner(c), p1));
  }

  // The two groups of breaks of an if, and where they lie.
  lemma IfSites(i: If, c: Scope, a: nat)
    ensures var b, n := a + SizeExpr(i.cond), SizeBranch(i.thn, c);
            var s1, s2 := SitesTail(i.thn, Inner(c), b + 4), SitesElse(i.els, c, b + 4 + n + 4);
            && SitesIf(i, c, a) == s1 + s2
            && Above(s2, b + 4 + n) && Inside(s1, b + 4 + n + 4)
            && Clear(s1 + s2, a, b) && Clear(s1 + s2, b, b + 3) && Clear(s1 + s2, b + 3, b + 4)
            && Clear(s1 + s2, b + 4 + n, b + 4 + n + 3) && Clear(s1 + s2, b + 4 + n + 3, b + 4 + n + 4)
  {
    hide SizeExpr, SizeTail, SitesTail, SizeElse, SitesElse;
    var b, n := a + SizeExpr(i.cond) + 4, SizeBranch(i.thn, c);
    TailSpread(i.thn, Inner(c), b);
    ElseSpread(i.els, c, b + n + 4);
  }

  lemma ElseMoved(c1: seq<byte>, c2: seq<byte>, a: nat, e: Else, c: Scope, l: Option<Loop>, x: Option<nat>, pools: Pools)
    requires ElseAt(c1, a, e, c, l, pools) && Moved(c1, c2, a, a + SizeElse(e, c), SitesElse(e, c, a), x)
    ensures ElseAt(c2, a, e, c, Aim(l, x), pools)
    decreases e, 1
  {
    hide BranchAt, IfAt, OpAt, Moved, Aim, SizeBranch, SizeIf, SitesTail, SitesIf, Same;
    match e
    case NoElse =>
      MovedSame(c1, c2, a, a + 1, [], x, a, a + 1);
      FrameOp(c1, c2, a, OP_NIL);
    case ElseBlock(ss) => BranchMoved(c1, c2, a, ss, c, l, x, pools);
    case ElseIf(i) => IfMoved(c1, c2, a, i, c, l, x, pools);
  }

  // --- Code elsewhere does not matter to statements either ---

  function Exit(l: Option<Loop>): Option<nat> {
    if l.None? then None else l.value.exit
  }

  lemma OpenBreaks(code: seq<byte>, sites: seq<nat>, l: Option<Loop>)
    requires Open(code, sites, l)
    ensures Breaks(code, sites, Exit(l))
  {
  }

  lemma AimSame(l: Option<Loop>)
    ensures Aim(l, Exit(l)) == l
  {
  }

  lemma StmtFrame(c1: seq<byte>, c2: seq<byte>, a: nat, s: Stmt, c: Scope, l: Option<Loop>, pools: Pools)
    requires StmtAt(c1, a, s, c, l, pools) && Same(c1, c2, a, a + SizeStmt(s, c))
    ensures StmtAt(c2, a, s, c, l, pools)
  {
    hide *;
    StmtOpen(c1, a, s, c, l, pools);
    StmtSpread(s, c, a);
    var x := Exit(l);
    OpenBreaks(c1, SitesStmt(s, c, a), l);
    SameMoved(c1, c2, a, a + SizeStmt(s, c), SitesStmt(s, c, a), x);
    StmtMoved(c1, c2, a, s, c, l, x, pools);
    AimSame(l);
  }

  lemma ListFrame(c1: seq<byte>, c2: seq<byte>, a: nat, ss: Stmts, c: Scope, l: Option<Loop>, pools: Pools)
    requires ListAt(c1, a, ss, c, l, pools) && Same(c1, c2, a, a + SizeList(ss, c))
    ensures ListAt(c2, a, ss, c, l, pools)
  {
    hide *;
    ListOpen(c1, a, ss, c, l, pools);
    ListSpread(ss, c, a);
    var x := Exit(l);
    OpenBreaks(c1, SitesList(ss, c, a), l);
    SameMoved(c1, c2, a, a + SizeList(ss, c), SitesList(ss, c, a), x);
    ListMoved(c1, c2, a, ss, c, l, x, pools);
    AimSame(l);
  }

  lemma TailFrame(c1: seq<byte>, c2: seq<byte>, a: nat, ss: Stmts, c: Scope, l: Option<Loop>, pools: Pools)
    requires TailAt(c1, a, ss, c, l, pools) && Same(c1, c2, a, a + SizeTail(ss, c))
    ensures TailAt(c2, a, ss, c, l, pools)
  {
    hide *;
    TailOpen(c1, a, ss, c, l, pools);
    TailSpread(ss, c, a);
    var x := Exit(l);
    OpenBreaks(c1, SitesTail(ss, c, a), l);
    SameMoved(c1, c2, a, a + SizeTail(ss, c), SitesTail(ss, c, a), x);
    TailMoved(c1, c2, a, ss, c, l, x, pools);
    AimSame(l);
  }

  lemma IfFrame(c1: seq<byte>, c2: seq<byte>, a: nat, i: If, c: Scope, l: Option<Loop>, pools: Pools)
    requires IfAt(c1, a, i, c, l, pools) && Same(c1, c2, a, a + SizeIf(i, c))
    ensures IfAt(c2, a, i, c, l, pools)
  {
    hide *;
    IfOpen(c1, a, i, c, l, pools);
    IfSpread(i, c, a);
    var x := Exit(l);
    OpenBreaks(c1, SitesIf(i, c, a), l);
    SameMoved(c1, c2, a, a + SizeIf(i, c), SitesIf(i, c, a), x);
    IfMoved(c1, c2, a, i, c, l, x, pools);
    AimSame(l);
  }

  lemma ElseFrame(c1: seq<byte>, c2: seq<byte>, a: nat, e: Else, c: Scope, l: Option<Loop>, pools: Pools)
    requires ElseAt(c1, a, e, c, l, pools) && Same(c1, c2, a, a + SizeElse(e, c))
    ensures ElseAt(c2, a, e, c, l, pools)
  {
    hide *;
    ElseOpen(c1, a, e, c, l, pools);
    ElseSpread(e, c, a);
    var x := Exit(l);
    OpenBreaks(c1, SitesElse(e, c, a), l);
    SameMoved(c1, c2, a, a + SizeElse(e, c), SitesElse(e, c, a), x);
    ElseMoved(c1, c2, a, e, c, l, x, pools);
    AimSame(l);
  }

  lemma BranchFrame(c1: seq<byte>, c2: seq<byte>, a: nat, ss: Stmts, c: Scope, l: Option<Loop>, pools: Pools)
    requires BranchAt(c1, a, ss, c, l, pools) && Same(c1, c2, a, a + SizeBranch(ss, c))
    ensures BranchAt(c2, a, ss, c, l, pools)
  {
    hide TailAt, PopsAt, SizeTail, Same;
    var mid, hi := a + SizeTail(ss, Inner(c)), a + SizeBranch(ss, c);
    SameSub(c1, c2, a, hi, a, mid);
    SameSub(c1, c2, a, hi, mid, hi);
    TailFrame(c1, c2, a, ss, Inner(c), l, pools);
    FramePops(c1, c2, mid, Declared(ss));
  }

  // --- Building statements ---

  function Pops(n: nat): (r: seq<byte>)
    ensures |r| == n
  {
    seq(n, i => OP_POP)
  }

  lemma PopsEmitted(code: seq<byte>, n: nat)
    ensures PopsAt(code + Pops(n), |code|, n)
  {
  }

  lemma ListBuilt(c1: seq<byte>, c2: seq<byte>, a: nat, ss: Stmts, c: Scope, l: Option<Loop>, pools: Pools)
    requires ss.Then? && StmtAt(c1, a, ss.head, c, l, pools) && |c1| == a + SizeStmt(ss.head, c) && c1 <= c2
    requires ListAt(c2, |c1|, ss.tail, After(ss.head, c), l, StmtPools(ss.head, c, pools))
    ensures ListAt(c2, a, ss, c, l, pools)
  {
    hide StmtAt, SizeStmt, StmtPools, Same;
    PrefixSame(c1, c2, a, |c1|);
    StmtFrame(c1, c2, a, ss.head, c, l, pools);
  }

  lemma TailBuilt(c1: seq<byte>, c2: seq<byte>, a: nat, ss: Stmts, c: Scope, l: Option<Loop>, pools: Pools)
    requires ss.Then? && !(ss.head.Eval? && ss.tail.Done?)
    requires StmtAt(c1, a, ss.head, c, l, pools) && |c1| == a + SizeStmt(ss.head, c) && c1 <= c2
    requires TailAt(c2, |c1|, ss.tail, After(ss.head, c), l, StmtPools(ss.head, c, pools))
    ensures TailAt(c2, a, ss, c, l, pools)
  {
    hide StmtAt, SizeStmt, StmtPools, Same, ExprAt;
    PrefixSame(c1, c2, a, |c1|);
    StmtFrame(c1, c2, a, ss.head, c, l, pools);
  }

  lemma BlockBuilt(c1: seq<byte>, a: nat, ss: Stmts, c: Scope, l: Option<Loop>, pools: Pools)
    requires ListAt(c1, a, ss, Inner(c), l, pools) && |c1| == a + SizeList(ss, Inner(c))
    ensures BlockAt(c1 + Pops(Declared(ss)), a, ss, c, l, pools)
    ensures SizeBlock(ss, c) == SizeList(ss, Inner(c)) + Declared(ss)
  {
    hide ListAt, SizeList, Same, PopsAt;
    PrefixSame(c1, c1 + Pops(Declared(ss)), a, |c1|);
    ListFrame(c1, c1 + Pops(Declared(ss)), a, ss, Inner(c), l, pools);
    PopsEmitted(c1, Declared(ss));
  }

  lemma BranchBuilt(c1: seq<byte>, a: nat, ss: Stmts, c: Scope, l: Option<Loop>, pools: Pools)
    requires TailAt(c1, a, ss, Inner(c), l, pools) && |c1| == a + SizeTail(ss, Inner(c))
    ensures BranchAt(c1 + Pops(Declared(ss)), a, ss, c, l, pools)
    ensures SizeBranch(ss, c) == SizeTail(ss, Inner(c)) + Declared(ss)
  {
    hide TailAt, SizeTail, Same, PopsAt;
    PrefixSame(c1, c1 + Pops(Declared(ss)), a, |c1|);
    TailFrame(c1, c1 + Pops(Declared(ss)), a, ss, Inner(c), l, pools);
    PopsEmitted(c1, Declared(ss));
  }

  lemma IfBuilt(c1: seq<byte>, c2: seq<byte>, c4: seq<byte>, a: nat, i: If, c: Scope, l: Option<Loop>, pools: Pools)
    requires ExprAt(c1, a, i.cond, c.locals, pools) && |c1| == a + SizeExpr(i.cond)
    requires c1 + JUMP_UNLESS_POP <= c2 && |c2| == |c1| + 4 + SizeBranch(i.thn, c)
    requires Patched(c2 + JUMP_AWAY, |c1| + 1) + [OP_POP] <= c4 && |c4| == |c2| + 4 + SizeElse(i.els, c)
    requires var p1 := ExprPools(i.cond, c.locals, pools);
             && BranchAt(c2, |c1| + 4, i.thn, c, l, p1)
             && ElseAt(c4, |c2| + 4, i.els, c, l, ListPools(i.thn, Inner(c), p1))
    ensures var r := Patched(c4, |c2| + 1); IfAt(r, a, i, c, l, pools) && |r| == a + SizeIf(i, c) && c1 <= r
  {
    hide *;
    var r, p1 := Patched(c4, |c2| + 1), ExprPools(i.cond, c.locals, pools);
    Fork(c1, c2, c4);
    SameSub(c1, r, 0, |c1|, a, |c1|);
    FrameExpr(c1, r, a, i.cond, c.locals, pools);
    BranchFrame(c2, r, |c1| + 4, i.thn, c, l, p1);
    ElseFrame(c4, r, |c2| + 4, i.els, c, l, ListPools(i.thn, Inner(c), p1));
    IfShape(r, a, i, c, l, pools);
  }

  // The back jump, the patched exit jump and the last pop of a while loop.
  lemma LoopEnd(c1: seq<byte>, c2: seq<byte>, a: nat)
    requires c1 + JUMP_UNLESS_POP <= c2 && a <= |c1| && |c2| + 3 - a <= 0xFFFF
    ensures var c3 := Patched(c2 + [OP_LOOP] + HighLow(|c2| + 3 - a), |c1| + 1);
            var r := c3 + [OP_POP];
            && c1 <= r && |r| == |c2| + 4
            && JumpAt(r, |c1|, OP_JUMP_UNLESS, |c2| - |c1|) && OpAt(r, |c1| + 3, OP_POP)
            && BackAt(r, |c2|, a) && OpAt(r, |c2| + 3, OP_POP)
            && Same(c1, r, 0, |c1|) && Same(c2, r, |c1| + 4, |c2|)
  {
    hide Patched, JumpAt, OpAt, ArgAt, HighLow;
    var j, n, k := c2 + [OP_LOOP] + HighLow(|c2| + 3 - a), |c1|, |c2|;
    var c3 := Patched(j, n + 1);
    var r := c3 + [OP_POP];
    ArgEmitted(c2, OP_LOOP, k + 3 - a);
    Skip(c1, j);
    FrameArg(j, r, k, OP_LOOP, k + 3 - a);
    FrameJump(c3, r, n, OP_JUMP_UNLESS, k - n);
    FrameOp(c3, r, n + 3, OP_POP);
    AtEnd(c3, OP_POP);
  }

  // Patching the breaks of the body leaves the rest of the loop alone.
  lemma PatchedLoop(code: seq<byte>, sites: seq<nat>, lo: nat, hi: nat)
    requires lo <= hi && Spread(sites, lo, hi) && hi <= |code| && Inside(sites, |code|) && Breaks(code, sites, None)
    ensures var r := PatchAll(code, sites);
            && Same(code, r, 0, lo) && Same(code, r, hi, |code|) && Moved(code, r, lo, hi, sites, Some(|code|))
  {
    hide BreakAt, PatchAll;
    var r := PatchAll(code, sites);
    PatchAllWorks(code, sites);
    forall i | 0 <= i < |code| && !Hole(sites, i) ensures r[i] == code[i] {
      PatchAllElsewhere(code, sites, i);
    }
  }

  lemma BlockSites(code: seq<byte>, a: nat, ss: Stmts, c: Scope, l: Option<Loop>, pools: Pools)
    requires BlockAt(code, a, ss, c, l, pools) && l.Some?
    ensures Breaks(code, SitesList(ss, Inner(c), a), l.value.exit)
    ensures Spread(SitesList(ss, Inner(c), a), a, a + SizeBlock(ss, c))
  {
    hide ListAt, PopsAt, SizeList, SitesList, Breaks;
    ListOpen(code, a, ss, Inner(c), l, pools);
    ListSpread(ss, Inner(c), a);
    SpreadWider(SitesList(ss, Inner(c), a), a, a + SizeList(ss, Inner(c)), a, a + SizeBlock(ss, c));
  }

  lemma SpreadInside(sites: seq<nat>, lo: nat, hi: nat, n: nat)
    requires Spread(sites, lo, hi) && hi <= n
    ensures Inside(sites, n)
  {
  }

  lemma WhileBuilt(c1: seq<byte>, c2: seq<byte>, a: nat, s: Stmt, c: Scope, l: Option<Loop>, pools: Pools)
    requires s.While? && ExprAt(c1, a, s.cond, c.locals, pools) && |c1| == a + SizeExpr(s.cond)
    requires c1 + JUMP_UNLESS_POP <= c2 && |c2| == |c1| + 4 + SizeBlock(s.body, InLoop(c)) && |c2| + 3 - a <= 0xFFFF
    requires BlockAt(c2, |c1| + 4, s.body, InLoop(c), Some(Loop(a, None)), ExprPools(s.cond, c.locals, pools))
    ensures var c5 := Patched(c2 + [OP_LOOP] + HighLow(|c2| + 3 - a), |c1| + 1) + [OP_POP];
            var sites := SitesList(s.body, Inner(InLoop(c)), |c1| + 4);
            && Inside(sites, |c5|)
            && var r := PatchAll(c5, sites);
               StmtAt(r, a, s, c, l, pools) && |r| == a + SizeStmt(s, c) && c1 <= r
  {
    hide *;
    var n, k, p1, d := |c1|, |c2|, ExprPools(s.cond, c.locals, pools), InLoop(c);
    var c5 := Patched(c2 + [OP_LOOP] + HighLow(k + 3 - a), n + 1) + [OP_POP];
    var sites := SitesList(s.body, Inner(d), n + 4);
    LoopEnd(c1, c2, a);
    var l0, l1 := Some(Loop(a, None)), Some(Loop(a, Some(k + 4)));
    BlockFrame(c2, c5, n + 4, s.body, d, l0, p1);
    BlockSites(c5, n + 4, s.body, d, l0, p1);
    SpreadInside(sites, n + 4, k, |c5|);
    PatchedLoop(c5, sites, n + 4, k);
    var r := PatchAll(c5, sites);
    AimNew(a, k + 4);
    BlockMoved(c5, r, n + 4, s.body, d, l0, Some(k + 4), p1);
    SameSub(c5, r, 0, n + 4, 0, n);
    SameTrans(c1, c5, r, 0, n);
    SamePrefix(c1, r);
    SameSub(c1, r, 0, n, a, n);
    FrameExpr(c1, r, a, s.cond, c.locals, pools);
    SameSub(c5, r, 0, n + 4, n, n + 3);
    FrameJump(c5, r, n, OP_JUMP_UNLESS, k - n);
    SameSub(c5, r, 0, n + 4, n + 3, n + 4);
    FrameOp(c5, r, n + 3, OP_POP);
    SameSub(c5, r, k, k + 4, k, k + 3);
    FrameBack(c5, r, k, a);
    SameSub(c5, r, k, k + 4, k + 3, k + 4);
    FrameOp(c5, r, k + 3, OP_POP);
    WhileShape(r, a, s, c, l, pools);
  }

  lemma AimNew(head: nat, exit: nat)
    ensures Aim(Some(Loop(head, None)), Some(exit)) == Some(Loop(head, Some(exit)))
  {
  }

  lemma SamePrefix(c1: seq<byte>, c2: seq<byte>)
    requires Same(c1, c2, 0, |c1|)
    ensures c1 <= c2
  {
  }

  // --- What the compiler accepts ---

  // The name is already declared in the current scope.
  predicate Redeclared(locals: seq<Local>, depth: nat, name: string)
    decreases |locals|
  {
    var n := |locals| - 1;
    n >= 0 && locals[n].depth >= depth && (locals[n].name == name || Redeclared(locals[..n], depth, name))
  }

  // At most 256 locals, no name twice in a scope, 32 loops, loops of 16 bits, breaks in loops only.
  predicate StmtOk(s: Stmt, c: Scope, heads: seq<nat>, a: nat, pools: Pools)
    decreases s, 1
  {
    match s
    case Let(name, _, e) =>
      && ExprOk(e, c.locals, pools)
      && (c.depth > 0 ==> |c.locals| < 256 && !Redeclared(c.locals, c.depth, name))
    case Eval(e) => ExprOk(e, c.locals, pools)
    case IfStmt(i) => IfOk(i, c, heads, a, pools)
    case While(cond, body) =>
      var b := a + SizeExpr(cond) + 4;
      && |heads| < 32
      && ExprOk(cond, c.locals, pools)
      && ListOk(body, Inner(InLoop(c)), heads + [a], b, ExprPools(cond, c.locals, pools))
      && b + SizeBlock(body, InLoop(c)) + 3 - a <= 0xFFFF
    case Block(ss) => ListOk(ss, Inner(c), heads, a, pools)
    case Break => heads != []
    case Continue => heads != [] && a + c.over + 3 - heads[|heads| - 1] <= 0xFFFF
  }

  predicate ListOk(ss: Stmts, c: Scope, heads: seq<nat>, a: nat, pools: Pools)
    decreases ss, 1
  {
    match ss
    case Done => true
    case Then(s, rest) =>
      StmtOk(s, c, heads, a, pools) && ListOk(rest, After(s, c), heads, a + SizeStmt(s, c), StmtPools(s, c, pools))
  }

  predicate IfOk(i: If, c: Scope, heads: seq<nat>, a: nat, pools: Pools)
    decreases i, 1
  {
    var b, p1 := a + SizeExpr(i.cond) + 4, ExprPools(i.cond, c.locals, pools);
    && ExprOk(i.cond, c.locals, pools)
    && ListOk(i.thn, Inner(c), heads, b, p1)
    && ElseOk(i.els, c, heads, b + SizeBranch(i.thn, c) + 4, ListPools(i.thn, Inner(c), p1))
  }

  predicate ElseOk(x: Else, c: Scope, heads: seq<nat>, a: nat, pools: Pools)
    decreases x, 1
  {
    match x
    case NoElse => true
    case ElseBlock(ss) => ListOk(ss, Inner(c), heads, a, pools)
    case ElseIf(i) => IfOk(i, c, heads, a, pools)
  }
}
