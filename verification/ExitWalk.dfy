/** What a propagation has achieved after part of a dead block's links, and why each further link
    keeps it so.
 */
module ExitWalk {
  import opened LinkGraph

  // Dead in this run: the block it started from, or one that it killed.
  predicate Gone(s: Blocks, t: Blocks, d: Pid, x: Pid) {
    x in t && (x == d || Killed(s, t, x))
  }

  // Nothing that should die with block x is alive.
  ghost predicate Closed(t: Blocks, x: Pid) {
    x in t && forall q :: q in t[x].links ==> !Victim(t, q)
  }

  predicate NoDup(exits: seq<Exit>) {
    forall i, j :: 0 <= i < j < |exits| ==> exits[i] != exits[j]
  }

  // A block that is gone and linked to q; of the first one only the first n links count.
  predicate Cut(s: Blocks, t: Blocks, d: Pid, n: nat, x: Pid, q: Pid) {
    Gone(s, t, d, x) && if x == d && n < |t[x].links| then q in t[x].links[..n] else q in t[x].links
  }

  predicate Owed(s: Blocks, t: Blocks, d: Pid, n: nat, x: Pid, q: Pid) {
    Cut(s, t, d, n, x, q) && Trapper(t, q)
  }

  // The exit messages attempted are exactly the owed ones, each once.
  ghost predicate Told(s: Blocks, t: Blocks, d: Pid, n: nat, exits: seq<Exit>) {
    && NoDup(exits)
    && (forall e :: e in exits ==> Owed(s, t, d, n, e.dead, e.to))
    && (forall x, q :: Owed(s, t, d, n, x, q) ==> Exit(x, q) in exits)
  }

  // The state of the walk over d's links after the first n of them.
  ghost predicate Walked(s: Blocks, t: Blocks, d: Pid, n: nat, abnormal: bool, exits: seq<Exit>) {
    && Later(s, t) && d in s && !Alive(s, d) && n <= |s[d].links|
    && (!abnormal ==> forall p :: !Killed(s, t, p))
    && (abnormal ==> forall k :: 0 <= k < n ==> !Victim(t, s[d].links[k]))
    && (forall p :: Killed(s, t, p) ==> Reaches(s, d, p) && Closed(t, p))
    && Told(s, t, d, n, exits)
  }

  // Some block that is gone was linked to q.
  ghost predicate Heard(s: Blocks, t: Blocks, d: Pid, n: nat, q: Pid) {
    exists x :: Cut(s, t, d, n, x, q)
  }

  // A survivor has lost its links to the blocks that are gone and were linked to it, a trapper that
  // waited has been woken if there are any, and nothing else about it has changed.
  ghost predicate Survivor(s: Blocks, t: Blocks, d: Pid, n: nat, q: Pid) {
    && q in s && q in t
    && (forall x :: x in t[q].links <==> x in s[q].links && !Cut(s, t, d, n, x, q))
    && t[q] == (if s[q].trapsExits && Heard(s, t, d, n, q) then Woken(s[q]) else s[q]).(links := t[q].links)
  }

  ghost predicate Settled(s: Blocks, t: Blocks, d: Pid, n: nat) {
    forall q :: Alive(t, q) ==> Survivor(s, t, d, n, q)
  }

  // Steps that kill nobody.
  lemma QuietStep(s: Blocks, t: Blocks, u: Blocks, d: Pid, n: nat, abnormal: bool, exits: seq<Exit>)
    requires Walked(s, t, d, n, abnormal, exits) && Later(t, u) && AliveSet(u) == AliveSet(t)
    ensures Walked(s, u, d, n, abnormal, exits)
  {
    hide Distinct, Abnormal, Reaches, NoDup;
    LaterTrans(s, t, u);
    SameAlive(t, u);
    assert BlockLater(s, t, d) && BlockLater(t, u, d);
    forall p | Killed(s, u, p) ensures Reaches(s, d, p) && Closed(u, p) {
      ClosedLater(t, u, p);
    }
    forall k | 0 <= k < n && abnormal ensures !Victim(u, s[d].links[k]) {
      VictimEarlier(t, u, s[d].links[k]);
    }
    QuietOwed(s, t, u, d, n);
    assert Told(s, u, d, n, exits);
    assert forall p :: Killed(s, u, p) <==> Killed(s, t, p);
    assert !abnormal ==> forall p :: !Killed(s, u, p);
  }

  lemma SameAlive(t: Blocks, u: Blocks)
    requires AliveSet(u) == AliveSet(t)
    ensures forall p :: Alive(u, p) <==> Alive(t, p)
  {
    forall p ensures Alive(u, p) <==> Alive(t, p) {
      assert p in AliveSet(t) <==> Alive(t, p);
      assert p in AliveSet(u) <==> Alive(u, p);
    }
  }

  lemma QuietOwed(s: Blocks, t: Blocks, u: Blocks, d: Pid, n: nat)
    requires Later(s, t) && Later(t, u) && d in s && !Alive(s, d) && forall p :: Alive(u, p) <==> Alive(t, p)
    ensures forall x, q :: Owed(s, u, d, n, x, q) <==> Owed(s, t, d, n, x, q)
  {
    hide Distinct, Abnormal;
    forall x, q ensures Owed(s, u, d, n, x, q) <==> Owed(s, t, d, n, x, q) {
      if x in t {
        assert BlockLater(t, u, x);
        if x in s {
          assert BlockLater(s, t, x);
        }
      }
      if q in t {
        assert BlockLater(t, u, q);
      }
    }
  }

  lemma VictimEarlier(t: Blocks, u: Blocks, q: Pid)
    requires Later(t, u)
    ensures Victim(u, q) ==> Victim(t, q)
    ensures Trapper(u, q) <==> Trapper(t, q)
  {
    hide Distinct, Abnormal;
    if q in t {
      assert BlockLater(t, u, q);
    }
  }

  lemma ClosedLater(t: Blocks, u: Blocks, x: Pid)
    requires Later(t, u) && x in t && !Alive(t, x)
    ensures u[x] == t[x] && (Closed(t, x) ==> Closed(u, x))
  {
    hide Distinct, Abnormal;
    assert BlockLater(t, u, x);
    forall q ensures Victim(u, q) ==> Victim(t, q) {
      VictimEarlier(t, u, q);
    }
  }

  // The next link leads to nobody who is alive.
  lemma SkipStep(s: Blocks, t: Blocks, d: Pid, n: nat, abnormal: bool, exits: seq<Exit>)
    requires Walked(s, t, d, n, abnormal, exits) && n < |s[d].links| && !Trapper(t, s[d].links[n])
    requires Victim(t, s[d].links[n]) ==> !abnormal
    ensures Walked(s, t, d, n + 1, abnormal, exits)
  {
    hide Distinct, Abnormal, Reaches, NoDup, Closed;
    assert BlockLater(s, t, d);
    OwedNext(t[d].links, n);
  }

  lemma OwedNext(links: seq<Pid>, n: nat)
    requires n < |links|
    ensures forall q :: q in links[..n + 1] <==> q in links[..n] || q == links[n]
    ensures links[..|links|] == links
  {
    assert links[..n + 1] == links[..n] + [links[n]];
  }

  // The next link leads to a trapper, who is told.
  lemma TrapStep(s: Blocks, t: Blocks, d: Pid, n: nat, abnormal: bool, exits: seq<Exit>)
    requires Walked(s, t, d, n, abnormal, exits) && n < |s[d].links| && Trapper(t, s[d].links[n]) && Distinct(s[d].links)
    ensures Walked(s, t, d, n + 1, abnormal, exits + [Exit(d, s[d].links[n])])
  {
    hide Abnormal, Reaches, Closed;
    assert BlockLater(s, t, d);
    OwedNext(t[d].links, n);
    var e := Exit(d, s[d].links[n]);
    assert !Owed(s, t, d, n, e.dead, e.to);
    assert NoDup(exits + [e]);
  }

  // The next link leads to a victim, which has died with all that died of its death.
  lemma KillStep(s: Blocks, t: Blocks, v: Blocks, u: Blocks, d: Pid, n: nat, exits: seq<Exit>, more: seq<Exit>)
    requires Walked(s, t, d, n, true, exits) && n < |s[d].links| && Victim(t, s[d].links[n])
    requires var q := s[d].links[n];
             && Later(t, v) && AliveSet(v) == AliveSet(t) - {q}
             && Walked(v, u, q, |v[q].links|, true, more)
    ensures Walked(s, u, d, n + 1, true, exits + more)
  {
    hide Distinct, Abnormal, Reaches, NoDup, Closed, Later, Told, AliveSet;
    var q := s[d].links[n];
    assert Later(v, u) && Later(s, t);
    LaterTrans(t, v, u);
    LaterTrans(s, t, v);
    LaterTrans(s, t, u);
    KilledSplit(s, t, v, u, q);
    VictimEarlier(s, t, q);
    forall p | Killed(s, u, p) ensures Reaches(s, d, p) && Closed(u, p) {
      KilledReached(s, t, v, u, d, n, exits, more, p);
    }
    forall k | 0 <= k < n + 1 ensures !Victim(u, s[d].links[k]) {
      VictimEarlier(t, u, s[d].links[k]);
      assert k == n ==> !Alive(v, q);
      VictimEarlier(v, u, s[d].links[k]);
    }
    ToldMore(s, t, v, u, d, n, exits, more);
  }

  // Who was killed: before, now, or in consequence.
  lemma KilledSplit(s: Blocks, t: Blocks, v: Blocks, u: Blocks, q: Pid)
    requires Later(s, t) && Later(t, v) && Later(v, u) && AliveSet(v) == AliveSet(t) - {q} && Alive(t, q)
    ensures forall p :: Killed(s, u, p) <==> Killed(s, t, p) || p == q || Killed(v, u, p)
    ensures forall p :: Alive(v, p) <==> Alive(t, p) && p != q
    ensures forall p :: Killed(s, t, p) ==> !Alive(v, p) && p in v
    ensures q in v && !Alive(v, q) && !Alive(u, q)
  {
    hide Distinct, Abnormal;
    forall p ensures Alive(v, p) <==> Alive(t, p) && p != q {
      assert p in AliveSet(t) <==> Alive(t, p);
      assert p in AliveSet(v) <==> Alive(v, p);
    }
    forall p ensures (Alive(t, p) ==> Alive(s, p)) && (Alive(u, p) ==> Alive(v, p)) {
      if p in s {
        assert BlockLater(s, t, p) && BlockLater(v, u, p);
      }
    }
  }

  lemma KilledReached(s: Blocks, t: Blocks, v: Blocks, u: Blocks, d: Pid, n: nat, exits: seq<Exit>, more: seq<Exit>, p: Pid)
    requires Walked(s, t, d, n, true, exits) && n < |s[d].links| && Victim(t, s[d].links[n])
    requires var q := s[d].links[n];
             Later(s, v) && Later(t, u) && Walked(v, u, q, |v[q].links|, true, more)
             && (Killed(s, t, p) || p == q || Killed(v, u, p)) && Victim(s, q)
    ensures Reaches(s, d, p) && Closed(u, p)
  {
    hide Distinct, Abnormal, Reaches, Told, Later;
    var q := s[d].links[n];
    if Killed(v, u, p) {
      ReachesFrom(s, v, d, q, p);
    } else if p == q {
      ReachesOne(s, d, q);
      assert BlockFrozen(v, u, q) by { Frozen(v, u, q); }
      assert forall k :: 0 <= k < |v[q].links| ==> !Victim(u, v[q].links[k]);
    } else {
      assert p in t by { SameKeys(t, u); KilledKnown(s, t, p); }
      ClosedLater(t, u, p);
    }
  }

  predicate BlockFrozen(v: Blocks, u: Blocks, q: Pid) {
    q in v && q in u && u[q] == v[q]
  }

  lemma Frozen(v: Blocks, u: Blocks, q: Pid)
    requires Later(v, u) && q in v && !Alive(v, q)
    ensures BlockFrozen(v, u, q)
  {
    hide Distinct, Abnormal;
    assert BlockLater(v, u, q);
  }

  lemma SameKeys(t: Blocks, u: Blocks)
    requires Later(t, u)
    ensures t.Keys == u.Keys
  {
  }

  lemma KilledKnown(s: Blocks, t: Blocks, p: Pid)
    requires Killed(s, t, p) && Later(s, t)
    ensures p in t
  {
  }

  lemma ToldMore(s: Blocks, t: Blocks, v: Blocks, u: Blocks, d: Pid, n: nat, exits: seq<Exit>, more: seq<Exit>)
    requires Walked(s, t, d, n, true, exits) && n < |s[d].links| && Victim(t, s[d].links[n])
    requires var q := s[d].links[n];
             && Later(t, v) && Walked(v, u, q, |v[q].links|, true, more) && Later(t, u) && Later(s, u)
             && (forall p :: Killed(s, u, p) <==> Killed(s, t, p) || p == q || Killed(v, u, p))
             && (forall p :: Killed(s, t, p) ==> !Alive(v, p) && p in v) && q in v && !Alive(v, q)
    ensures Told(s, u, d, n + 1, exits + more)
  {
    hide Distinct, Abnormal, Reaches, Closed, Later;
    var q := s[d].links[n];
    forall x, y ensures Owed(s, u, d, n + 1, x, y) <==> Owed(s, t, d, n, x, y) || Owed(v, u, q, |v[q].links|, x, y) {
      if Alive(u, y) {
        CutSplit(s, t, v, u, d, n, x, y);
      }
      VictimEarlier(t, u, y);
    }
    assert !Alive(v, d) && q != d && !Killed(s, t, q) by { DeadStays(s, t, v, d); }
    assert NoDup(exits + more) by {
      forall i, j | 0 <= i < j < |exits + more| ensures (exits + more)[i] != (exits + more)[j] {
        if i < |exits| <= j {
          assert exits[i] in exits && more[j - |exits|] in more;
        }
      }
    }
  }

  lemma DeadStays(s: Blocks, t: Blocks, v: Blocks, d: Pid)
    requires Later(s, t) && Later(t, v) && d in s && !Alive(s, d)
    ensures !Alive(t, d) && !Alive(v, d) && d in v && t[d] == s[d] && v[d] == s[d]
  {
    Frozen(s, t, d);
    Frozen(t, v, d);
  }

  lemma CutSplit(s: Blocks, t: Blocks, v: Blocks, u: Blocks, d: Pid, n: nat, x: Pid, y: Pid)
    requires Later(s, t) && Later(t, v) && Later(v, u) && Later(t, u) && d in s && !Alive(s, d) && n < |s[d].links| && Victim(t, s[d].links[n])
    requires var q := s[d].links[n];
             && (Killed(s, u, x) <==> Killed(s, t, x) || x == q || Killed(v, u, x)) && q in v && !Alive(v, q)
    requires Alive(u, y)
    ensures Cut(s, u, d, n + 1, x, y) <==> Cut(s, t, d, n, x, y) || Cut(v, u, s[d].links[n], |v[s[d].links[n]].links|, x, y)
  {
    hide Later;
    var q := s[d].links[n];
    VictimEarlier(t, u, y);
    VictimEarlier(t, u, q);
    DeadStays(s, t, u, d);
    SameKeys(t, u);
    SameKeys(v, u);
    Frozen(v, u, q);
    OwedNext(s[d].links, n);
    if Killed(s, t, x) {
      KilledKnown(s, t, x);
      Frozen(t, u, x);
    }
  }

  // --- What becomes of the survivors ---

  // Only q has changed, and d has been crossed out of its links.
  lemma SettledVisit(s: Blocks, t: Blocks, u: Blocks, d: Pid, n: nat)
    requires Later(s, t) && d in s && !Alive(s, d) && n < |s[d].links| && Settled(s, t, d, n) && Alive(t, s[d].links[n])
    requires var q := s[d].links[n];
             && q in u && u == t[q := u[q]] && (forall x :: x in u[q].links <==> x in t[q].links && x != d)
             && u[q] == (if t[q].trapsExits then Woken(t[q]) else t[q]).(links := u[q].links)
    ensures Settled(s, u, d, n + 1)
  {
    hide Later;
    var q := s[d].links[n];
    Frozen(s, t, d);
    OwedNext(s[d].links, n);
    forall x, y ensures Cut(s, u, d, n + 1, x, y) <==> Cut(s, t, d, n, x, y) || (x == d && y == q) {
    }
    forall y | Alive(u, y) ensures Survivor(s, u, d, n + 1, y) {
      assert Survivor(s, t, d, n, y);
      HeardNext(s, t, u, d, n, n + 1, y, y == q);
    }
  }

  lemma HeardNext(s: Blocks, t: Blocks, u: Blocks, d: Pid, n: nat, m: nat, y: Pid, added: bool)
    requires forall x :: Cut(s, u, d, m, x, y) <==> Cut(s, t, d, n, x, y) || (x == d && added)
    ensures Heard(s, u, d, m, y) <==> Heard(s, t, d, n, y) || added
  {
    hide Cut;
    if Heard(s, t, d, n, y) {
      var x :| Cut(s, t, d, n, x, y);
      assert Cut(s, u, d, m, x, y);
    }
    if added {
      assert Cut(s, u, d, m, d, y);
    }
  }

  // Nobody is there any more.
  lemma SettledSkip(s: Blocks, t: Blocks, d: Pid, n: nat)
    requires Later(s, t) && d in s && !Alive(s, d) && n < |s[d].links| && Settled(s, t, d, n) && !Alive(t, s[d].links[n])
    ensures Settled(s, t, d, n + 1)
  {
    hide Later;
    Frozen(s, t, d);
    OwedNext(s[d].links, n);
    forall y | Alive(t, y) ensures Survivor(s, t, d, n + 1, y) {
      assert Survivor(s, t, d, n, y);
      assert forall x :: Cut(s, t, d, n + 1, x, y) <==> Cut(s, t, d, n, x, y);
      HeardNext(s, t, t, d, n, n + 1, y, false);
    }
  }

  // A victim has been crossed out, has crashed, and its own links have been seen to.
  lemma SettledKill(s: Blocks, t: Blocks, v: Blocks, u: Blocks, d: Pid, n: nat)
    requires Later(s, t) && Later(t, v) && Later(v, u) && d in s && !Alive(s, d) && n < |s[d].links| && Victim(t, s[d].links[n])
    requires var q := s[d].links[n];
             && AliveSet(v) == AliveSet(t) - {q} && q in v && v == t[q := v[q]] && Settled(s, t, d, n) && Settled(v, u, q, |v[q].links|)
    ensures Settled(s, u, d, n + 1)
  {
    hide Later, AliveSet, Cut, Heard;
    var q := s[d].links[n];
    LaterTrans(t, v, u);
    KilledSplit(s, t, v, u, q);
    forall y | Alive(u, y) ensures Survivor(s, u, d, n + 1, y) {
      assert Survivor(v, u, q, |v[q].links|, y);
      assert Alive(v, y) && Survivor(s, t, d, n, y);
      forall x ensures Cut(s, u, d, n + 1, x, y) <==> Cut(s, t, d, n, x, y) || Cut(v, u, q, |v[q].links|, x, y) {
        CutSplit(s, t, v, u, d, n, x, y);
      }
      HeardEither(s, t, v, u, d, n, n + 1, q, |v[q].links|, y);
    }
  }

  lemma HeardEither(s: Blocks, t: Blocks, v: Blocks, u: Blocks, d: Pid, n: nat, m: nat, q: Pid, k: nat, y: Pid)
    requires forall x :: Cut(s, u, d, m, x, y) <==> Cut(s, t, d, n, x, y) || Cut(v, u, q, k, x, y)
    ensures Heard(s, u, d, m, y) <==> Heard(s, t, d, n, y) || Heard(v, u, q, k, y)
  {
    hide Cut;
    if Heard(s, u, d, m, y) {
      var x :| Cut(s, u, d, m, x, y);
    }
    if Heard(s, t, d, n, y) {
      var x :| Cut(s, t, d, n, x, y);
      assert Cut(s, u, d, m, x, y);
    }
    if Heard(v, u, q, k, y) {
      var x :| Cut(v, u, q, k, x, y);
      assert Cut(s, u, d, m, x, y);
    }
  }

  lemma StartWalk(s: Blocks, d: Pid, abnormal: bool)
    requires d in s && !Alive(s, d)
    ensures Walked(s, s, d, 0, abnormal, []) && Settled(s, s, d, 0)
  {
    LaterSame(s);
  }

  // What the walk knows about its current block and the one its next link names.
  lemma WalkFacts(s: Blocks, t: Blocks, d: Pid, n: nat, abnormal: bool, exits: seq<Exit>, q: Pid)
    requires Walked(s, t, d, n, abnormal, exits)
    ensures Later(s, t) && d in s && d in t && t[d] == s[d] && !Alive(t, d) && (q in t <==> q in s)
    ensures Alive(t, q) ==> q in t && (t[q].trapsExits ==> Trapper(t, q)) && (!t[q].trapsExits ==> Victim(t, q))
    ensures WellLinked(s) ==> Distinct(s[d].links) && WellLinked(t)
    ensures !Alive(t, q) ==> !Trapper(t, q) && !Victim(t, q)
    ensures Trapper(t, q) ==> !Victim(t, q)
    ensures Victim(t, q) ==> !Trapper(t, q)
  {
    hide Reaches, Closed, Told, Abnormal;
    Frozen(s, t, d);
    forall p | p in t && WellLinked(s) ensures Distinct(t[p].links) {
      assert BlockLater(s, t, p);
    }
  }
}
