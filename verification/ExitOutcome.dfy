/** What the exit of a block comes to, in terms of the links there were before. */
module ExitOutcome {
  import opened LinkGraph
  import opened ExitWalk

  // Along a path everybody dies.
  lemma {:induction false} PathDies(s: Blocks, t: Blocks, d: Pid, exits: seq<Exit>, path: seq<Pid>)
    requires d in s && Walked(s, t, d, |s[d].links|, true, exits) && |path| > 1 && path[0] == d && Path(s, path)
    ensures Killed(s, t, path[|path| - 1])
    decreases |path|
  {
    hide Distinct, Abnormal, Reaches, Told;
    var n := |path| - 1;
    var x, q := path[n - 1], path[n];
    if n > 1 {
      assert Path(s, path[..n]);
      PathDies(s, t, d, exits, path[..n]);
    } else {
      Frozen(s, t, d);
    }
    assert BlockLater(s, t, x) && BlockLater(s, t, q);
    assert q in t[x].links ==> !Victim(t, q);
  }

  // Dead once the exit of d has been seen to, in terms of the links there were.
  ghost predicate Doomed(s: Blocks, d: Pid, abnormal: bool, x: Pid) {
    x in s && (x == d || (abnormal && Reaches(s, d, x)))
  }

  // What an exit comes to: exactly the victims that links lead to are killed, if the exit is abnormal;
  // every block that traps exits and is linked from a doomed block is told, once for each such block; and a
  // survivor loses exactly its links to the doomed blocks that were linked to it, and is made runnable if it
  // waited and was told. A killed block has the exit code -1 and a reason.
  ghost predicate ExitDone(s: Blocks, t: Blocks, d: Pid, abnormal: bool, exits: seq<Exit>) {
    && s.Keys == t.Keys
    && (forall p :: Killed(s, t, p) <==> abnormal && Reaches(s, d, p))
    && (forall p :: Killed(s, t, p) ==>
          && p in s && s[p].state != Dead && !s[p].trapsExits
          && t[p].state == Dead && t[p].exitCode == -1 && t[p].exitReason)
    && NoDup(exits)
    && (forall x, q :: Exit(x, q) in exits <==>
          Doomed(s, d, abnormal, x) && q in s[x].links && q in s && s[q].state != Dead && s[q].trapsExits)
    && (forall q :: Alive(t, q) ==> Outlived(s, t, d, abnormal, q))
  }

  ghost predicate Outlived(s: Blocks, t: Blocks, d: Pid, abnormal: bool, q: Pid) {
    && q in s && q in t
    && (forall x :: x in t[q].links <==> x in s[q].links && !(Doomed(s, d, abnormal, x) && q in s[x].links))
    && t[q].trapsExits == s[q].trapsExits && t[q].exitCode == s[q].exitCode && t[q].exitReason == s[q].exitReason
    && t[q].state == (if s[q].state == Waiting && s[q].trapsExits && (exists x :: Doomed(s, d, abnormal, x) && q in s[x].links)
                      then Runnable else s[q].state)
  }

  lemma ExitExact(s: Blocks, t: Blocks, d: Pid, abnormal: bool, exits: seq<Exit>)
    requires d in s && Walked(s, t, d, |s[d].links|, abnormal, exits) && Settled(s, t, d, |s[d].links|)
    ensures ExitDone(s, t, d, abnormal, exits)
  {
    hide Reaches, Settled, Distinct, Abnormal, NoDup, Closed, Outlived, Owed, Cut;
    forall p ensures Killed(s, t, p) <==> abnormal && Reaches(s, d, p) {
      KilledIff(s, t, d, abnormal, exits, p);
    }
    forall p | Killed(s, t, p)
      ensures p in s && s[p].state != Dead && !s[p].trapsExits && t[p].state == Dead && t[p].exitCode == -1 && t[p].exitReason
    {
      assert BlockLater(s, t, p);
    }
    forall x, q ensures Exit(x, q) in exits <==> Doomed(s, d, abnormal, x) && q in s[x].links && Trapper(s, q) {
      VictimEarlier(s, t, q);
      assert Owed(s, t, d, |s[d].links|, x, q) <==> Cut(s, t, d, |s[d].links|, x, q) && Trapper(t, q) by { OwedIs(s, t, d, |s[d].links|, x, q); }
      if Trapper(t, q) {
        OriginalLinks(s, t, d, x, q);
      }
    }
    forall q | Alive(t, q) ensures Outlived(s, t, d, abnormal, q) {
      OutlivedAll(s, t, d, abnormal, q);
    }
  }

  lemma OwedIs(s: Blocks, t: Blocks, d: Pid, n: nat, x: Pid, q: Pid)
    ensures Owed(s, t, d, n, x, q) <==> Cut(s, t, d, n, x, q) && Trapper(t, q)
  {
  }

  lemma KilledIff(s: Blocks, t: Blocks, d: Pid, abnormal: bool, exits: seq<Exit>, p: Pid)
    requires d in s && Walked(s, t, d, |s[d].links|, abnormal, exits)
    ensures Killed(s, t, p) <==> abnormal && Reaches(s, d, p)
  {
    hide Told, Later, Closed;
    if abnormal && Reaches(s, d, p) {
      var path :| |path| > 1 && path[0] == d && path[|path| - 1] == p && Path(s, path);
      PathDies(s, t, d, exits, path);
    }
  }

  lemma OutlivedAll(s: Blocks, t: Blocks, d: Pid, abnormal: bool, q: Pid)
    requires Later(s, t) && d in s && !Alive(s, d) && Settled(s, t, d, |s[d].links|) && Alive(t, q)
    requires forall p :: Killed(s, t, p) <==> abnormal && Reaches(s, d, p)
    ensures Outlived(s, t, d, abnormal, q)
  {
    hide Reaches, Cut, Later;
    var n := |s[d].links|;
    forall x ensures Cut(s, t, d, n, x, q) <==> Doomed(s, d, abnormal, x) && q in s[x].links {
      OriginalLinks(s, t, d, x, q);
    }
    assert Survivor(s, t, d, n, q);
    if Heard(s, t, d, n, q) {
      var x :| Cut(s, t, d, n, x, q);
      assert Doomed(s, d, abnormal, x) && q in s[x].links;
    }
    if x :| Doomed(s, d, abnormal, x) && q in s[x].links {
      assert Cut(s, t, d, n, x, q);
    }
  }

  // For a survivor, being linked from a dead block and having been linked from it at the start are the same.
  lemma OriginalLinks(s: Blocks, t: Blocks, d: Pid, x: Pid, q: Pid)
    requires Later(s, t) && d in s && !Alive(s, d) && Alive(t, q)
    ensures Cut(s, t, d, |s[d].links|, x, q) <==> (x == d || Killed(s, t, x)) && x in s && q in s[x].links
  {
    hide Distinct, Abnormal;
    Frozen(s, t, d);
    if x in s {
      assert BlockLater(s, t, x);
    }
    assert s[d].links[..|s[d].links|] == s[d].links;
  }
}
