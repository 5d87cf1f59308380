/** Exit propagation over the link graph (src/runtime/scheduler.c, src/runtime/block.c).

    When a block dies abnormally, the blocks linked to it die, and so on, except that a block that
    traps exits is sent a message instead. The walk is a recursion whose only mark for a visited
    block is that it is dead; the graph is arbitrary, cycles included.
 */
module ExitPropagation {
  import opened LinkGraph
  import opened ExitWalk
  import opened ExitOutcome

  // Removing a link: the last one takes its place.
  function Unlinked(links: seq<Pid>, i: nat): (r: seq<Pid>)
    requires i < |links| && Distinct(links)
    ensures Distinct(r) && forall x :: x in r <==> x in links && x != links[i]
  {
    var n := |links| - 1;
    var r := links[i := links[n]][..n];
    assert forall j :: 0 <= j < n ==> r[j] == if j == i then links[n] else links[j];
    assert forall x :: x in links && x != links[i] ==> x in r by { UnlinkedKeeps(links, i); }
    r
  }

  lemma UnlinkedKeeps(links: seq<Pid>, i: nat)
    requires i < |links|
    ensures var n := |links| - 1;
            forall x :: x in links && x != links[i] ==> x in links[i := links[n]][..n]
  {
    var n := |links| - 1;
    var r := links[i := links[n]][..n];
    forall x | x in links && x != links[i] ensures x in r {
      var k :| 0 <= k < |links| && links[k] == x;
      if k == n {
        assert r[i] == x;
      } else {
        assert r[k] == x;
      }
    }
  }

  class Scheduler {
    var blocks: Blocks
    var exits: seq<Exit>
    var terminated: nat

    // block_link: links have no duplicates. `room` says whether there is memory for one more.
    method Link(p: Pid, other: Pid, room: bool) returns (done: bool)
      requires WellLinked(blocks)
      modifies `blocks
      ensures WellLinked(blocks) && done == (p in old(blocks) && other != 0 && (room || other in old(blocks)[p].links))
      ensures if done then p in blocks && blocks == old(blocks)[p := old(blocks)[p].(links := blocks[p].links)]
                           && forall x :: x in blocks[p].links <==> x in old(blocks)[p].links || x == other
              else blocks == old(blocks)
    {
      if p !in blocks || other == 0 {
        return false;
      }
      var links, i := blocks[p].links, 0;
      while i < |links|
        invariant i <= |links| && forall k :: 0 <= k < i ==> links[k] != other
      {
        if links[i] == other {
          return true;
        }
        i := i + 1;
      }
      if !room {
        return false;
      }
      blocks := blocks[p := blocks[p].(links := links + [other])];
      return true;
    }

    // block_unlink: swap with the last and shorten.
    method Unlink(q: Pid, d: Pid)
      requires WellLinked(blocks) && q in blocks
      modifies `blocks
      ensures WellLinked(blocks) && q in blocks && blocks == old(blocks)[q := old(blocks)[q].(links := blocks[q].links)]
      ensures forall x :: x in blocks[q].links <==> x in old(blocks)[q].links && x != d
    {
      var links, i := blocks[q].links, 0;
      while i < |links|
        invariant i <= |links| && forall k :: 0 <= k < i ==> links[k] != d
      {
        if links[i] == d {
          blocks := blocks[q := blocks[q].(links := Unlinked(links, i))];
          return;
        }
        i := i + 1;
      }
    }

    // block_crash.
    method Crash(q: Pid)
      requires q in blocks
      modifies `blocks
      ensures blocks == old(blocks)[q := old(blocks)[q].(state := Dead, exitCode := -1, exitReason := true)]
    {
      blocks := blocks[q := blocks[q].(state := Dead, exitCode := -1, exitReason := true)];
    }

    // The exit message, attempted once, and a waiting block woken for it.
    method Tell(d: Pid, q: Pid)
      requires q in blocks
      modifies `blocks, `exits
      ensures exits == old(exits) + [Exit(d, q)]
      ensures blocks == if old(blocks)[q].state == Waiting then old(blocks)[q := old(blocks)[q].(state := Runnable)] else old(blocks)
    {
      exits := exits + [Exit(d, q)];
      if blocks[q].state == Waiting {
        blocks := blocks[q := blocks[q].(state := Runnable)];
      }
    }

    // One link of an exited block: unlink the other side, then tell it or kill it.
    method VisitLink(d: Pid, q: Pid, abnormal: bool, ghost s: Blocks, ghost n: nat, ghost told: seq<Exit>)
      requires Walked(s, blocks, d, n, abnormal, told) && n < |s[d].links| && q == s[d].links[n] && WellLinked(s)
      requires Settled(s, blocks, d, n)
      modifies this
      ensures old(exits) <= exits && Walked(s, blocks, d, n + 1, abnormal, told + exits[|old(exits)|..])
      ensures Settled(s, blocks, d, n + 1)
      ensures terminated + |AliveSet(blocks)| == old(terminated) + |AliveSet(old(blocks))|
      ensures |AliveSet(blocks)| <= |AliveSet(old(blocks))|
      decreases |AliveSet(blocks)|, 0
    {
      hide Victim, Trapper, Later, Walked, AliveSet, WellLinked, Settled;
      ghost var t, log := blocks, exits;
      WalkFacts(s, t, d, n, abnormal, told, q);
      assert told + exits[|log|..] == told;
      if q !in blocks || blocks[q].state == Dead {
        SkipStep(s, t, d, n, abnormal, told);
        SettledSkip(s, t, d, n);
        return;
      }
      Unlink(q, d);
      ghost var u := blocks;
      UnlinkStep(s, t, u, d, n, abnormal, told);
      if blocks[q].trapsExits {
        Tell(d, q);
        TellStep(s, t, u, blocks, d, n, abnormal, told);
        assert exits[|log|..] == [Exit(d, q)];
      } else if abnormal {
        Crash(q);
        ghost var v := blocks;
        terminated := terminated + 1;
        CrashStep(s, t, u, v, d, n, told);
        PropagateExit(q);
        KillStep(s, u, v, blocks, d, n, told, exits[|log|..]);
        KillSettled(s, t, u, v, blocks, d, n, told, exits[|log|..]);
      } else {
        LeaveStep(s, t, u, d, n, told);
      }
    }

    // scheduler_propagate_exit.
    method PropagateExit(d: Pid)
      requires d in blocks && !Alive(blocks, d) && WellLinked(blocks)
      modifies this
      ensures WellLinked(blocks) && old(exits) <= exits
      ensures ExitDone(old(blocks), blocks, d, old(blocks)[d].exitCode != 0 || old(blocks)[d].exitReason, exits[|old(exits)|..])
      ensures Walked(old(blocks), blocks, d, |old(blocks)[d].links|, Abnormal(old(blocks)[d]), exits[|old(exits)|..])
      ensures Settled(old(blocks), blocks, d, |old(blocks)[d].links|)
      ensures terminated + |AliveSet(blocks)| == old(terminated) + |AliveSet(old(blocks))|
      ensures |AliveSet(blocks)| <= |AliveSet(old(blocks))|
      decreases |AliveSet(blocks)|, 1
    {
      hide Alive, Victim, Trapper, Later, Walked, AliveSet, WellLinked, Abnormal, Settled, ExitDone;
      ghost var s, log := blocks, exits;
      var abnormal := blocks[d].exitCode != 0 || blocks[d].exitReason;
      AbnormalIs(blocks[d]);
      StartWalk(s, d, abnormal);
      assert exits[|log|..] == [];
      var i := 0;
      while i < |blocks[d].links|
        invariant d in blocks && blocks[d] == s[d] && i <= |s[d].links| && log <= exits
        invariant Walked(s, blocks, d, i, abnormal, exits[|log|..]) && Settled(s, blocks, d, i)
        invariant terminated + |AliveSet(blocks)| == old(terminated) + |AliveSet(s)| && |AliveSet(blocks)| <= |AliveSet(s)|
        decreases |s[d].links| - i
      {
        ghost var before := exits;
        VisitLink(d, blocks[d].links[i], abnormal, s, i, exits[|log|..]);
        assert exits[|log|..] == before[|log|..] + exits[|before|..];
        i := i + 1;
        WalkFacts(s, blocks, d, i, abnormal, exits[|log|..], d);
      }
      WalkFacts(s, blocks, d, i, abnormal, exits[|log|..], d);
      ExitExact(s, blocks, d, abnormal, exits[|log|..]);
    }

    // scheduler_kill.
    method Kill(pid: Pid)
      requires WellLinked(blocks)
      modifies this
      ensures WellLinked(blocks) && old(exits) <= exits
      ensures !Alive(old(blocks), pid) ==> blocks == old(blocks) && exits == old(exits) && terminated == old(terminated)
      ensures Alive(old(blocks), pid) ==>
                && ExitDone(old(blocks)[pid := old(blocks)[pid].(state := Dead, exitCode := -1, exitReason := true)], blocks, pid, true,
                            exits[|old(exits)|..])
                && terminated + |AliveSet(blocks)| == old(terminated) + |AliveSet(old(blocks))|
    {
      hide Reaches, Walked, Settled, ExitDone, Distinct;
      if pid in blocks && blocks[pid].state != Dead {
        KillStart(blocks, pid);
        Crash(pid);
        terminated := terminated + 1;
        PropagateExit(pid);
      }
    }
  }

  lemma AbnormalIs(b: Block)
    ensures Abnormal(b) <==> b.exitCode != 0 || b.exitReason
  {
  }

  lemma KillStart(s: Blocks, pid: Pid)
    requires Alive(s, pid)
    ensures var t := s[pid := Crashed(s[pid])]; |AliveSet(t)| == |AliveSet(s)| - 1 && !Alive(t, pid) && Abnormal(t[pid])
    ensures WellLinked(s) ==> WellLinked(s[pid := Crashed(s[pid])])
  {
    assert pid in AliveSet(s) && AliveSet(s[pid := Crashed(s[pid])]) == AliveSet(s) - {pid};
  }

  // --- The steps of a visit ---

  lemma UnlinkStep(s: Blocks, t: Blocks, u: Blocks, d: Pid, n: nat, abnormal: bool, told: seq<Exit>)
    requires Walked(s, t, d, n, abnormal, told) && n < |s[d].links| && WellLinked(s) && WellLinked(u)
    requires var q := s[d].links[n];
             && Alive(t, q) && q in u && u == t[q := t[q].(links := u[q].links)]
             && forall x :: x in u[q].links <==> x in t[q].links && x != d
    ensures var q := s[d].links[n];
            && Walked(s, u, d, n, abnormal, told) && Later(t, u) && AliveSet(u) == AliveSet(t) && Alive(u, q)
            && (if u[q].trapsExits then Trapper(u, q) else Victim(u, q)) && Later(s, t) && Later(s, u) && d in u && !Alive(u, d)
  {
    hide Later, Walked, AliveSet, Settled;
    WalkStart(s, t, d, n, abnormal, told);
    var q := s[d].links[n];
    WalkFacts(s, t, d, n, abnormal, told, q);
    UnlinkLater(t, u, q, d);
    QuietStep(s, t, u, d, n, abnormal, told);
    WalkFacts(s, u, d, n, abnormal, told, q);
  }

  // A trapper, unlinked, is told.
  lemma TellStep(s: Blocks, t: Blocks, u: Blocks, w: Blocks, d: Pid, n: nat, abnormal: bool, told: seq<Exit>)
    requires Walked(s, t, d, n, abnormal, told) && Walked(s, u, d, n, abnormal, told) && n < |s[d].links| && WellLinked(s)
    requires Settled(s, t, d, n)
    requires var q := s[d].links[n];
             && Alive(t, q) && Trapper(u, q) && u == t[q := t[q].(links := u[q].links)] && w == u[q := Woken(u[q])]
             && forall x :: x in u[q].links <==> x in t[q].links && x != d
    ensures Walked(s, w, d, n + 1, abnormal, told + [Exit(d, s[d].links[n])]) && Settled(s, w, d, n + 1)
    ensures AliveSet(w) == AliveSet(u)
  {
    hide Later, Walked, AliveSet, Settled;
    WalkStart(s, t, d, n, abnormal, told);
    var q := s[d].links[n];
    WalkFacts(s, t, d, n, abnormal, told, q);
    WakeLater(u, q);
    TrapStep(s, u, d, n, abnormal, told);
    QuietStep(s, u, w, d, n + 1, abnormal, told + [Exit(d, q)]);
    SettledVisit(s, t, w, d, n);
  }

  // A victim, unlinked, has crashed.
  lemma CrashStep(s: Blocks, t: Blocks, u: Blocks, v: Blocks, d: Pid, n: nat, told: seq<Exit>)
    requires Walked(s, u, d, n, true, told) && n < |s[d].links| && WellLinked(s) && Later(t, u) && AliveSet(u) == AliveSet(t)
    requires Victim(u, s[d].links[n]) && v == u[s[d].links[n] := Crashed(u[s[d].links[n]])]
    ensures var q := s[d].links[n];
            && Later(u, v) && Later(t, v) && AliveSet(v) == AliveSet(u) - {q} && q in v && !Alive(v, q) && Abnormal(v[q]) && WellLinked(v)
            && |AliveSet(v)| == |AliveSet(u)| - 1
  {
    hide Later, Walked, AliveSet, Settled, Distinct;
    WalkStart(s, u, d, n, true, told);
    var q := s[d].links[n];
    CrashLater(u, q);
    LaterTrans(t, u, v);
    WalkFacts(s, u, d, n, true, told, q);
  }

  lemma KillSettled(s: Blocks, t: Blocks, u: Blocks, v: Blocks, w: Blocks, d: Pid, n: nat, told: seq<Exit>, more: seq<Exit>)
    requires Walked(s, t, d, n, true, told) && n < |s[d].links| && Settled(s, t, d, n) && Victim(t, s[d].links[n])
    requires var q := s[d].links[n];
             && Later(t, v) && AliveSet(v) == AliveSet(t) - {q} && q in v && v == t[q := v[q]]
             && Walked(v, w, q, |v[q].links|, true, more) && Settled(v, w, q, |v[q].links|)
    ensures Settled(s, w, d, n + 1)
  {
    hide Later, Walked, AliveSet, Settled;
    WalkStart(s, t, d, n, true, told);
    var q := s[d].links[n];
    WalkFacts(s, t, d, n, true, told, d);
    WalkFacts(v, w, q, |v[q].links|, true, more, q);
    SettledKill(s, t, v, w, d, n);
  }

  // A victim of a normal exit is only unlinked.
  lemma LeaveStep(s: Blocks, t: Blocks, u: Blocks, d: Pid, n: nat, told: seq<Exit>)
    requires Walked(s, t, d, n, false, told) && Walked(s, u, d, n, false, told) && n < |s[d].links| && Settled(s, t, d, n)
    requires var q := s[d].links[n];
             && Alive(t, q) && Victim(u, q) && u == t[q := t[q].(links := u[q].links)]
             && forall x :: x in u[q].links <==> x in t[q].links && x != d
    ensures Walked(s, u, d, n + 1, false, told) && Settled(s, u, d, n + 1)
  {
    hide Later, Walked, Settled;
    WalkFacts(s, t, d, n, false, told, d);
    WalkStart(s, t, d, n, false, told);
    SkipStep(s, u, d, n, false, told);
    SettledVisit(s, t, u, d, n);
  }

  lemma WalkStart(s: Blocks, t: Blocks, d: Pid, n: nat, abnormal: bool, exits: seq<Exit>)
    requires Walked(s, t, d, n, abnormal, exits)
    ensures d in s && !Alive(s, d)
  {
  }
}
