/** Blocks, the links between them (src/runtime/block.c) and how both may change while an exit
    propagates: blocks die, and the living drop links to the dead.
 */
module LinkGraph {

  type Pid = nat

  datatype State = Runnable | Running | Waiting | Dead

  // exitReason: whether a reason string is set.
  datatype Block = Block(state: State, links: seq<Pid>, trapsExits: bool, exitCode: int, exitReason: bool)

  type Blocks = map<Pid, Block>

  // An attempted send of an exit message.
  datatype Exit = Exit(dead: Pid, to: Pid)

  predicate Alive(s: Blocks, p: Pid) {
    p in s && s[p].state != Dead
  }

  // A block that dies with its linked blocks, and one that is told of their death.
  predicate Victim(s: Blocks, p: Pid) {
    Alive(s, p) && !s[p].trapsExits
  }

  predicate Trapper(s: Blocks, p: Pid) {
    Alive(s, p) && s[p].trapsExits
  }

  function AliveSet(s: Blocks): set<Pid> {
    set p | p in s && s[p].state != Dead
  }

  predicate Distinct(links: seq<Pid>) {
    forall i, j :: 0 <= i < j < |links| ==> links[i] != links[j]
  }

  ghost predicate WellLinked(s: Blocks) {
    forall p :: p in s ==> Distinct(s[p].links)
  }

  // block_crash, and the wake-up of a block that waits.
  function Crashed(b: Block): Block {
    b.(state := Dead, exitCode := -1, exitReason := true)
  }

  function Woken(b: Block): Block {
    if b.state == Waiting then b.(state := Runnable) else b
  }

  predicate Abnormal(b: Block) {
    b.exitCode != 0 || b.exitReason
  }

  // --- Reachability ---

  // A path of links whose blocks, after the first, are all victims.
  ghost predicate Path(s: Blocks, path: seq<Pid>) {
    && (forall i :: 0 <= i < |path| ==> path[i] in s)
    && (forall i :: 0 < i < |path| ==> Victim(s, path[i]) && path[i] in s[path[i - 1]].links)
  }

  ghost predicate Reaches(s: Blocks, d: Pid, p: Pid) {
    exists path :: |path| > 1 && path[0] == d && path[|path| - 1] == p && Path(s, path)
  }

  // --- What a run of the propagation does to the blocks ---

  // What can have happened to a block.
  ghost predicate BlockLater(s: Blocks, t: Blocks, p: Pid)
    requires p in s && p in t
  {
    && t[p].trapsExits == s[p].trapsExits
    && (s[p].state == Dead ==> t[p] == s[p])
    && (s[p].trapsExits ==> (t[p].state == Dead <==> s[p].state == Dead))
    && (s[p].state != Dead && t[p].state == Dead ==> Abnormal(t[p]) && t[p] == Crashed(t[p]))
    && (forall q :: q in t[p].links ==> q in s[p].links)
    && (forall q :: q in s[p].links ==> q in t[p].links || !Alive(t, q))
    && (Distinct(s[p].links) ==> Distinct(t[p].links))
  }

  ghost predicate Later(s: Blocks, t: Blocks) {
    s.Keys == t.Keys && forall p :: p in s ==> BlockLater(s, t, p)
  }

  // Alive before, dead after.
  predicate Killed(s: Blocks, t: Blocks, p: Pid) {
    Alive(s, p) && !Alive(t, p)
  }

  lemma LaterTrans(s: Blocks, t: Blocks, u: Blocks)
    requires Later(s, t) && Later(t, u)
    ensures Later(s, u)
  {
    hide Distinct, Abnormal;
    forall p | p in s ensures BlockLater(s, u, p) {
      assert BlockLater(s, t, p) && BlockLater(t, u, p);
      forall q | q in s[p].links ensures q in u[p].links || !Alive(u, q) {
        if q !in t[p].links && q in t {
          assert BlockLater(t, u, q);
        }
      }
    }
  }

  lemma LaterSame(s: Blocks)
    ensures Later(s, s)
  {
  }

  // Paths of a later graph are paths of the earlier one.
  lemma PathEarlier(s: Blocks, t: Blocks, path: seq<Pid>)
    requires Later(s, t) && Path(t, path)
    ensures Path(s, path)
  {
    hide Distinct, Abnormal;
    forall i | 0 < i < |path| ensures Victim(s, path[i]) && path[i] in s[path[i - 1]].links {
      assert BlockLater(s, t, path[i]) && BlockLater(s, t, path[i - 1]);
    }
  }

  // One more link in front.
  lemma ReachesFrom(s: Blocks, t: Blocks, d: Pid, q: Pid, p: Pid)
    requires Later(s, t) && d in s && q in s[d].links && Victim(s, q) && Reaches(t, q, p)
    ensures Reaches(s, d, p)
  {
    hide Later, Victim, Path;
    var path :| |path| > 1 && path[0] == q && path[|path| - 1] == p && Path(t, path);
    PathEarlier(s, t, path);
    PathLonger(s, d, path);
    assert ([d] + path)[|path|] == p;
  }

  lemma PathLonger(s: Blocks, d: Pid, path: seq<Pid>)
    requires d in s && |path| > 0 && path[0] in s[d].links && Victim(s, path[0]) && Path(s, path)
    ensures Path(s, [d] + path)
  {
    hide Victim;
    var longer := [d] + path;
    forall i | 0 < i < |longer| ensures Victim(s, longer[i]) && longer[i] in s[longer[i - 1]].links {
      assert longer[i] == path[i - 1];
      assert i > 1 ==> longer[i - 1] == path[i - 2];
    }
  }

  lemma ReachesOne(s: Blocks, d: Pid, q: Pid)
    requires d in s && q in s[d].links && Victim(s, q)
    ensures Reaches(s, d, q)
  {
    assert Path(s, [d, q]);
  }

  // --- The single steps ---

  lemma UnlinkLater(s: Blocks, t: Blocks, q: Pid, d: Pid)
    requires Alive(s, q) && d in s && !Alive(s, d) && q in t && t == s[q := s[q].(links := t[q].links)]
    requires (forall x :: x in t[q].links <==> x in s[q].links && x != d) && Distinct(t[q].links)
    ensures Later(s, t) && AliveSet(t) == AliveSet(s) && Alive(t, q)
  {
    hide Distinct, Abnormal;
    forall p | p in s ensures BlockLater(s, t, p) {
    }
  }

  lemma CrashLater(s: Blocks, q: Pid)
    requires Victim(s, q)
    ensures var t := s[q := Crashed(s[q])]; Later(s, t) && AliveSet(t) == AliveSet(s) - {q} && !Alive(t, q)
    ensures |AliveSet(s[q := Crashed(s[q])])| == |AliveSet(s)| - 1
  {
    hide Distinct;
    assert q in AliveSet(s);
  }

  lemma WakeLater(s: Blocks, q: Pid)
    requires Trapper(s, q)
    ensures var t := s[q := Woken(s[q])]; Later(s, t) && AliveSet(t) == AliveSet(s)
  {
    hide Distinct, Abnormal;
  }
}
