/** The two ways a run of the deque can go wrong are real, and they are exactly the ones that the
    theorems about runs exclude.
 */
module DequeHazards {
  import opened Deque

  predicate Stored(s: State, x: Block) {
    exists bf, i :: 0 <= bf < |s.bufs| && 0 <= i < |s.bufs[bf]| && s.bufs[bf][i] == Holds(x)
  }

  // No block sits in two slots of one buffer.
  ghost predicate NoTwins(buf: seq<Slot>) {
    forall i, j :: 0 <= i < j < |buf| && buf[i].Holds? ==> buf[i] != buf[j]
  }

  ghost predicate Unwritten(o: OwnerPc) {
    Growing(o) || o.PushLoadTop? || o.PushLoadCap? || o.PushReloadCap? || o.PushLoadBuf? || o.PushWrite?
  }

  // A buffer being filled by deque_grow holds only slots copied so far.
  ghost predicate FilledFrom(src: seq<Slot>, dst: seq<Slot>, t: nat, i: nat) {
    forall p :: 0 <= p < |dst| && dst[p].Holds? ==> CopyOf(src, dst, t, i, p)
  }

  ghost predicate CopyOf(src: seq<Slot>, dst: seq<Slot>, t: nat, i: nat, p: nat)
    requires p < |dst|
  {
    exists k :: t <= k < i && p == Wrap(k, |dst|) && Wrap(k, |src|) < |src| && dst[p] == src[Wrap(k, |src|)]
  }

  lemma FillOne(src: seq<Slot>, dst: seq<Slot>, t: nat, i: nat)
    requires |src| >= 1 && |dst| == 2 * |src| && t <= i < t + |src|
    requires NoTwins(src) && NoTwins(dst) && FilledFrom(src, dst, t, i)
    ensures NoTwins(dst[i % |dst| := src[i % |src|]])
    ensures FilledFrom(src, dst[i % |dst| := src[i % |src|]], t, i + 1)
  {
    var p, v := i % |dst|, src[i % |src|];
    var dst' := dst[p := v];
    forall q | 0 <= q < |dst| && q != p && dst[q].Holds? ensures dst[q] != v {
      assert CopyOf(src, dst, t, i, q);
      var k :| t <= k < i && q == Wrap(k, |dst|) && Wrap(k, |src|) < |src| && dst[q] == src[Wrap(k, |src|)];
      if k % |src| == i % |src| {
        SameResidue(k, i, |src|);
      }
    }
    forall q | 0 <= q < |dst| && dst'[q].Holds? ensures CopyOf(src, dst', t, i + 1, q) {
      if q == p {
        assert q == Wrap(i, |dst'|);
      } else {
        assert CopyOf(src, dst, t, i, q);
        var k :| t <= k < i && q == Wrap(k, |dst|) && Wrap(k, |src|) < |src| && dst[q] == src[Wrap(k, |src|)];
        assert q == Wrap(k, |dst'|);
      }
    }
  }

  // True while every block pushed is one that no buffer holds.
  ghost predicate Distinct(s: State) {
    && (forall bf :: 0 <= bf < |s.bufs| ==> NoTwins(s.bufs[bf]))
    && (Unwritten(s.owner) ==> !Stored(s, s.owner.x))
    && (s.owner.GrowLoadTop? || s.owner.GrowLoadBottom? ==>
          s.owner.nb < |s.bufs| && FilledFrom([], s.bufs[s.owner.nb], 0, 0))
    && (s.owner.GrowCopy? ==>
          s.owner.nb < |s.bufs| && s.owner.ob < |s.bufs|
          && FilledFrom(s.bufs[s.owner.ob], s.bufs[s.owner.nb], s.owner.t, s.owner.i))
  }

  predicate NewBlock(s: State, c: Choice) {
    c.CallPush? && s.owner.Idle? ==> !Stored(s, c.x)
  }

  lemma CopyDistinct(s: State, ok: bool)
    requires Inv(s) && Distinct(s) && s.owner.GrowCopy? && s.owner.i < s.owner.e
    ensures Distinct(GrowStep(s, ok))
  {
    var o, s' := s.owner, GrowStep(s, ok);
    FillOne(s.bufs[o.ob], s.bufs[o.nb], o.t, o.i);
    assert s'.bufs[o.nb] == s.bufs[o.nb][o.i % (2 * o.oc) := s.bufs[o.ob][o.i % o.oc]];
    forall x | Stored(s', x) ensures Stored(s, x) {
      var bf, i :| 0 <= bf < |s'.bufs| && 0 <= i < |s'.bufs[bf]| && s'.bufs[bf][i] == Holds(x);
      if bf == o.nb && i == o.i % (2 * o.oc) {
        assert s.bufs[o.ob][o.i % o.oc] == Holds(x);
      } else {
        assert s.bufs[bf][i] == Holds(x);
      }
    }
  }

  lemma WriteDistinct(s: State)
    requires Inv(s) && Distinct(s) && s.owner.PushWrite?
    ensures Distinct(PushStep(s).0)
  {
    var o, s' := s.owner, PushStep(s).0;
    forall bf | 0 <= bf < |s'.bufs| ensures NoTwins(s'.bufs[bf]) {
      assert NoTwins(s.bufs[bf]);
      forall i | 0 <= i < |s.bufs[bf]| ensures s.bufs[bf][i] != Holds(o.x) {
        assert !Stored(s, o.x);
      }
    }
  }

  lemma AllocDistinct(s: State, ok: bool)
    requires Inv(s) && Distinct(s) && s.owner.GrowAlloc?
    ensures Distinct(GrowStep(s, ok))
  {
    var s' := GrowStep(s, ok);
    forall x | Stored(s', x) ensures Stored(s, x) {
      var bf, i :| 0 <= bf < |s'.bufs| && 0 <= i < |s'.bufs[bf]| && s'.bufs[bf][i] == Holds(x);
      assert s.bufs[bf][i] == Holds(x);
    }
  }

  lemma QuietDistinct(s: State, s': State)
    requires Distinct(s) && s'.bufs == s.bufs
    requires Unwritten(s'.owner) ==> (Unwritten(s.owner) && s'.owner.x == s.owner.x) || !Stored(s, s'.owner.x)
    requires !s'.owner.GrowLoadTop? || s'.owner == s.owner
    requires s'.owner.GrowLoadBottom? ==>
               s'.owner == s.owner || (s.owner.GrowLoadTop? && s'.owner.nb == s.owner.nb)
    requires s'.owner.GrowCopy? ==>
               s'.owner == s.owner || (s.owner.GrowLoadBottom? && s'.owner.nb == s.owner.nb && s'.owner.ob < |s.bufs|)
    ensures Distinct(s')
  {
    assert forall x :: Stored(s', x) == Stored(s, x);
  }

  lemma QuietOwner(s: State, ok: bool)
    requires Inv(s) && Distinct(s) && !s.owner.PushWrite? && !s.owner.GrowAlloc?
    requires s.owner.GrowCopy? ==> s.owner.i >= s.owner.e
    ensures Distinct(OwnerStep(s, ok).0)
  {
    if Growing(s.owner) {
      QuietDistinct(s, GrowStep(s, ok));
    } else if Popping(s.owner) {
      QuietDistinct(s, PopStep(s).0);
    } else {
      QuietDistinct(s, PushStep(s).0);
    }
  }

  lemma DistinctKeeps(s: State, c: Choice)
    requires Inv(s) && Distinct(s) && NewBlock(s, c)
    ensures Distinct(Step(s, c).0)
  {
    if c.Owner? && s.owner.GrowCopy? && s.owner.i < s.owner.e {
      CopyDistinct(s, c.mallocOk);
    } else if c.Owner? && s.owner.PushWrite? {
      WriteDistinct(s);
    } else if c.Owner? && s.owner.GrowAlloc? {
      AllocDistinct(s, c.mallocOk);
    } else if c.Owner? {
      QuietOwner(s, c.mallocOk);
    } else if c.Thief? {
      if c.i < |s.thieves| {
        QuietDistinct(s, ThiefStep(s, c.i).0);
      }
    } else if s.owner.Idle? {
      QuietDistinct(s, OwnerCall(s, c).0);
    }
  }

  // Reachable by a clean run that never pushes a block some buffer still holds.
  predicate NewRun(s: State, sched: seq<Choice>)
    decreases |sched|
  {
    sched == [] || (Clean(s, sched[0]) && NewBlock(s, sched[0]) && NewRun(Step(s, sched[0]).0, sched[1..]))
  }

  lemma {:induction false} NewRunDistinct(s: State, sched: seq<Choice>)
    requires Inv(s) && Distinct(s) && NewRun(s, sched)
    ensures Inv(Exec(s, sched)) && Distinct(Exec(s, sched))
    decreases |sched|
  {
    if sched != [] {
      StepRefines(s, sched[0]);
      DistinctKeeps(s, sched[0]);
      NewRunDistinct(Step(s, sched[0]).0, sched[1..]);
    }
  }

  // The slot a thief is about to read is the oldest block of the queue if and only if the capacity
  // it loaded names the right slot of the buffer it loaded.
  lemma AlignedIff(s: State, i: nat)
    requires Inv(s) && Distinct(s) && i < |s.thieves| && s.thieves[i].StealRead? && s.thieves[i].t == s.top
    ensures var th := s.thieves[i];
            && Contents(s) != [] && th.bf < |s.bufs|
            && (Read(s, th.bf, Wrap(th.t, th.c)) == Contents(s)[0]
                <==> Wrap(th.t, th.c) == Wrap(th.t, |s.bufs[th.bf]|))
  {
    var th := s.thieves[i];
    assert ThiefInv(s, th);
    assert At(s, s.top).Holds?;
    assert NoTwins(s.bufs[th.bf]);
  }

  // The write of a push leaves the queue alone if and only if the ring has a free slot.
  lemma FreeSlotIff(s: State)
    requires Inv(s) && Distinct(s) && s.owner.PushWrite?
    ensures Contents(PushStep(s).0) == Contents(s) <==> s.owner.b - s.top < s.owner.c
  {
    if s.owner.b - s.top < s.owner.c {
      PushWriteKeeps(s);
    } else {
      FullRingLoses(s);
    }
  }

  lemma OneTurn(i: nat, c: nat)
    requires c >= 1
    ensures (i + c) % c == i % c
  {
    var q := i / c + 1 - (i + c) / c;
    assert i + c == c * (i / c) + i % c + c;
    assert c * q == (i + c) % c - i % c;
    assert q >= 1 ==> c * q >= c;
    assert q <= -1 ==> c * q + c <= 0;
  }

  lemma FullRingLoses(s: State)
    requires Inv(s) && Distinct(s) && s.owner.PushWrite? && s.owner.b - s.top >= s.owner.c
    ensures Contents(PushStep(s).0) != Contents(s)
  {
    var s', c, k := PushStep(s).0, s.owner.c, s.top % s.owner.c;
    assert s.owner.b == s.top + c;
    OneTurn(s.top, c);
    assert s.bufs[s.cur][k] != Holds(s.owner.x);
    assert s'.bufs[s.cur][k] == Holds(s.owner.x);
    assert Contents(s')[0] == At(s', s.top) == s'.bufs[s.cur][k];
    assert Contents(s)[0] == At(s, s.top) == s.bufs[s.cur][k];
  }

  // --- Runs of the code as it is that break exactly-once ---

  ghost predicate Reaches(s: State, s': State, mallocOk: bool) {
    exists sched :: Exec(s, sched) == s' && Owner(!mallocOk) !in sched
  }

  lemma {:induction false} ExecAppend(s: State, a: seq<Choice>, b: seq<Choice>)
    ensures Exec(s, a + b) == Exec(Exec(s, a), b)
    decreases |a|
  {
    if a == [] {
      assert a + b == b;
    } else {
      ExecAppend(Step(s, a[0]).0, a[1..], b);
      assert (a + b)[1..] == a[1..] + b;
    }
  }

  lemma ReachesTrans(s: State, m: State, s': State, ok: bool)
    requires Reaches(s, m, ok) && Reaches(m, s', ok)
    ensures Reaches(s, s', ok)
  {
    var a :| Exec(s, a) == m && Owner(!ok) !in a;
    var b :| Exec(m, b) == s' && Owner(!ok) !in b;
    ExecAppend(s, a, b);
    assert Exec(s, a + b) == s' && Owner(!ok) !in a + b;
  }

  lemma {:induction false} PathReaches(path: seq<State>, cs: seq<Choice>, ok: bool)
    requires |path| == |cs| + 1 && Owner(!ok) !in cs
    requires forall i :: 0 <= i < |cs| ==> Step(path[i], cs[i]).0 == path[i + 1]
    ensures Reaches(path[0], path[|cs|], ok)
    decreases |cs|
  {
    if cs == [] {
      assert Exec(path[0], []) == path[0];
    } else {
      PathReaches(path[1..], cs[1..], ok);
      var sched :| Exec(path[1], sched) == path[|cs|] && Owner(!ok) !in sched;
      assert ([cs[0]] + sched)[1..] == sched;
      assert Exec(path[0], [cs[0]] + sched) == path[|cs|];
    }
  }

  function AfterPush(s: State, x: Block): State {
    s.(bottom := s.bottom + 1, bufs := Write(s, s.cur, Wrap(s.bottom, s.cap), Holds(x)))
  }

  lemma LonePushPrefix(s: State, x: Block, ok: bool)
    requires s.owner.Idle? && s.top <= s.bottom && (s.bottom - s.top < s.cap - 1 || !ok)
    ensures Reaches(s, s.(owner := PushLoadBuf(x, s.bottom, s.cap)), ok)
  {
    var b, o := s.bottom, Owner(ok);
    var t2 := s.(owner := PushLoadCap(x, b, s.top));
    var l := s.(owner := PushLoadBuf(x, b, s.cap));
    PathReaches([s, s.(owner := PushLoadTop(x, b)), t2], [CallPush(x), o], ok);
    if s.bottom - s.top < s.cap - 1 {
      PathReaches([t2, l], [o], ok);
    } else {
      PathReaches([t2, s.(owner := GrowLoadCap(x, b)), s.(owner := GrowLoadBuf(x, b, s.cap)),
                   s.(owner := GrowAlloc(x, b, s.cap, s.cur)), s.(owner := PushReloadCap(x, b)), l],
                  [o, o, o, o, o], ok);
    }
    ReachesTrans(s, t2, l, ok);
  }

  // A push that nobody interferes with: no growth needed, or growth that malloc refuses.
  lemma LonePush(s: State, x: Block, ok: bool)
    requires s.owner.Idle? && s.top <= s.bottom && (s.bottom - s.top < s.cap - 1 || !ok)
    ensures Reaches(s, AfterPush(s, x), ok)
  {
    var b, o := s.bottom, Owner(ok);
    LonePushPrefix(s, x, ok);
    var l := s.(owner := PushLoadBuf(x, b, s.cap));
    var w := s.(owner := PushWrite(x, b, s.cap, s.cur));
    var w' := s.(bufs := Write(s, s.cur, Wrap(b, s.cap), Holds(x)), owner := PushStoreBottom(x, b));
    PathReaches([l, w, w', AfterPush(s, x)], [o, o, o], ok);
    ReachesTrans(s, l, AfterPush(s, x), ok);
  }

  lemma Stays(s: State, ok: bool)
    ensures Reaches(s, s, ok)
  {
    PathReaches([s], [], ok);
  }

  lemma WrapSmall(i: nat, c: nat)
    requires i < c
    ensures Wrap(i, c) == i && Wrap(c + i, c) == i
  {
    OneTurn(i, c);
  }

  lemma LoneSteal(s: State)
    requires s.thieves == [Resting] && s.top < s.bottom
    ensures Reaches(s, s.(thieves := [StealLoadBuf(s.top, s.cap)]), true)
    ensures Reaches(s, s.(top := s.top + 1), true)
  {
    var t, c := s.top, Thief(0);
    var l := s.(thieves := [StealLoadBuf(t, s.cap)]);
    PathReaches([s, s.(thieves := [StealLoadBottom(t)]), s.(thieves := [StealLoadCap(t)]), l], [c, c, c], true);
    PathReaches([l, s.(thieves := [StealRead(t, s.cap, s.cur)]),
                 s.(thieves := [StealCas(t, Read(s, s.cur, Wrap(t, s.cap)))]), s.(top := t + 1)], [c, c, c], true);
    ReachesTrans(s, l, s.(top := t + 1), true);
  }

  // --- A torn read, for every capacity ---

  // A ring of which the first i slots have been written, the k-th with block k.
  function Fresh(c: nat, i: nat): seq<Slot> {
    seq(c, k requires 0 <= k => if k < i then Holds(k) else Garbage)
  }

  // The same ring, full, after j further blocks.
  function Second(c: nat, j: nat): seq<Slot> {
    seq(c, k requires 0 <= k => Holds(if k < j then c + k else k))
  }

  // A buffer of twice the size into which the blocks from c up to i have been copied.
  function Copied(c: nat, i: nat): seq<Slot> {
    seq(2 * c, k => if c <= k < i then Holds(k) else Garbage)
  }

  // The blocks from `first` on.
  function Blocks(first: nat, n: nat): seq<Slot> {
    seq(n, k requires 0 <= k => Holds(first + k))
  }

  // i blocks were pushed, and each was stolen at once.
  function Drained(c: nat, i: nat): State {
    State(i, i, c, 0, [Fresh(c, i)], Idle, [Resting])
  }

  // j blocks more, and a thief that has loaded the capacity.
  function Torn(c: nat, j: nat): State {
    State(c, c + j, c, 0, [Second(c, j)], Idle, [StealLoadBuf(c, c)])
  }

  // The owner in deque_grow, for the push of block 2c - 1.
  function DuringGrowth(c: nat, i: nat, o: OwnerPc): State
    requires c > 0
  {
    State(c, 2 * c - 1, c, 0, [Second(c, c - 1), Copied(c, i)], o, [StealLoadBuf(c, c)])
  }

  function AfterGrowth(c: nat): State
    requires c > 0
  {
    State(c, 2 * c, 2 * c, 1, [Second(c, c - 1), Copied(c, 2 * c)], Idle, [StealLoadBuf(c, c)])
  }

  lemma {:induction false} DrainedReached(c: nat, i: nat)
    requires c >= 2 && i <= c
    ensures Reaches(Init(c, 1), Drained(c, i), true)
    decreases i
  {
    hide Reaches, Wrap;
    if i == 0 {
      assert Init(c, 1).bufs[0] == Fresh(c, 0) && Init(c, 1).thieves == [Resting];
      Stays(Drained(c, 0), true);
    } else {
      DrainedReached(c, i - 1);
      DrainedStep(c, i - 1);
      ReachesTrans(Init(c, 1), Drained(c, i - 1), Drained(c, i), true);
    }
  }

  lemma DrainedStep(c: nat, i: nat)
    requires c >= 2 && i < c
    ensures Reaches(Drained(c, i), Drained(c, i + 1), true)
  {
    hide Reaches, Wrap;
    var s, s' := Drained(c, i), Drained(c, i + 1);
    WrapSmall(i, c);
    LonePush(s, i, true);
    assert AfterPush(s, i).bufs[0] == s'.bufs[0];
    assert AfterPush(s, i) == s'.(top := i);
    LoneSteal(s'.(top := i));
    ReachesTrans(s, s'.(top := i), s', true);
  }

  // The thief that finds block c loads the capacity.
  lemma TornStart(c: nat)
    requires c >= 2
    ensures Reaches(Drained(c, c), Torn(c, 1), true)
  {
    hide Reaches, Wrap;
    var s, s' := Drained(c, c), Torn(c, 1);
    WrapSmall(0, c);
    LonePush(s, c, true);
    assert AfterPush(s, c).bufs[0] == s'.bufs[0];
    assert AfterPush(s, c) == s'.(thieves := [Resting]);
    LoneSteal(s'.(thieves := [Resting]));
    ReachesTrans(s, s'.(thieves := [Resting]), s', true);
  }

  lemma {:induction false} TornReached(c: nat, j: nat)
    requires c >= 2 && 1 <= j < c
    ensures Reaches(Init(c, 1), Torn(c, j), true)
    decreases j
  {
    hide Reaches, Wrap;
    if j == 1 {
      DrainedReached(c, c);
      TornStart(c);
      ReachesTrans(Init(c, 1), Drained(c, c), Torn(c, 1), true);
    } else {
      var s, s' := Torn(c, j - 1), Torn(c, j);
      TornReached(c, j - 1);
      WrapSmall(j - 1, c);
      LonePush(s, c + j - 1, true);
      assert AfterPush(s, c + j - 1).bufs[0] == s'.bufs[0];
      assert AfterPush(s, c + j - 1) == s';
      ReachesTrans(Init(c, 1), s, s', true);
    }
  }

  // The next push finds the ring full but for one slot, and grows it.
  lemma GrowthNeeded(c: nat)
    requires c >= 2
    ensures var b := 2 * c - 1; Reaches(Torn(c, c - 1), Torn(c, c - 1).(owner := GrowAlloc(b, b, c, 0)), true)
  {
    hide Second;
    var o, s, b := Owner(true), Torn(c, c - 1), 2 * c - 1;
    PathReaches([s, s.(owner := PushLoadTop(b, b)), s.(owner := PushLoadCap(b, b, c)), s.(owner := GrowLoadCap(b, b)),
                 s.(owner := GrowLoadBuf(b, b, c)), s.(owner := GrowAlloc(b, b, c, 0))], [CallPush(b), o, o, o, o], true);
  }

  lemma GrowthStart(c: nat)
    requires c >= 2
    ensures Reaches(Torn(c, c - 1), DuringGrowth(c, c, GrowCopy(2 * c - 1, 2 * c - 1, c, 0, 1, c, c, 2 * c - 1)), true)
  {
    GrowthNeeded(c);
    var o, s, b := Owner(true), Torn(c, c - 1), 2 * c - 1;
    var a := s.(owner := GrowAlloc(b, b, c, 0));
    var g := DuringGrowth(c, c, GrowCopy(b, b, c, 0, 1, c, c, b));
    assert seq(2 * c, _ => Garbage) == Copied(c, c);
    hide Second, Copied;
    PathReaches([a, DuringGrowth(c, c, GrowLoadTop(b, b, c, 0, 1)), DuringGrowth(c, c, GrowLoadBottom(b, b, c, 0, 1, c)), g],
                [o, o, o], true);
    ReachesTrans(s, a, g, true);
  }

  lemma CopyStep(c: nat, i: nat)
    requires c >= 2 && c <= i < 2 * c - 1
    ensures var b := 2 * c - 1;
            Step(DuringGrowth(c, i, GrowCopy(b, b, c, 0, 1, c, i, b)), Owner(true)).0 == DuringGrowth(c, i + 1, GrowCopy(b, b, c, 0, 1, c, i + 1, b))
  {
    hide Wrap;
    var b := 2 * c - 1;
    var s := DuringGrowth(c, i, GrowCopy(b, b, c, 0, 1, c, i, b));
    WrapSmall(i - c, c);
    WrapSmall(i, 2 * c);
    assert Read(s, 0, i - c) == Holds(i);
    assert s.bufs[1][i := Holds(i)] == Copied(c, i + 1);
  }

  lemma {:induction false} CopyReached(c: nat, i: nat)
    requires c >= 2 && c <= i < 2 * c
    ensures var b := 2 * c - 1; Reaches(Torn(c, c - 1), DuringGrowth(c, i, GrowCopy(b, b, c, 0, 1, c, i, b)), true)
    decreases i
  {
    hide Reaches, DuringGrowth, Step;
    var b := 2 * c - 1;
    if i == c {
      GrowthStart(c);
    } else {
      CopyReached(c, i - 1);
      CopyStep(c, i - 1);
      var s, s' := DuringGrowth(c, i - 1, GrowCopy(b, b, c, 0, 1, c, i - 1, b)), DuringGrowth(c, i, GrowCopy(b, b, c, 0, 1, c, i, b));
      PathReaches([s, s'], [Owner(true)], true);
      ReachesTrans(Torn(c, c - 1), s, s', true);
    }
  }

  // The new buffer is published and the block written into it.
  lemma GrowthEnd(c: nat)
    requires c >= 2
    ensures var b := 2 * c - 1; Reaches(DuringGrowth(c, b, GrowCopy(b, b, c, 0, 1, c, b, b)), AfterGrowth(c), true)
  {
    var o, b := Owner(true), 2 * c - 1;
    var g := DuringGrowth(c, b, GrowCopy(b, b, c, 0, 1, c, b, b));
    var n := DuringGrowth(c, b, PushReloadCap(b, b)).(cur := 1, cap := 2 * c);
    PathReaches([g, DuringGrowth(c, b, GrowStoreBuf(b, b, c, 1)), DuringGrowth(c, b, GrowStoreCap(b, b, 2 * c)).(cur := 1), n],
                [o, o, o], true);
    GrowthWrite(c, n);
    ReachesTrans(g, n, AfterGrowth(c), true);
  }

  lemma GrowthWrite(c: nat, n: State)
    requires c >= 2 && n == DuringGrowth(c, 2 * c - 1, PushReloadCap(2 * c - 1, 2 * c - 1)).(cur := 1, cap := 2 * c)
    ensures Reaches(n, AfterGrowth(c), true)
  {
    hide Wrap;
    var o, b := Owner(true), 2 * c - 1;
    var w := n.(owner := PushWrite(b, b, 2 * c, 1));
    var w' := AfterGrowth(c).(bottom := b, owner := PushStoreBottom(b, b));
    WrapSmall(b, 2 * c);
    assert n.bufs[1][b := Holds(b)] == Copied(c, 2 * c);
    hide Second, Copied;
    PathReaches([n, n.(owner := PushLoadBuf(b, b, 2 * c)), w, w', AfterGrowth(c)], [o, o, o, o], true);
  }

  // A thief loads `capacity`, the owner grows the ring, the thief loads `buffer`: its compare-and-swap
  // succeeds and it returns a slot nobody ever wrote, while block c is lost.
  lemma TornReadLosesBlock(c: nat) returns (s: State)
    requires c >= 2
    ensures Reaches(Init(c, 1), s, true)
    ensures Step(s, Thief(0)).1 == Stole(Garbage)
    ensures Contents(s) == Blocks(c, c) && Contents(Step(s, Thief(0)).0) == Blocks(c + 1, c - 1)
  {
    hide Reaches, Torn;
    var a, b := AfterGrowth(c), 2 * c - 1;
    TornReached(c, c - 1);
    CopyReached(c, b);
    GrowthEnd(c);
    var g := DuringGrowth(c, b, GrowCopy(b, b, c, 0, 1, c, b, b));
    ReachesTrans(Init(c, 1), Torn(c, c - 1), g, true);
    ReachesTrans(Init(c, 1), g, a, true);
    s := a.(thieves := [StealCas(c, Garbage)]);
    TornRead(c);
    ReachesTrans(Init(c, 1), a, s, true);
    TornContents(c, s);
  }

  lemma TornRead(c: nat)
    requires c >= 2
    ensures Reaches(AfterGrowth(c), AfterGrowth(c).(thieves := [StealCas(c, Garbage)]), true)
  {
    hide Wrap;
    var a := AfterGrowth(c);
    WrapSmall(0, c);
    PathReaches([a, a.(thieves := [StealRead(c, c, 1)]), a.(thieves := [StealCas(c, Garbage)])], [Thief(0), Thief(0)], true);
  }

  lemma TornContents(c: nat, s: State)
    requires c >= 2 && s == AfterGrowth(c).(thieves := [StealCas(c, Garbage)])
    ensures Step(s, Thief(0)).1 == Stole(Garbage)
    ensures Contents(s) == Blocks(c, c) && Contents(Step(s, Thief(0)).0) == Blocks(c + 1, c - 1)
  {
    hide Wrap;
    var s' := Step(s, Thief(0)).0;
    assert s' == s.(top := c + 1, thieves := [Resting]);
    forall i | c <= i < 2 * c ensures At(s, i) == Holds(i) && At(s', i) == Holds(i) {
      WrapSmall(i, 2 * c);
    }
  }

  // --- Failed growth, for every capacity ---

  // i blocks were pushed while malloc refused to grow the ring.
  function Refused(c: nat, i: nat): State {
    State(0, i, c, 0, [Fresh(c, i)], Idle, [])
  }

  lemma {:induction false} RefusedReached(c: nat, i: nat)
    requires i <= c
    ensures Reaches(Init(c, 0), Refused(c, i), false)
    decreases i
  {
    hide Reaches, Wrap;
    if i == 0 {
      assert Init(c, 0).bufs[0] == Fresh(c, 0) && Init(c, 0).thieves == [];
      Stays(Refused(c, 0), false);
    } else {
      var s, s' := Refused(c, i - 1), Refused(c, i);
      RefusedReached(c, i - 1);
      WrapSmall(i - 1, c);
      LonePush(s, i - 1, false);
      assert AfterPush(s, i - 1).bufs[0] == s'.bufs[0];
      assert AfterPush(s, i - 1) == s';
      ReachesTrans(Init(c, 0), s, s', false);
    }
  }

  // If malloc refuses to grow the ring, the push of block c overwrites block 0, which is lost, and block c
  // is queued twice.
  lemma FailedGrowthLosesBlock(c: nat) returns (s: State)
    requires c >= 1
    ensures Reaches(Init(c, 0), s, false)
    ensures s.owner.Idle? && Contents(s) == [Holds(c)] + Blocks(1, c - 1) + [Holds(c)]
  {
    hide Reaches, Wrap;
    RefusedReached(c, c);
    var r := Refused(c, c);
    WrapSmall(0, c);
    LonePush(r, c, false);
    s := AfterPush(r, c);
    ReachesTrans(Init(c, 0), r, s, false);
    assert s.bufs[0] == [Holds(c)] + Blocks(1, c - 1);
    forall i | 0 <= i <= c ensures At(s, i) == if i == 0 then Holds(c) else Holds(i) {
      WrapSmall(if i == c then 0 else i, c);
    }
  }
}
