/** The Chase-Lev work-stealing deque of src/runtime/worker.c as a step machine.

    One owner pushes, pops and grows; any number of thieves steal. Every atomic load, store
    and compare-and-swap is one step, and so is every plain access to a buffer slot; a run is an
    arbitrary interleaving of steps, given by a schedule. The machine refines a plain
    double-ended queue: pushes append, pops take the newest block, steals take the oldest.
 */
module Deque {

  type Block = nat

  // A buffer slot: malloc'ed memory that was never written, or a block.
  datatype Slot = Garbage | Holds(block: Block)

  // Where the owner is inside deque_push (with deque_grow inlined) or deque_pop.
  datatype OwnerPc =
    | Idle
    | PushLoadTop(x: Block, b: nat)
    | PushLoadCap(x: Block, b: nat, t: nat)
    | GrowLoadCap(x: Block, b: nat)
    | GrowLoadBuf(x: Block, b: nat, oc: nat)
    | GrowAlloc(x: Block, b: nat, oc: nat, ob: nat)
    | GrowLoadTop(x: Block, b: nat, oc: nat, ob: nat, nb: nat)
    | GrowLoadBottom(x: Block, b: nat, oc: nat, ob: nat, nb: nat, t: nat)
    | GrowCopy(x: Block, b: nat, oc: nat, ob: nat, nb: nat, t: nat, i: nat, e: nat)
    | GrowStoreBuf(x: Block, b: nat, oc: nat, nb: nat)
    | GrowStoreCap(x: Block, b: nat, nc: nat)
    | PushReloadCap(x: Block, b: nat)
    | PushLoadBuf(x: Block, b: nat, c: nat)
    | PushWrite(x: Block, b: nat, c: nat, bf: nat)
    | PushStoreBottom(x: Block, b: nat)
    | PopStoreBottom(b: nat)
    | PopLoadTop(b: nat)
    | PopRestore(b: nat)
    | PopLoadCap(b: nat, t: nat)
    | PopLoadBuf(b: nat, t: nat, c: nat)
    | PopRead(b: nat, t: nat, c: nat, bf: nat)
    | PopCas(b: nat, v: Slot)
    | PopFinish(b: nat)

  // Where a thief is inside deque_steal.
  datatype ThiefPc =
    | Resting
    | StealLoadBottom(t: nat)
    | StealLoadCap(t: nat)
    | StealLoadBuf(t: nat, c: nat)
    | StealRead(t: nat, c: nat, bf: nat)
    | StealCas(t: nat, v: Slot)

  // `bufs` keeps every buffer ever allocated; `cur` is the one deque->buffer points to.
  datatype State = State(top: nat, bottom: nat, cap: nat, cur: nat, bufs: seq<seq<Slot>>,
                         owner: OwnerPc, thieves: seq<ThiefPc>)

  // Who moves next. `Owner(false)` is a step in which malloc, if called, returns NULL.
  datatype Choice = CallPush(x: Block) | CallPop | Owner(mallocOk: bool) | Thief(i: nat)

  // What a step makes visible: the effect of a push, or the return of a pop or a steal.
  datatype Event =
    | Silent
    | Pushed(x: Block)
    | Popped(v: Slot)
    | PopEmpty
    | Stole(v: Slot)
    | StealNone

  function Init(capacity: nat, thieves: nat): State {
    State(0, 0, capacity, 0, [seq(capacity, _ => Garbage)], Idle, seq(thieves, _ => Resting))
  }

  // Index arithmetic and slot accesses; an access out of bounds reads Garbage and writes nothing
  // (BoundsSafe shows that none happens).
  function Wrap(i: nat, c: nat): nat {
    if c == 0 then 0 else i % c
  }

  predicate InBounds(s: State, bf: nat, k: nat) {
    bf < |s.bufs| && k < |s.bufs[bf]|
  }

  function Read(s: State, bf: nat, k: nat): Slot {
    if InBounds(s, bf, k) then s.bufs[bf][k] else Garbage
  }

  function Write(s: State, bf: nat, k: nat, v: Slot): seq<seq<Slot>> {
    if InBounds(s, bf, k) then s.bufs[bf := s.bufs[bf][k := v]] else s.bufs
  }

  function OwnerCall(s: State, c: Choice): (State, Event) {
    match c
    case CallPush(x) => (s.(owner := PushLoadTop(x, s.bottom)), Silent)
    case CallPop => if s.bottom == 0 then (s, PopEmpty) else (s.(owner := PopStoreBottom(s.bottom - 1)), Silent)
    case _ => (s, Silent)
  }

  // One step of deque_grow.
  function GrowStep(s: State, mallocOk: bool): State {
    match s.owner
    case GrowLoadCap(x, b) => s.(owner := GrowLoadBuf(x, b, s.cap))
    case GrowLoadBuf(x, b, oc) => s.(owner := GrowAlloc(x, b, oc, s.cur))
    case GrowAlloc(x, b, oc, ob) =>
      if mallocOk
      then s.(bufs := s.bufs + [seq(2 * oc, _ => Garbage)], owner := GrowLoadTop(x, b, oc, ob, |s.bufs|))
      else s.(owner := PushReloadCap(x, b))
    case GrowLoadTop(x, b, oc, ob, nb) => s.(owner := GrowLoadBottom(x, b, oc, ob, nb, s.top))
    case GrowLoadBottom(x, b, oc, ob, nb, t) => s.(owner := GrowCopy(x, b, oc, ob, nb, t, t, s.bottom))
    case GrowCopy(x, b, oc, ob, nb, t, i, e) =>
      if i < e
      then s.(bufs := Write(s, nb, Wrap(i, 2 * oc), Read(s, ob, Wrap(i, oc))),
              owner := GrowCopy(x, b, oc, ob, nb, t, i + 1, e))
      else s.(owner := GrowStoreBuf(x, b, oc, nb))
    case GrowStoreBuf(x, b, oc, nb) => s.(cur := nb, owner := GrowStoreCap(x, b, 2 * oc))
    case GrowStoreCap(x, b, nc) => s.(cap := nc, owner := PushReloadCap(x, b))
    case _ => s
  }

  // One step of deque_push outside deque_grow.
  function PushStep(s: State): (State, Event) {
    match s.owner
    case PushLoadTop(x, b) => (s.(owner := PushLoadCap(x, b, s.top)), Silent)
    case PushLoadCap(x, b, t) =>
      (if b - t >= s.cap - 1 then s.(owner := GrowLoadCap(x, b)) else s.(owner := PushLoadBuf(x, b, s.cap)), Silent)
    case PushReloadCap(x, b) => (s.(owner := PushLoadBuf(x, b, s.cap)), Silent)
    case PushLoadBuf(x, b, c) => (s.(owner := PushWrite(x, b, c, s.cur)), Silent)
    case PushWrite(x, b, c, bf) =>
      (s.(bufs := Write(s, bf, Wrap(b, c), Holds(x)), owner := PushStoreBottom(x, b)), Silent)
    case PushStoreBottom(x, b) => (s.(bottom := b + 1, owner := Idle), Pushed(x))
    case _ => (s, Silent)
  }

  // One step of deque_pop.
  function PopStep(s: State): (State, Event) {
    match s.owner
    case PopStoreBottom(b) => (s.(bottom := b, owner := PopLoadTop(b)), Silent)
    case PopLoadTop(b) =>
      if s.top > b then (s.(owner := PopRestore(b)), PopEmpty) else (s.(owner := PopLoadCap(b, s.top)), Silent)
    case PopRestore(b) => (s.(bottom := b + 1, owner := Idle), Silent)
    case PopLoadCap(b, t) => (s.(owner := PopLoadBuf(b, t, s.cap)), Silent)
    case PopLoadBuf(b, t, c) => (s.(owner := PopRead(b, t, c, s.cur)), Silent)
    case PopRead(b, t, c, bf) =>
      var v := Read(s, bf, Wrap(b, c));
      if t == b then (s.(owner := PopCas(b, v)), Silent) else (s.(owner := Idle), Popped(v))
    case PopCas(b, v) =>
      if s.top == b then (s.(top := b + 1, owner := PopFinish(b)), Popped(v))
      else (s.(owner := PopFinish(b)), PopEmpty)
    case PopFinish(b) => (s.(bottom := b + 1, owner := Idle), Silent)
    case _ => (s, Silent)
  }

  function OwnerStep(s: State, mallocOk: bool): (State, Event) {
    if Growing(s.owner) then (GrowStep(s, mallocOk), Silent)
    else if Popping(s.owner) then PopStep(s)
    else PushStep(s)
  }

  predicate Growing(o: OwnerPc) {
    o.GrowLoadCap? || o.GrowLoadBuf? || o.GrowAlloc? || o.GrowLoadTop? || o.GrowLoadBottom? || o.GrowCopy?
    || o.GrowStoreBuf? || o.GrowStoreCap?
  }

  predicate Popping(o: OwnerPc) {
    o.PopStoreBottom? || o.PopLoadTop? || o.PopRestore? || o.PopLoadCap? || o.PopLoadBuf? || o.PopRead? || o.PopCas?
    || o.PopFinish?
  }

  // One step of deque_steal by thief `i`.
  function ThiefStep(s: State, i: nat): (State, Event)
    requires i < |s.thieves|
  {
    match s.thieves[i]
    case Resting => (s.(thieves := s.thieves[i := StealLoadBottom(s.top)]), Silent)
    case StealLoadBottom(t) =>
      if t >= s.bottom then (s.(thieves := s.thieves[i := Resting]), StealNone)
      else (s.(thieves := s.thieves[i := StealLoadCap(t)]), Silent)
    case StealLoadCap(t) => (s.(thieves := s.thieves[i := StealLoadBuf(t, s.cap)]), Silent)
    case StealLoadBuf(t, c) => (s.(thieves := s.thieves[i := StealRead(t, c, s.cur)]), Silent)
    case StealRead(t, c, bf) => (s.(thieves := s.thieves[i := StealCas(t, Read(s, bf, Wrap(t, c)))]), Silent)
    case StealCas(t, v) =>
      if s.top == t then (s.(top := t + 1, thieves := s.thieves[i := Resting]), Stole(v))
      else (s.(thieves := s.thieves[i := Resting]), StealNone)
  }

  // A choice that is not enabled leaves the state as it is.
  function Step(s: State, c: Choice): (State, Event) {
    match c
    case Thief(i) => if i < |s.thieves| then ThiefStep(s, i) else (s, Silent)
    case Owner(ok) => OwnerStep(s, ok)
    case _ => if s.owner.Idle? then OwnerCall(s, c) else (s, Silent)
  }

  function Exec(s: State, sched: seq<Choice>): State
    decreases |sched|
  {
    if sched == [] then s else Exec(Step(s, sched[0]).0, sched[1..])
  }

  function Trace(s: State, sched: seq<Choice>): seq<Event>
    decreases |sched|
  {
    if sched == [] then [] else [Step(s, sched[0]).1] + Trace(Step(s, sched[0]).0, sched[1..])
  }

  // The two spots where worker.c does not protect itself. A thief loads `capacity` and `buffer`
  // separately, so a growth in between makes it index the new buffer with the old capacity; and a
  // push goes on after a failed malloc, so it may write into a ring that has no free slot.
  predicate Clean(s: State, c: Choice) {
    && (c.Thief? && c.i < |s.thieves| && s.thieves[c.i].StealRead? && s.thieves[c.i].t == s.top ==>
          var th := s.thieves[c.i];
          th.bf < |s.bufs| ==> Wrap(th.t, th.c) == Wrap(th.t, |s.bufs[th.bf]|))
    && (c.Owner? && s.owner.PushWrite? ==> s.owner.b - s.top < s.owner.c)
  }

  predicate CleanRun(s: State, sched: seq<Choice>)
    decreases |sched|
  {
    sched == [] || (Clean(s, sched[0]) && CleanRun(Step(s, sched[0]).0, sched[1..]))
  }

  // --- The abstract double-ended queue ---

  // Logical bottom: a pop lowers `bottom` before it knows whether it gets the block.
  function Limit(s: State): nat {
    if s.owner.PopLoadTop? || s.owner.PopRestore? || s.owner.PopLoadCap? || s.owner.PopLoadBuf?
       || s.owner.PopRead? || s.owner.PopCas? || s.owner.PopFinish?
    then s.owner.b + 1
    else s.bottom
  }

  function At(s: State, i: nat): Slot {
    if s.cur < |s.bufs| then Read(s, s.cur, Wrap(i, |s.bufs[s.cur]|)) else Garbage
  }

  function Contents(s: State): seq<Slot> {
    if s.top <= Limit(s) then seq(Limit(s) - s.top, k requires 0 <= k => At(s, s.top + k)) else []
  }

  // One operation on the abstract queue.
  predicate Effect(q: seq<Slot>, e: Event, q': seq<Slot>) {
    match e
    case Silent => q' == q
    case Pushed(x) => q' == q + [Holds(x)]
    case Popped(v) => q != [] && v == q[|q| - 1] && q' == q[..|q| - 1]
    case PopEmpty => q == [] && q' == []
    case Stole(v) => q != [] && v == q[0] && q' == q[1..]
    case StealNone => q' == q
  }

  // --- The invariant ---

  // A pop that has seen top < b owns index b without a compare-and-swap.
  predicate Takes(o: OwnerPc) {
    (o.PopLoadCap? || o.PopLoadBuf? || o.PopRead?) && o.t < o.b
  }

  // What a thief that got past its emptiness test may rely on.
  ghost predicate Passed(s: State, t: nat) {
    && t <= s.top
    && (t == s.top ==> t < Limit(s))
    && (Takes(s.owner) ==> t < s.owner.b)
  }

  ghost predicate ThiefInv(s: State, th: ThiefPc) {
    match th
    case Resting => true
    case StealLoadBottom(t) => t <= s.top
    case StealLoadCap(t) => Passed(s, t)
    case StealLoadBuf(t, c) => Passed(s, t) && s.cur < |s.bufs| && 1 <= c <= |s.bufs[s.cur]|
    case StealRead(t, c, bf) =>
      && Passed(s, t) && bf <= s.cur < |s.bufs| && 1 <= c <= |s.bufs[bf]|
      && (t == s.top ==> Read(s, bf, Wrap(t, |s.bufs[bf]|)) == At(s, t))
    case StealCas(t, v) => Passed(s, t) && (t == s.top ==> v == At(s, t))
  }

  ghost predicate Copied(s: State, ob: nat, oc: nat, nb: nat, from: nat, to: nat) {
    forall k {:trigger Wrap(k, 2 * oc)} :: from <= k < to ==> Read(s, nb, Wrap(k, 2 * oc)) == Read(s, ob, Wrap(k, oc))
  }

  ghost predicate GrowInv(s: State) {
    match s.owner
    case GrowLoadCap(x, b) => b == s.bottom
    case GrowLoadBuf(x, b, oc) => b == s.bottom && oc == s.cap
    case GrowAlloc(x, b, oc, ob) => b == s.bottom && oc == s.cap && ob == s.cur
    case GrowLoadTop(x, b, oc, ob, nb) =>
      && b == s.bottom && oc == s.cap && ob == s.cur
      && s.cur < nb < |s.bufs| && |s.bufs[nb]| == 2 * oc
    case GrowLoadBottom(x, b, oc, ob, nb, t) =>
      && b == s.bottom && oc == s.cap && ob == s.cur
      && s.cur < nb < |s.bufs| && |s.bufs[nb]| == 2 * oc
      && t <= s.top && t <= b && b - t <= oc
    case GrowCopy(x, b, oc, ob, nb, t, i, e) =>
      && b == s.bottom && oc == s.cap && ob == s.cur
      && s.cur < nb < |s.bufs| && |s.bufs[nb]| == 2 * oc
      && t <= s.top && t <= i <= b && b - t <= oc && e == b
      && Copied(s, ob, oc, nb, t, i)
    case GrowStoreBuf(x, b, oc, nb) =>
      && b == s.bottom && oc == s.cap
      && s.cur < nb < |s.bufs| && |s.bufs[nb]| == 2 * oc
      && Copied(s, s.cur, oc, nb, s.top, b)
    case GrowStoreCap(x, b, nc) => b == s.bottom && s.cur < |s.bufs| && nc == |s.bufs[s.cur]|
    case _ => true
  }

  ghost predicate PushInv(s: State) {
    match s.owner
    case PushLoadTop(x, b) => b == s.bottom
    case PushLoadCap(x, b, t) => b == s.bottom && t <= s.top
    case PushReloadCap(x, b) => b == s.bottom
    case PushLoadBuf(x, b, c) => b == s.bottom && c == s.cap
    case PushWrite(x, b, c, bf) => b == s.bottom && c == s.cap && bf == s.cur
    case PushStoreBottom(x, b) => b == s.bottom && b - s.top < s.cap && At(s, b) == Holds(x)
    case _ => true
  }

  ghost predicate PopInv(s: State) {
    match s.owner
    case PopStoreBottom(b) => s.bottom == b + 1
    case PopLoadTop(b) => s.bottom == b
    case PopRestore(b) => s.bottom == b && s.top == b + 1
    case PopLoadCap(b, t) => s.bottom == b && t <= b && t <= s.top && (t < b ==> s.top <= b)
    case PopLoadBuf(b, t, c) => s.bottom == b && t <= b && t <= s.top && (t < b ==> s.top <= b) && c == s.cap
    case PopRead(b, t, c, bf) =>
      s.bottom == b && t <= b && t <= s.top && (t < b ==> s.top <= b) && c == s.cap && bf == s.cur
    case PopCas(b, v) => s.bottom == b && b <= s.top && (s.top == b ==> v == At(s, b))
    case PopFinish(b) => s.bottom == b && s.top == b + 1
    case _ => true
  }

  ghost predicate Shape(s: State) {
    && s.cur < |s.bufs|
    && (forall k :: 0 <= k < |s.bufs| ==> |s.bufs[k]| >= 1)
    && 1 <= s.cap <= |s.bufs[s.cur]|
    && (!s.owner.GrowStoreCap? ==> s.cap == |s.bufs[s.cur]|)
    && s.top <= Limit(s) && Limit(s) - s.top <= |s.bufs[s.cur]|
    && (forall i :: s.top <= i < Limit(s) ==> At(s, i).Holds?)
  }

  ghost predicate Inv(s: State) {
    && Shape(s)
    && GrowInv(s) && PushInv(s) && PopInv(s)
    && (forall k :: 0 <= k < |s.thieves| ==> ThiefInv(s, s.thieves[k]))
  }

  lemma InitInv(capacity: nat, thieves: nat)
    requires capacity >= 1
    ensures Inv(Init(capacity, thieves)) && Contents(Init(capacity, thieves)) == []
  {
  }

  // --- Ring arithmetic ---

  lemma SameResidue(i: nat, j: nat, c: nat)
    requires 1 <= c && i % c == j % c && i <= j < i + c
    ensures i == j
  {
    var q := j / c - i / c;
    assert j - i == c * q;
    assert q >= 1 ==> c * q >= c;
    assert q <= -1 ==> c * q + c <= 0;
  }

  // A write at the bottom of a ring with a free slot leaves every live index alone.
  lemma WriteKeeps(s: State, b: nat, v: Slot, i: nat)
    requires s.cur < |s.bufs| && |s.bufs[s.cur]| >= 1 && i < b < i + |s.bufs[s.cur]|
    ensures At(s.(bufs := Write(s, s.cur, Wrap(b, |s.bufs[s.cur]|), v)), i) == At(s, i)
    ensures At(s.(bufs := Write(s, s.cur, Wrap(b, |s.bufs[s.cur]|), v)), b) == v
  {
    var c := |s.bufs[s.cur]|;
    if i % c == b % c {
      SameResidue(i, b, c);
    }
  }

  // --- Every step keeps the invariant and is one operation on the abstract queue ---

  lemma SameContents(s: State, s': State)
    requires s'.top == s.top && Limit(s') == Limit(s) && s.top <= Limit(s)
    requires forall i :: s.top <= i < Limit(s) ==> At(s', i) == At(s, i)
    ensures Contents(s') == Contents(s)
  {
  }

  lemma CallKeeps(s: State, c: Choice)
    requires Inv(s) && s.owner.Idle?
    ensures Inv(OwnerCall(s, c).0)
    ensures Effect(Contents(s), OwnerCall(s, c).1, Contents(OwnerCall(s, c).0))
  {
    var s' := OwnerCall(s, c).0;
    SameContents(s, s');
    forall k | 0 <= k < |s'.thieves| ensures ThiefInv(s', s'.thieves[k]) {
      assert ThiefInv(s, s.thieves[k]);
    }
  }

  // A step that changes neither top, nor the logical bottom, nor any buffer a thief can hold.
  lemma Unseen(s: State, s': State, th: ThiefPc)
    requires ThiefInv(s, th) && Shape(s)
    requires s'.top == s.top && Limit(s') == Limit(s) && s'.cur == s.cur && |s'.bufs| >= |s.bufs|
    requires forall k :: 0 <= k <= s.cur ==> s'.bufs[k] == s.bufs[k]
    requires Takes(s'.owner) ==> Takes(s.owner) && s'.owner.b == s.owner.b
    ensures ThiefInv(s', th)
  {
    if Limit(s) > LoadedTop(th) {
      assert At(s', LoadedTop(th)) == At(s, LoadedTop(th));
    }
    if th.StealRead? {
      assert Read(s', th.bf, Wrap(th.t, |s.bufs[th.bf]|)) == Read(s, th.bf, Wrap(th.t, |s.bufs[th.bf]|));
    }
  }

  function LoadedTop(th: ThiefPc): nat { if th.Resting? then 0 else th.t }

  lemma GrowCopyKeeps(s: State, ok: bool)
    requires Inv(s) && s.owner.GrowCopy? && s.owner.i < s.owner.e
    ensures Inv(GrowStep(s, ok))
    ensures Contents(GrowStep(s, ok)) == Contents(s)
  {
    var s' := GrowStep(s, ok);
    var o := s.owner;
    forall k {:trigger Wrap(k, 2 * o.oc)} | o.t <= k < o.i + 1
      ensures Read(s', o.nb, Wrap(k, 2 * o.oc)) == Read(s', o.ob, Wrap(k, o.oc))
    {
      if k < o.i && k % (2 * o.oc) == o.i % (2 * o.oc) {
        SameResidue(k, o.i, 2 * o.oc);
      }
    }
    SameContents(s, s');
    forall k | 0 <= k < |s'.thieves| ensures ThiefInv(s', s'.thieves[k]) {
      Unseen(s, s', s.thieves[k]);
    }
  }

  // The new buffer is published with every live block at its new place.
  lemma GrowSwapKeeps(s: State, ok: bool)
    requires Inv(s) && s.owner.GrowStoreBuf?
    ensures Inv(GrowStep(s, ok))
    ensures Contents(GrowStep(s, ok)) == Contents(s)
  {
    var s' := GrowStep(s, ok);
    forall i | s.top <= i < s.bottom ensures At(s', i) == At(s, i) {
      assert Read(s, s.owner.nb, Wrap(i, 2 * s.owner.oc)) == Read(s, s.cur, Wrap(i, s.owner.oc));
    }
    SameContents(s, s');
    forall k | 0 <= k < |s'.thieves| ensures ThiefInv(s', s'.thieves[k]) {
      assert ThiefInv(s, s.thieves[k]);
    }
  }

  lemma GrowKeeps(s: State, ok: bool)
    requires Inv(s) && Growing(s.owner)
    ensures Inv(GrowStep(s, ok))
    ensures Contents(GrowStep(s, ok)) == Contents(s)
  {
    if s.owner.GrowCopy? && s.owner.i < s.owner.e {
      GrowCopyKeeps(s, ok);
    } else if s.owner.GrowStoreBuf? {
      GrowSwapKeeps(s, ok);
    } else {
      var s' := GrowStep(s, ok);
      SameContents(s, s');
      forall k | 0 <= k < |s'.thieves| ensures ThiefInv(s', s'.thieves[k]) {
        Unseen(s, s', s.thieves[k]);
      }
    }
  }

  lemma PushWriteKeeps(s: State)
    requires Inv(s) && s.owner.PushWrite? && s.owner.b - s.top < s.owner.c
    ensures Inv(PushStep(s).0)
    ensures Contents(PushStep(s).0) == Contents(s)
  {
    var s' := PushStep(s).0;
    var b := s.owner.b;
    forall i | s.top <= i < b ensures At(s', i) == At(s, i) {
      WriteKeeps(s, b, Holds(s.owner.x), i);
    }
    SameContents(s, s');
    forall k | 0 <= k < |s'.thieves| ensures ThiefInv(s', s'.thieves[k]) {
      assert ThiefInv(s, s.thieves[k]);
    }
  }

  lemma PushStoreKeeps(s: State)
    requires Inv(s) && s.owner.PushStoreBottom?
    ensures Inv(PushStep(s).0)
    ensures Effect(Contents(s), PushStep(s).1, Contents(PushStep(s).0))
  {
    var s' := PushStep(s).0;
    assert forall i :: At(s', i) == At(s, i);
    assert Contents(s') == Contents(s) + [Holds(s.owner.x)];
    forall k | 0 <= k < |s'.thieves| ensures ThiefInv(s', s'.thieves[k]) {
      assert ThiefInv(s, s.thieves[k]);
    }
  }

  lemma PushKeeps(s: State)
    requires Inv(s) && !Growing(s.owner) && !Popping(s.owner) && Clean(s, Owner(true))
    ensures Inv(PushStep(s).0)
    ensures Effect(Contents(s), PushStep(s).1, Contents(PushStep(s).0))
  {
    if s.owner.PushWrite? {
      PushWriteKeeps(s);
    } else if s.owner.PushStoreBottom? {
      PushStoreKeeps(s);
    } else {
      PushQuiet(s);
    }
  }

  // A step of the owner that writes nothing and leaves the logical bottom alone is seen by nobody.
  lemma OwnerMoved(s: State, o: OwnerPc)
    requires Inv(s) && Limit(s.(owner := o)) == Limit(s) && (Takes(o) ==> Takes(s.owner) && o.b == s.owner.b)
    ensures var s' := s.(owner := o);
            && Contents(s') == Contents(s) && (forall i :: At(s', i) == At(s, i))
            && (forall k :: 0 <= k < |s.thieves| ==> ThiefInv(s', s.thieves[k]))
  {
    var s' := s.(owner := o);
    SameContents(s, s');
    hide ThiefInv, Contents;
    forall k | 0 <= k < |s.thieves| ensures ThiefInv(s', s.thieves[k]) {
      assert ThiefInv(s, s.thieves[k]);
      Unseen(s, s', s.thieves[k]);
    }
  }

  // The steps of a push that only load.
  lemma PushQuiet(s: State)
    requires Inv(s) && !Growing(s.owner) && !Popping(s.owner) && !s.owner.PushWrite? && !s.owner.PushStoreBottom?
    ensures Inv(PushStep(s).0) && PushStep(s).1.Silent? && Contents(PushStep(s).0) == Contents(s)
  {
    hide At, Contents, ThiefInv;
    var s' := PushStep(s).0;
    assert s' == s.(owner := s'.owner);
    OwnerMoved(s, s'.owner);
  }

  // The pop that takes index b without a compare-and-swap removes the newest block.
  lemma PopReadKeeps(s: State)
    requires Inv(s) && s.owner.PopRead?
    ensures Inv(PopStep(s).0)
    ensures Effect(Contents(s), PopStep(s).1, Contents(PopStep(s).0))
  {
    var s' := PopStep(s).0;
    var b := s.owner.b;
    if s.owner.t == b {
      SameContents(s, s');
    } else {
      assert forall i :: At(s', i) == At(s, i);
      assert Contents(s') == Contents(s)[..|Contents(s)| - 1];
    }
    forall k | 0 <= k < |s'.thieves| ensures ThiefInv(s', s'.thieves[k]) {
      assert ThiefInv(s, s.thieves[k]);
    }
  }

  lemma PopCasKeeps(s: State)
    requires Inv(s) && s.owner.PopCas?
    ensures Inv(PopStep(s).0)
    ensures Effect(Contents(s), PopStep(s).1, Contents(PopStep(s).0))
  {
    var s' := PopStep(s).0;
    assert forall i :: At(s', i) == At(s, i);
    assert Contents(s') == [];
    forall k | 0 <= k < |s'.thieves| ensures ThiefInv(s', s'.thieves[k]) {
      assert ThiefInv(s, s.thieves[k]);
    }
  }

  lemma PopLoadTopKeeps(s: State)
    requires Inv(s) && s.owner.PopLoadTop?
    ensures Inv(PopStep(s).0)
    ensures Effect(Contents(s), PopStep(s).1, Contents(PopStep(s).0))
  {
    var s' := PopStep(s).0;
    SameContents(s, s');
    forall k | 0 <= k < |s'.thieves| ensures ThiefInv(s', s'.thieves[k]) {
      assert ThiefInv(s, s.thieves[k]);
    }
  }

  lemma PopKeeps(s: State)
    requires Inv(s) && Popping(s.owner)
    ensures Inv(PopStep(s).0)
    ensures Effect(Contents(s), PopStep(s).1, Contents(PopStep(s).0))
  {
    if s.owner.PopRead? {
      PopReadKeeps(s);
    } else if s.owner.PopCas? {
      PopCasKeeps(s);
    } else if s.owner.PopLoadTop? {
      PopLoadTopKeeps(s);
    } else {
      var s' := PopStep(s).0;
      SameContents(s, s');
      forall k | 0 <= k < |s'.thieves| ensures ThiefInv(s', s'.thieves[k]) {
        assert ThiefInv(s, s.thieves[k]);
      }
    }
  }

  // After top has moved on, no thief's compare-and-swap can succeed with an older top.
  lemma Outrun(s: State, s': State, th: ThiefPc)
    requires ThiefInv(s, th) && Shape(s)
    requires s'.top == s.top + 1 && s'.cur == s.cur && s'.bufs == s.bufs
    requires Takes(s'.owner) ==> Takes(s.owner) && s'.owner.b == s.owner.b
    ensures ThiefInv(s', th)
  {
  }

  // A steal whose compare-and-swap succeeds removes the oldest block: the slot it read earlier,
  // possibly from a buffer retired since, is still the one at index top.
  lemma StealCasKeeps(s: State, i: nat)
    requires Inv(s) && i < |s.thieves| && s.thieves[i].StealCas? && s.thieves[i].t == s.top
    ensures Inv(ThiefStep(s, i).0)
    ensures Effect(Contents(s), ThiefStep(s, i).1, Contents(ThiefStep(s, i).0))
  {
    var s' := ThiefStep(s, i).0;
    assert ThiefInv(s, s.thieves[i]);
    assert forall j :: At(s', j) == At(s, j);
    assert Contents(s') == Contents(s)[1..];
    forall k | 0 <= k < |s'.thieves| ensures ThiefInv(s', s'.thieves[k]) {
      if k != i {
        Outrun(s, s', s.thieves[k]);
      }
    }
  }

  lemma ThiefMoves(s: State, i: nat)
    requires Inv(s) && i < |s.thieves| && Clean(s, Thief(i))
    requires !(s.thieves[i].StealCas? && s.thieves[i].t == s.top)
    ensures ThiefInv(ThiefStep(s, i).0, ThiefStep(s, i).0.thieves[i])
  {
    assert ThiefInv(s, s.thieves[i]);
  }

  lemma OneThiefMoved(s: State, i: nat, th: ThiefPc)
    requires Inv(s) && i < |s.thieves| && ThiefInv(s.(thieves := s.thieves[i := th]), th)
    ensures Inv(s.(thieves := s.thieves[i := th]))
    ensures Contents(s.(thieves := s.thieves[i := th])) == Contents(s)
  {
    var s' := s.(thieves := s.thieves[i := th]);
    SameContents(s, s');
    assert Shape(s') && GrowInv(s') && PushInv(s') && PopInv(s');
    forall k | 0 <= k < |s'.thieves| ensures ThiefInv(s', s'.thieves[k]) {
      if k != i {
        Unseen(s, s', s.thieves[k]);
      }
    }
  }

  lemma ThiefTouchesItself(s: State, i: nat)
    requires i < |s.thieves| && !(s.thieves[i].StealCas? && s.thieves[i].t == s.top)
    ensures |ThiefStep(s, i).0.thieves| == |s.thieves|
    ensures ThiefStep(s, i).0 == s.(thieves := s.thieves[i := ThiefStep(s, i).0.thieves[i]])
    ensures ThiefStep(s, i).1.Silent? || ThiefStep(s, i).1.StealNone?
  {
  }

  lemma ThiefKeeps(s: State, i: nat)
    requires Inv(s) && i < |s.thieves| && Clean(s, Thief(i))
    ensures Inv(ThiefStep(s, i).0)
    ensures Effect(Contents(s), ThiefStep(s, i).1, Contents(ThiefStep(s, i).0))
  {
    if s.thieves[i].StealCas? && s.thieves[i].t == s.top {
      StealCasKeeps(s, i);
    } else {
      ThiefTouchesItself(s, i);
      ThiefMoves(s, i);
      OneThiefMoved(s, i, ThiefStep(s, i).0.thieves[i]);
    }
  }

  lemma StepRefines(s: State, c: Choice)
    requires Inv(s) && Clean(s, c)
    ensures Inv(Step(s, c).0)
    ensures Effect(Contents(s), Step(s, c).1, Contents(Step(s, c).0))
  {
    match c
    case Thief(i) => if i < |s.thieves| { ThiefKeeps(s, i); }
    case Owner(ok) =>
      if Growing(s.owner) {
        GrowKeeps(s, ok);
      } else if Popping(s.owner) {
        PopKeeps(s);
      } else {
        PushKeeps(s);
      }
    case _ => if s.owner.Idle? { CallKeeps(s, c); }
  }
}
