/** What every run of the deque guarantees: it is a run of the abstract queue, no block is returned
    twice, none is lost, and every slot access stays inside its buffer.
 */
module DequeRuns {
  import opened Deque

  // The events of a run, in order, are a run of the abstract queue from q to q'.
  ghost predicate Linearizes(q: seq<Slot>, es: seq<Event>, q': seq<Slot>)
    decreases |es|
  {
    if es == [] then q' == q
    else exists m :: Effect(q, es[0], m) && Linearizes(m, es[1..], q')
  }

  lemma {:induction false} RunLinearizes(s: State, sched: seq<Choice>)
    requires Inv(s) && CleanRun(s, sched)
    ensures Inv(Exec(s, sched))
    ensures Linearizes(Contents(s), Trace(s, sched), Contents(Exec(s, sched)))
    decreases |sched|
  {
    if sched != [] {
      var s1 := Step(s, sched[0]).0;
      StepRefines(s, sched[0]);
      RunLinearizes(s1, sched[1..]);
      assert Trace(s, sched)[1..] == Trace(s1, sched[1..]);
    }
  }

  function PushedIn(es: seq<Event>): multiset<Slot> {
    if es == [] then multiset{}
    else (if es[0].Pushed? then multiset{Holds(es[0].x)} else multiset{}) + PushedIn(es[1..])
  }

  function ReturnedIn(es: seq<Event>): multiset<Slot> {
    if es == [] then multiset{}
    else (if es[0].Popped? || es[0].Stole? then multiset{es[0].v} else multiset{}) + ReturnedIn(es[1..])
  }

  lemma EffectConserves(q: seq<Slot>, e: Event, q': seq<Slot>)
    requires Effect(q, e, q')
    ensures multiset(q) + PushedIn([e]) == ReturnedIn([e]) + multiset(q')
  {
    if e.Popped? {
      assert q == q' + [e.v];
    } else if e.Stole? {
      assert q == [e.v] + q';
    }
  }

  lemma Balance(q: multiset<Slot>, m: multiset<Slot>, q': multiset<Slot>,
                p: multiset<Slot>, r: multiset<Slot>, ps: multiset<Slot>, rs: multiset<Slot>)
    requires q + p == r + m && m + ps == rs + q'
    ensures q + (p + ps) == (r + rs) + q'
  {
    forall v: Slot ensures (q + (p + ps))[v] == ((r + rs) + q')[v] {
      assert (q + p)[v] == (r + m)[v] && (m + ps)[v] == (rs + q')[v];
    }
  }

  lemma {:induction false} Conserves(q: seq<Slot>, es: seq<Event>, q': seq<Slot>)
    requires Linearizes(q, es, q')
    ensures multiset(q) + PushedIn(es) == ReturnedIn(es) + multiset(q')
    decreases |es|
  {
    if es != [] {
      var m :| Effect(q, es[0], m) && Linearizes(m, es[1..], q');
      EffectConserves(q, es[0], m);
      Conserves(m, es[1..], q');
      Balance(multiset(q), multiset(m), multiset(q'), PushedIn([es[0]]), ReturnedIn([es[0]]), PushedIn(es[1..]), ReturnedIn(es[1..]));
    }
  }

  lemma NoGarbagePushed(es: seq<Event>)
    ensures Garbage !in PushedIn(es)
  {
  }

  // In every clean interleaving the blocks pushed are the blocks returned plus the blocks still
  // queued, so no block is returned more often than it was pushed.
  lemma ExactlyOnce(capacity: nat, thieves: nat, sched: seq<Choice>)
    requires capacity >= 1 && CleanRun(Init(capacity, thieves), sched)
    ensures var s0 := Init(capacity, thieves);
            var es, q := Trace(s0, sched), Contents(Exec(s0, sched));
            && Linearizes([], es, q)
            && PushedIn(es) == ReturnedIn(es) + multiset(q)
            && ReturnedIn(es) <= PushedIn(es)
            && Garbage !in ReturnedIn(es)
  {
    var s0 := Init(capacity, thieves);
    InitInv(capacity, thieves);
    RunLinearizes(s0, sched);
    NothingLost(Trace(s0, sched), Contents(Exec(s0, sched)));
  }

  lemma NothingLost(es: seq<Event>, q: seq<Slot>)
    requires Linearizes([], es, q)
    ensures PushedIn(es) == ReturnedIn(es) + multiset(q)
    ensures ReturnedIn(es) <= PushedIn(es) && Garbage !in ReturnedIn(es)
  {
    Conserves([], es, q);
    NoGarbagePushed(es);
    assert multiset([]) + PushedIn(es) == PushedIn(es);
    assert PushedIn(es)[Garbage] >= ReturnedIn(es)[Garbage];
  }

  // When the owner is idle, the blocks queued are those at indices top..bottom of the buffer.
  lemma Quiescent(s: State)
    requires Inv(s) && s.owner.Idle?
    ensures s.top <= s.bottom && |Contents(s)| == s.bottom - s.top
    ensures forall i :: s.top <= i < s.bottom ==>
              s.bufs[s.cur][i % |s.bufs[s.cur]|].Holds? && Contents(s)[i - s.top] == s.bufs[s.cur][i % |s.bufs[s.cur]|]
  {
    forall i | s.top <= i < s.bottom
      ensures s.bufs[s.cur][i % |s.bufs[s.cur]|].Holds? && Contents(s)[i - s.top] == s.bufs[s.cur][i % |s.bufs[s.cur]|]
    {
      assert At(s, i).Holds?;
    }
  }

  // No access to a buffer is out of bounds, even one that pairs an old capacity with a new buffer.
  lemma BoundsSafe(s: State)
    requires Inv(s)
    ensures s.owner.PushWrite? ==> s.owner.c > 0 && InBounds(s, s.owner.bf, s.owner.b % s.owner.c)
    ensures s.owner.PopRead? ==> s.owner.c > 0 && InBounds(s, s.owner.bf, s.owner.b % s.owner.c)
    ensures s.owner.GrowCopy? ==>
              s.owner.oc > 0 && InBounds(s, s.owner.ob, s.owner.i % s.owner.oc)
              && InBounds(s, s.owner.nb, s.owner.i % (2 * s.owner.oc))
    ensures forall k :: 0 <= k < |s.thieves| && s.thieves[k].StealRead? ==>
              s.thieves[k].c > 0 && InBounds(s, s.thieves[k].bf, s.thieves[k].t % s.thieves[k].c)
  {
    forall k | 0 <= k < |s.thieves| && s.thieves[k].StealRead?
      ensures s.thieves[k].c > 0 && InBounds(s, s.thieves[k].bf, s.thieves[k].t % s.thieves[k].c)
    {
      assert ThiefInv(s, s.thieves[k]);
    }
  }

  // A steal gives up at its emptiness test only when the queue is empty, or when its one block is
  // already being popped.
  lemma StealGivesUp(s: State, i: nat)
    requires Inv(s) && i < |s.thieves| && s.thieves[i].StealLoadBottom? && ThiefStep(s, i).1.StealNone?
    ensures Contents(s) == [] || (|Contents(s)| == 1 && Popping(s.owner))
  {
    assert ThiefInv(s, s.thieves[i]);
  }

  // --- Allocation never fails: the only hazard left is the thief's torn read ---

  ghost predicate Roomy(s: State) {
    match s.owner
    case PushLoadCap(x, b, t) => t <= b
    case GrowCopy(x, b, oc, ob, nb, t, i, e) => b - t < 2 * oc
    case GrowStoreBuf(x, b, oc, nb) => b - s.top < 2 * oc
    case GrowStoreCap(x, b, nc) => b - s.top < nc
    case PushReloadCap(x, b) => b - s.top < s.cap
    case PushLoadBuf(x, b, c) => b - s.top < c
    case PushWrite(x, b, c, bf) => b - s.top < c
    case _ => true
  }

  lemma RoomyKeeps(s: State, c: Choice)
    requires Inv(s) && Roomy(s) && c != Owner(false)
    ensures Roomy(Step(s, c).0)
  {
    hide At, ThiefInv;
    if c.Thief? {
      RoomyThief(s, c.i);
    } else {
      assert Shape(s) && GrowInv(s) && PushInv(s);
    }
  }

  // A thief only moves top on.
  lemma RoomyThief(s: State, i: nat)
    requires Inv(s) && Roomy(s)
    ensures Roomy(Step(s, Thief(i)).0)
  {
    hide At;
    var s' := Step(s, Thief(i)).0;
    if i < |s.thieves| {
      assert ThiefInv(s, s.thieves[i]);
      assert s'.owner == s.owner && s'.cap == s.cap && s'.top >= s.top;
    }
  }

  // Every thief reads its slot with a capacity that names the same slot of the buffer it holds.
  predicate AlignedRun(s: State, sched: seq<Choice>)
    decreases |sched|
  {
    sched == [] || ((sched[0].Thief? ==> Clean(s, sched[0])) && AlignedRun(Step(s, sched[0]).0, sched[1..]))
  }

  lemma {:induction false} AllocationSucceeds(s: State, sched: seq<Choice>)
    requires Inv(s) && Roomy(s) && AlignedRun(s, sched) && Owner(false) !in sched
    ensures CleanRun(s, sched)
    decreases |sched|
  {
    if sched != [] {
      assert sched[0] in sched;
      assert Clean(s, sched[0]);
      StepRefines(s, sched[0]);
      RoomyKeeps(s, sched[0]);
      assert forall c :: c in sched[1..] ==> c in sched;
      AllocationSucceeds(Step(s, sched[0]).0, sched[1..]);
    }
  }
}
