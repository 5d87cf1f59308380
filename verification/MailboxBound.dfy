/** The bound on the number of queued messages, although the capacity test of mailbox_push is apart
    from the enqueue and the counter may wrap below zero.
 */
module MailboxBound {
  import opened Mailbox

  function Waiting(ps: seq<ProducerPc>): nat {
    if ps == [] then 0 else (if ps[0].StoreNull? || ps[0].Exchange? then 1 else 0) + Waiting(ps[1..])
  }

  function Uncounted(ps: seq<ProducerPc>): nat {
    if ps == [] then 0 else (if ps[0].Link? || ps[0].Count? then 1 else 0) + Uncounted(ps[1..])
  }

  function Is(b: bool): nat { if b then 1 else 0 }

  lemma {:induction false} UpdateTallies(ps: seq<ProducerPc>, i: nat, p: ProducerPc)
    requires i < |ps|
    ensures Waiting(ps[i := p]) == Waiting(ps) - Is(ps[i].StoreNull? || ps[i].Exchange?) + Is(p.StoreNull? || p.Exchange?)
    ensures Uncounted(ps[i := p]) == Uncounted(ps) - Is(ps[i].Link? || ps[i].Count?) + Is(p.Link? || p.Count?)
    decreases |ps|
  {
    if i == 0 {
      assert ps[i := p][1..] == ps[1..];
    } else {
      UpdateTallies(ps[1..], i - 1, p);
      assert ps[i := p][1..] == ps[1..][i - 1 := p];
    }
  }

  lemma Tallies(ps: seq<ProducerPc>)
    ensures Waiting(ps) + Uncounted(ps) <= |ps|
  {
  }

  function Queued(s: State): nat { |Msgs(s.chain)| }

  // What the shared counter would be without wrapping around: a message is counted after it is
  // linked and uncounted after it is unlinked, so the value may be negative.
  function Net(s: State): int {
    Queued(s) - Uncounted(s.producers) + Is(s.consumer.TakeCount?)
  }

  ghost predicate Bounded(s: State) {
    && s.count == Net(s) % SizeLimit
    && Queued(s) + Waiting(s.producers) <= s.max + |s.producers| - 1
  }

  lemma WrapUp(n: int)
    ensures (n % SizeLimit + 1) % SizeLimit == (n + 1) % SizeLimit
    ensures (n % SizeLimit + SizeLimit - 1) % SizeLimit == (n - 1) % SizeLimit
  {
  }

  lemma BoundedProducer(s: State, i: nat)
    requires Inv(s) && Bounded(s) && i < |s.producers|
    ensures Bounded(ProducerStep(s, i).0)
  {
    var s' := ProducerStep(s, i).0;
    UpdateTallies(s.producers, i, s'.producers[i]);
    WrapUp(Net(s));
    if s.producers[i].Exchange? {
      MsgsAppend(s.chain, [Msg(s.producers[i].m)]);
      MsgsOne(Msg(s.producers[i].m));
    }
  }

  lemma SameTallies(s: State, s': State)
    requires Bounded(s) && s'.producers == s.producers && s'.max == s.max
    requires Queued(s') == Queued(s) && s'.count == s.count && s'.consumer.TakeCount? == s.consumer.TakeCount?
    ensures Bounded(s')
  {
    hide Queued, Waiting, Uncounted;
  }

  lemma BoundedHead(s: State)
    requires Bounded(s) && s.chain != [] && s.chain[0] == s.head && (s.consumer.SkipStub? || s.consumer.TakeHead?)
    requires s.consumer.SkipStub? ==> s.head == Stub
    requires s.consumer.TakeHead? ==> s.head != Stub
    ensures Bounded(ConsumerStep(s).0)
  {
    ChainSplit(s);
    var s' := ConsumerStep(s).0;
    if s.consumer.SkipStub? {
      SameTallies(s, s');
    } else {
      assert Queued(s') == Queued(s) - 1 && Net(s') == Net(s);
    }
  }

  lemma BoundedConsumer(s: State)
    requires Bounded(s) && Chained(s) && ConsumerInv(s)
    ensures Bounded(ConsumerStep(s).0)
  {
    match s.consumer
    case SkipStub(n) => BoundedHead(s);
    case TakeHead(h, n) => BoundedHead(s);
    case TakeCount(h) => WrapUp(Net(s));
    case StubExchange(h) =>
      MsgsAppend(s.chain, [Stub]);
      MsgsOne(Stub);
      SameTallies(s, ConsumerStep(s).0);
    case _ => SameTallies(s, ConsumerStep(s).0);
  }

  lemma BoundedStep(s: State, c: Choice)
    requires Inv(s) && Bounded(s) && 0 < s.max && s.max + |s.producers| < SizeLimit
    ensures var s' := Step(s, c).0; Bounded(s') && s'.max == s.max && |s'.producers| == |s.producers|
  {
    hide Bounded, Inv;
    assert Chained(s) && ConsumerInv(s) by { InvParts(s); }
    SameSize(s, c);
    match c
    case CallPush(i, m) =>
      if i < |s.producers| && s.producers[i].Resting? && Free(s, m) { BoundedCall(s, i, m); }
    case Producer(i) => if i < |s.producers| { BoundedProducer(s, i); }
    case Consumer => BoundedConsumer(s);
    case CallPop => SameTallies(s, Step(s, c).0);
    case Scribble(_, _) => SameTallies(s, Step(s, c).0);
  }

  lemma InvParts(s: State)
    requires Inv(s)
    ensures Chained(s) && ConsumerInv(s)
  {
  }

  lemma SameSize(s: State, c: Choice)
    ensures var s' := Step(s, c).0; s'.max == s.max && |s'.producers| == |s.producers|
  {
    hide Free;
  }

  // A check that passes saw a counter below the limit; wrapped-around counters never pass it by
  // mistake.
  lemma BoundedCall(s: State, i: nat, m: nat)
    requires Bounded(s) && 0 < s.max && s.max + |s.producers| < SizeLimit
    requires i < |s.producers| && s.producers[i].Resting?
    ensures Bounded(PushCall(s, i, m).0)
  {
    var s' := PushCall(s, i, m).0;
    if s.count < s.max {
      UpdateTallies(s.producers, i, StoreNull(m));
      Tallies(s'.producers);
      Tallies(s.producers);
      assert Net(s) < SizeLimit;
      if Net(s) >= 0 {
        assert Net(s) < s.max;
      }
    }
  }

  lemma {:induction false} RunBounded(s: State, sched: seq<Choice>)
    requires Inv(s) && Bounded(s) && 0 < s.max && s.max + |s.producers| < SizeLimit
    ensures var s' := Exec(s, sched);
            Bounded(s') && s'.max == s.max && |s'.producers| == |s.producers|
    decreases |sched|
  {
    if sched != [] {
      var s1 := Step(s, sched[0]).0;
      StepKeeps(s, sched[0]);
      BoundedStep(s, sched[0]);
      RunBounded(s1, sched[1..]);
    }
  }

  // With P producers and a limit, at most limit + P - 1 messages are ever queued, although the
  // check and the enqueue are separate steps and the counter lags behind the queue.
  lemma QueueBound(producers: nat, max: nat, sched: seq<Choice>)
    requires 0 < max && max + producers < SizeLimit && 0 < producers
    ensures |Msgs(Exec(Init(producers, max), sched).chain)| <= max + producers - 1
  {
    var s0 := Init(producers, max);
    InitInv(producers, max);
    InitTallies(producers);
    MsgsOne(Stub);
    RunBounded(s0, sched);
  }

  lemma {:induction false} InitTallies(n: nat)
    ensures Waiting(seq(n, _ => Resting)) == 0 && Uncounted(seq(n, _ => Resting)) == 0
    decreases n
  {
    if n > 0 {
      InitTallies(n - 1);
      assert seq(n, _ => Resting)[1..] == seq(n - 1, _ => Resting);
    }
  }

  // --- Which pushes are accepted ---

  lemma {:induction false} AllResting(ps: seq<ProducerPc>)
    requires forall j :: 0 <= j < |ps| ==> ps[j].Resting?
    ensures Waiting(ps) == 0 && Uncounted(ps) == 0
    decreases |ps|
  {
    if ps != [] {
      AllResting(ps[1..]);
    }
  }

  lemma ReachedBounded(producers: nat, max: nat, sched: seq<Choice>)
    requires 0 < max && max + producers < SizeLimit && 0 < producers
    ensures var s := Exec(Init(producers, max), sched); Bounded(s) && s.max == max && |s.producers| == producers
  {
    InitInv(producers, max);
    InitTallies(producers);
    MsgsOne(Stub);
    RunBounded(Init(producers, max), sched);
  }

  lemma {:induction false} SameMax(s: State, sched: seq<Choice>)
    ensures var s' := Exec(s, sched); s'.max == s.max && |s'.producers| == |s.producers|
    decreases |sched|
  {
    if sched != [] {
      SameSize(s, sched[0]);
      SameMax(Step(s, sched[0]).0, sched[1..]);
    }
  }

  // In every reachable state: a push is rejected if and only if there is a limit and the messages queued,
  // without those whose producer has not counted them yet, and with the one the consumer has not uncounted
  // yet, reach it or are less than none.
  lemma RejectedIff(producers: nat, max: nat, sched: seq<Choice>, i: nat, m: nat)
    requires max + producers < SizeLimit
    requires var s := Exec(Init(producers, max), sched); i < |s.producers| && s.producers[i].Resting? && Free(s, m)
    ensures var s := Exec(Init(producers, max), sched);
            Step(s, CallPush(i, m)).1 == Rejected(m) <==> max > 0 && !(0 <= Net(s) < max)
  {
    var s := Exec(Init(producers, max), sched);
    SameMax(Init(producers, max), sched);
    if max > 0 {
      ReachedBounded(producers, max, sched);
      Tallies(s.producers);
      Reduced(Net(s), max, producers);
    }
  }

  lemma Reduced(n: int, max: nat, producers: nat)
    requires 0 < max && max + producers < SizeLimit && 0 <= n + producers && n <= max + producers
    ensures n % SizeLimit >= max <==> !(0 <= n < max)
  {
  }

  // While nothing is going on, the limit is one on the queue itself.
  lemma QuietRejectedIff(producers: nat, max: nat, sched: seq<Choice>, i: nat, m: nat)
    requires max + producers < SizeLimit
    requires var s := Exec(Init(producers, max), sched);
             && i < |s.producers| && Free(s, m) && s.consumer.Idle?
             && forall j :: 0 <= j < |s.producers| ==> s.producers[j].Resting?
    ensures var s := Exec(Init(producers, max), sched);
            Step(s, CallPush(i, m)).1 == Rejected(m) <==> max > 0 && |Pending(s)| >= max
  {
    var s := Exec(Init(producers, max), sched);
    RejectedIff(producers, max, sched, i, m);
    AllResting(s.producers);
    assert Pending(s) == Msgs(s.chain);
  }

  // While a push is being carried out, only its own steps advance it.
  lemma OthersWait(s: State, c: Choice, i: nat)
    requires i < |s.producers| && !s.producers[i].Resting? && c != Producer(i)
    ensures i < |Step(s, c).0.producers| && Step(s, c).0.producers[i] == s.producers[i]
  {
    hide Free;
  }

  lemma {:induction false} OthersRun(s: State, sched: seq<Choice>, i: nat)
    requires i < |s.producers| && !s.producers[i].Resting? && Producer(i) !in sched
    ensures var s' := Exec(s, sched); i < |s'.producers| && s'.producers[i] == s.producers[i]
    decreases |sched|
  {
    if sched != [] {
      OthersWait(s, sched[0], i);
      OthersRun(Step(s, sched[0]).0, sched[1..], i);
    }
  }

  // A push that is not rejected enqueues its message with the producer's second step, whatever the others do
  // before and between.
  lemma AcceptedEnqueues(s: State, i: nat, m: nat, before: seq<Choice>, between: seq<Choice>)
    requires i < |s.producers| && s.producers[i].Resting? && Free(s, m) && Step(s, CallPush(i, m)).1 != Rejected(m)
    requires Producer(i) !in before && Producer(i) !in between
    ensures var s1 := Exec(Step(s, CallPush(i, m)).0, before);
            var s2 := Exec(Step(s1, Producer(i)).0, between);
            Step(s2, Producer(i)).1 == Enqueued(m, i)
  {
    hide Free;
    var s0 := Step(s, CallPush(i, m)).0;
    var s1 := Exec(s0, before);
    OthersRun(s0, before, i);
    var t := Step(s1, Producer(i)).0;
    OthersRun(t, between, i);
  }

  // --- A push that an empty mailbox rejects ---

  lemma {:induction false} PathExec(path: seq<State>, cs: seq<Choice>)
    requires |path| == |cs| + 1 && forall i :: 0 <= i < |cs| ==> Step(path[i], cs[i]).0 == path[i + 1]
    ensures Exec(path[0], cs) == path[|cs|]
    decreases |cs|
  {
    if cs != [] {
      PathExec(path[1..], cs[1..]);
    }
  }

  lemma {:induction false} ExecBoth(s: State, a: seq<Choice>, b: seq<Choice>)
    ensures Exec(s, a + b) == Exec(Exec(s, a), b)
    decreases |a|
  {
    hide Step;
    if a == [] {
      assert a + b == b;
    } else {
      ExecBoth(Step(s, a[0]).0, a[1..], b);
      assert (a + b)[1..] == a[1..] + b;
    }
  }

  // Two producers, of which the second rests.
  function Two(max: nat, next: map<Node, Node>, head: Node, tail: Node, count: nat, p: ProducerPc, c: ConsumerPc, chain: seq<Node>): State {
    State(next, head, tail, count, max, [p, Resting], c, chain)
  }

  // A message is linked, but not yet counted.
  lemma PushUncounted(max: nat)
    requires max > 0
    ensures Exec(Init(2, max), [CallPush(0, 7), Producer(0), Producer(0), Producer(0)]) ==
            Two(max, map[Stub := Msg(7)], Stub, Msg(7), 0, Count, Idle, [Stub, Msg(7)])
  {
    var s0 := Two(max, map[], Stub, Stub, 0, Resting, Idle, [Stub]);
    assert Init(2, max).producers == s0.producers;
    PathExec([s0, s0.(producers := [StoreNull(7), Resting]), s0.(producers := [Exchange(7), Resting]),
              Two(max, map[], Stub, Msg(7), 0, Link(7, Stub), Idle, [Stub, Msg(7)]),
              Two(max, map[Stub := Msg(7)], Stub, Msg(7), 0, Count, Idle, [Stub, Msg(7)])],
             [CallPush(0, 7), Producer(0), Producer(0), Producer(0)]);
  }

  // The consumer puts the stub behind it,
  lemma PopReinserts(max: nat)
    ensures Exec(Two(max, map[Stub := Msg(7)], Stub, Msg(7), 0, Count, Idle, [Stub, Msg(7)]),
                 [CallPop, Consumer, Consumer, Consumer, Consumer, Consumer]) ==
            Two(max, map[], Msg(7), Msg(7), 0, Count, StubExchange(Msg(7)), [Msg(7)])
  {
    var s := Two(max, map[Stub := Msg(7)], Stub, Msg(7), 0, Count, Idle, [Stub, Msg(7)]);
    var h := s.(head := Msg(7), chain := [Msg(7)]);
    assert DropFirst(s.chain) == [Msg(7)];
    PathExec([s, s.(consumer := LoadNext(Stub)), s.(consumer := SkipStub(Msg(7))), h.(consumer := LoadNextAgain(Msg(7))),
              h.(consumer := LoadTail(Msg(7))), h.(consumer := StubNull(Msg(7))),
              h.(next := map[], consumer := StubExchange(Msg(7)))],
             [CallPop, Consumer, Consumer, Consumer, Consumer, Consumer]);
  }

  // and takes it.
  lemma PopUncounts(max: nat)
    ensures Exec(Two(max, map[], Msg(7), Msg(7), 0, Count, StubExchange(Msg(7)), [Msg(7)]),
                 [Consumer, Consumer, Consumer, Consumer, Consumer, Consumer]) ==
            Two(max, map[], Stub, Stub, SizeLimit - 1, Count, Idle, [Stub])
  {
    var m := Msg(7);
    var s := Two(max, map[], m, m, 0, Count, StubExchange(m), [m]);
    var t := Two(max, map[m := Stub], m, Stub, 0, Count, Reload(m), [m, Stub]);
    var u := Two(max, map[m := Stub], Stub, Stub, 0, Count, TakeCount(m), [Stub]);
    assert DropFirst([m, Stub]) == [Stub];
    PathExec([s, t.(next := map[], consumer := StubLink(m, m)), t, t.(consumer := TakeHead(m, Stub)), u,
              u.(count := SizeLimit - 1, consumer := TakeNull(m)), u.(count := SizeLimit - 1, next := map[], consumer := Idle)],
             [Consumer, Consumer, Consumer, Consumer, Consumer, Consumer]);
  }

  // So the counter is below zero, which is a very large number, and another producer's push is rejected
  // although nothing is queued.
  lemma EmptyRejects(max: nat) returns (sched: seq<Choice>)
    requires 0 < max < SizeLimit
    ensures var s := Exec(Init(2, max), sched);
            && s == Two(max, map[], Stub, Stub, SizeLimit - 1, Count, Idle, [Stub]) && Pending(s) == []
            && Free(s, 8) && Step(s, CallPush(1, 8)).1 == Rejected(8)
  {
    var a := [CallPush(0, 7), Producer(0), Producer(0), Producer(0)];
    var b := [CallPop, Consumer, Consumer, Consumer, Consumer, Consumer];
    var c := [Consumer, Consumer, Consumer, Consumer, Consumer, Consumer];
    sched := a + b + c;
    PushUncounted(max);
    PopReinserts(max);
    PopUncounts(max);
    ExecBoth(Init(2, max), a + b, c);
    ExecBoth(Init(2, max), a, b);
    MsgsOne(Stub);
  }
}
