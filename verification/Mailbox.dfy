/** The mailbox of src/runtime/mailbox.c: a linked multi-producer single-consumer queue with a
    stub node that the consumer re-inserts, as a step machine.

    Any number of producers run mailbox_push and one consumer runs mailbox_pop; every atomic load,
    store, exchange and fetch-add is one step and a run is an arbitrary interleaving. The field
    `chain` is auxiliary: the nodes from head to tail in the order of the tail exchanges, whether
    or not their links have been stored yet. No step reads it to decide anything.
 */
module Mailbox {

  datatype Node = Stub | Msg(id: nat)

  datatype Option<T> = None | Some(value: T)

  datatype ProducerPc =
    | Resting
    | StoreNull(m: nat)
    | Exchange(m: nat)
    | Link(m: nat, prev: Node)
    | Count

  datatype ConsumerPc =
    | Idle
    | LoadNext(h: Node)
    | SkipStub(n: Node)
    | LoadNextAgain(h: Node)
    | TakeHead(h: Node, n: Node)
    | TakeCount(h: Node)
    | TakeNull(h: Node)
    | LoadTail(h: Node)
    | Spin(h: Node, k: nat)
    | StubNull(h: Node)
    | StubExchange(h: Node)
    | StubLink(h: Node, prev: Node)
    | Reload(h: Node)

  // `next` has a key for every node whose next pointer is not NULL.
  datatype State = State(next: map<Node, Node>, head: Node, tail: Node, count: nat, max: nat,
                         producers: seq<ProducerPc>, consumer: ConsumerPc, chain: seq<Node>)

  datatype Choice =
    | CallPush(i: nat, m: nat)
    | Producer(i: nat)
    | CallPop
    | Consumer
    | Scribble(m: nat, to: Option<Node>)

  datatype Event = Silent | Enqueued(m: nat, sender: nat) | Rejected(m: nat) | Returned(n: Node) | PopNull

  const MaxSpins := 100
  const SizeLimit: nat := 0x1_0000_0000_0000_0000

  function Init(producers: nat, max: nat): State {
    State(map[], Stub, Stub, 0, max, seq(producers, _ => Resting), Idle, [Stub])
  }

  function Next(s: State, n: Node): Option<Node> {
    if n in s.next then Some(s.next[n]) else None
  }

  // The message a producer has been handed and not yet published with its link.
  predicate Holds(p: ProducerPc, m: nat) {
    (p.StoreNull? || p.Exchange? || p.Link?) && p.m == m
  }

  predicate InHand(c: ConsumerPc, n: Node) {
    (c.TakeCount? || c.TakeNull?) && c.h == n
  }

  // A message the mailbox knows nothing about: the caller may push it, change it or free it.
  predicate Free(s: State, m: nat) {
    && Msg(m) !in s.chain
    && !InHand(s.consumer, Msg(m))
    && (forall j :: 0 <= j < |s.producers| ==> !Holds(s.producers[j], m))
  }

  // The call of mailbox_push, up to and including the load of `count`.
  function PushCall(s: State, i: nat, m: nat): (State, Event)
    requires i < |s.producers|
  {
    if s.max > 0 && s.count >= s.max then (s, Rejected(m))
    else (s.(producers := s.producers[i := StoreNull(m)]), Silent)
  }

  function ProducerStep(s: State, i: nat): (State, Event)
    requires i < |s.producers|
  {
    match s.producers[i]
    case Resting => (s, Silent)
    case StoreNull(m) => (s.(next := s.next - {Msg(m)}, producers := s.producers[i := Exchange(m)]), Silent)
    case Exchange(m) =>
      (s.(tail := Msg(m), producers := s.producers[i := Link(m, s.tail)], chain := s.chain + [Msg(m)]), Enqueued(m, i))
    case Link(m, prev) => (s.(next := s.next[prev := Msg(m)], producers := s.producers[i := Count]), Silent)
    case Count => (s.(count := (s.count + 1) % SizeLimit, producers := s.producers[i := Resting]), Silent)
  }

  function DropFirst(c: seq<Node>): seq<Node> {
    if c == [] then [] else c[1..]
  }

  // After a load of h->next that is not followed by the stub test: take h, or look at the tail.
  function GotNext(s: State, h: Node): State {
    s.(consumer := match Next(s, h) case Some(n) => TakeHead(h, n) case None => LoadTail(h))
  }

  function ConsumerStep(s: State): (State, Event) {
    match s.consumer
    case Idle => (s, Silent)
    case LoadNext(h) =>
      if h == Stub then
        match Next(s, h)
        case None => (s.(consumer := Idle), PopNull)
        case Some(n) => (s.(consumer := SkipStub(n)), Silent)
      else (GotNext(s, h), Silent)
    case SkipStub(n) => (s.(head := n, chain := DropFirst(s.chain), consumer := LoadNextAgain(n)), Silent)
    case LoadNextAgain(h) => (GotNext(s, h), Silent)
    case TakeHead(h, n) => (s.(head := n, chain := DropFirst(s.chain), consumer := TakeCount(h)), Silent)
    case TakeCount(h) => (s.(count := (s.count + SizeLimit - 1) % SizeLimit, consumer := TakeNull(h)), Silent)
    case TakeNull(h) => (s.(next := s.next - {h}, consumer := Idle), Returned(h))
    case LoadTail(h) => (s.(consumer := if s.tail != h then Spin(h, 0) else StubNull(h)), Silent)
    case Spin(h, k) => (
      match Next(s, h)
      case Some(n) => (s.(consumer := TakeHead(h, n)), Silent)
      case None =>
        if k + 1 < MaxSpins then (s.(consumer := Spin(h, k + 1)), Silent) else (s.(consumer := Idle), PopNull)
    )
    case StubNull(h) => (s.(next := s.next - {Stub}, consumer := StubExchange(h)), Silent)
    case StubExchange(h) => (s.(tail := Stub, chain := s.chain + [Stub], consumer := StubLink(h, s.tail)), Silent)
    case StubLink(h, prev) => (s.(next := s.next[prev := Stub], consumer := Reload(h)), Silent)
    case Reload(h) =>
      match Next(s, h)
      case Some(n) => (s.(consumer := TakeHead(h, n)), Silent)
      case None => (s.(consumer := Idle), PopNull)
  }

  // A choice that is not enabled leaves the state as it is.
  function Step(s: State, c: Choice): (State, Event) {
    match c
    case CallPush(i, m) =>
      if i < |s.producers| && s.producers[i].Resting? && Free(s, m) then PushCall(s, i, m) else (s, Silent)
    case Producer(i) => if i < |s.producers| then ProducerStep(s, i) else (s, Silent)
    case CallPop => (if s.consumer.Idle? then s.(consumer := LoadNext(s.head)) else s, Silent)
    case Consumer => ConsumerStep(s)
    case Scribble(m, to) =>
      (if !Free(s, m) then s
       else if to.Some? then s.(next := s.next[Msg(m) := to.value])
       else s.(next := s.next - {Msg(m)}), Silent)
  }

  function Exec(s: State, sched: seq<Choice>): State
    decreases |sched|
  {
    if sched == [] then s else Exec(Step(s, sched[0]).0, sched[1..])
  }

  function Trace(s: State, sched: seq<Choice>): seq<Event>
    decreases |sched|
  {
    if sched == [] then [] else [Step(s, sched[0]).1] + Trace(Step(s, sched[0]).0, sched[1..])
  }

  // --- The queue the mailbox stands for ---

  function Msgs(c: seq<Node>): seq<Node> {
    if c == [] then [] else (if c[0] == Stub then [] else [c[0]]) + Msgs(c[1..])
  }

  // Messages enqueued and not yet returned, oldest first.
  function Pending(s: State): seq<Node> {
    (if s.consumer.TakeCount? || s.consumer.TakeNull? then [s.consumer.h] else []) + Msgs(s.chain)
  }

  // Some producer is between its exchange of the tail and the store of its link.
  predicate Linking(s: State) {
    exists j :: 0 <= j < |s.producers| && s.producers[j].Link?
  }

  predicate Effect(s: State, e: Event, s': State) {
    match e
    case Silent => Pending(s') == Pending(s)
    case Enqueued(m, _) => Pending(s') == Pending(s) + [Msg(m)]
    case Rejected(m) => Pending(s') == Pending(s)
    case Returned(n) => n != Stub && Pending(s) == [n] + Pending(s')
    case PopNull => Pending(s') == Pending(s) && (Pending(s) == [] || Linking(s))
  }

  // --- The invariant ---

  ghost predicate DistinctNodes(c: seq<Node>) {
    forall i, j :: 0 <= i < j < |c| ==> c[i] != c[j]
  }

  // Somebody is about to store the link from a to b.
  ghost predicate Linker(s: State, a: Node, b: Node) {
    || (exists j :: 0 <= j < |s.producers| && b.Msg? && s.producers[j] == Link(b.id, a))
    || (s.consumer.StubLink? && s.consumer.prev == a && b == Stub)
  }

  ghost predicate Follows(c: seq<Node>, a: Node, b: Node) {
    exists i :: 0 <= i < |c| - 1 && c[i] == a && c[i + 1] == b
  }

  ghost predicate Chained(s: State) {
    && s.chain != [] && DistinctNodes(s.chain)
    && s.chain[0] == s.head && s.chain[|s.chain| - 1] == s.tail
    && s.tail !in s.next
    && (forall i :: 0 <= i < |s.chain| - 1 ==>
          Next(s, s.chain[i]) == Some(s.chain[i + 1])
          || (s.chain[i] !in s.next && Linker(s, s.chain[i], s.chain[i + 1])))
  }

  ghost predicate ProducerInv(s: State, p: ProducerPc) {
    match p
    case StoreNull(m) => Msg(m) !in s.chain && !InHand(s.consumer, Msg(m))
    case Exchange(m) => Msg(m) !in s.chain && !InHand(s.consumer, Msg(m)) && Msg(m) !in s.next
    case Link(m, prev) => Follows(s.chain, prev, Msg(m)) && prev !in s.next
    case _ => true
  }

  // No message is in the hands of two producers.
  ghost predicate Separate(ps: seq<ProducerPc>) {
    forall j, k, m :: 0 <= j < k < |ps| && Holds(ps[j], m) ==> !Holds(ps[k], m)
  }

  ghost predicate ConsumerInv(s: State) {
    match s.consumer
    case Idle => true
    case LoadNext(h) => h == s.head
    case SkipStub(n) => s.head == Stub && Next(s, Stub) == Some(n)
    case LoadNextAgain(h) => h == s.head && h != Stub
    case TakeHead(h, n) => h == s.head && h != Stub && Next(s, h) == Some(n)
    case TakeCount(h) => h != Stub && h !in s.chain
    case TakeNull(h) => h != Stub && h !in s.chain
    case LoadTail(h) => h == s.head && h != Stub
    case Spin(h, k) => h == s.head && h != Stub && |s.chain| >= 2 && k < MaxSpins
    case StubNull(h) => h == s.head && h != Stub && Stub !in s.chain
    case StubExchange(h) => h == s.head && h != Stub && Stub !in s.chain && Stub !in s.next
    case StubLink(h, prev) => h == s.head && h != Stub && Follows(s.chain, prev, Stub) && prev !in s.next
    case Reload(h) => h == s.head && h != Stub && |s.chain| >= 2
  }

  ghost predicate Inv(s: State) {
    && Chained(s) && ConsumerInv(s) && Separate(s.producers)
    && (forall j :: 0 <= j < |s.producers| ==> ProducerInv(s, s.producers[j]))
  }

  lemma InitInv(producers: nat, max: nat)
    ensures Inv(Init(producers, max)) && Pending(Init(producers, max)) == []
  {
  }

  // --- Facts about chains ---

  lemma {:induction false} MsgsAppend(a: seq<Node>, b: seq<Node>)
    ensures Msgs(a + b) == Msgs(a) + Msgs(b)
    decreases |a|
  {
    if a == [] {
      assert a + b == b;
    } else {
      var front := if a[0] == Stub then [] else [a[0]];
      assert (a + b)[0] == a[0] && (a + b)[1..] == a[1..] + b;
      MsgsAppend(a[1..], b);
      assert Msgs(a + b) == front + (Msgs(a[1..]) + Msgs(b)) == (front + Msgs(a[1..])) + Msgs(b);
    }
  }

  lemma MsgsOne(n: Node)
    ensures Msgs([n]) == if n == Stub then [] else [n]
  {
    assert [n][1..] == [];
  }

  lemma FollowsUnique(c: seq<Node>, a: Node, b: Node, a': Node, b': Node)
    requires DistinctNodes(c) && Follows(c, a, b) && Follows(c, a', b')
    ensures a == a' <==> b == b'
    ensures a in c && b in c && (c[|c| - 1] != a)
  {
  }

  lemma FollowsAppend(c: seq<Node>, n: Node, a: Node, b: Node)
    requires Follows(c, a, b)
    ensures Follows(c + [n], a, b)
  {
    var i :| 0 <= i < |c| - 1 && c[i] == a && c[i + 1] == b;
    assert (c + [n])[i] == a && (c + [n])[i + 1] == b;
  }

  lemma FollowsLast(c: seq<Node>, n: Node)
    requires c != []
    ensures Follows(c + [n], c[|c| - 1], n)
  {
    var i := |c| - 1;
    assert (c + [n])[i] == c[i] && (c + [n])[i + 1] == n;
  }

  lemma FollowsDrop(c: seq<Node>, a: Node, b: Node)
    requires Follows(c, a, b) && a != c[0]
    ensures Follows(c[1..], a, b)
  {
    var i :| 0 <= i < |c| - 1 && c[i] == a && c[i + 1] == b;
    assert c[1..][i - 1] == a && c[1..][i] == b;
  }

  // --- Producer steps ---

  lemma CallKeeps(s: State, i: nat, m: nat)
    requires Inv(s) && i < |s.producers| && s.producers[i].Resting? && Free(s, m)
    ensures Inv(PushCall(s, i, m).0) && Effect(s, PushCall(s, i, m).1, PushCall(s, i, m).0)
  {
    var s' := PushCall(s, i, m).0;
    LinkersKeep(s, s', i);
    forall j | 0 <= j < |s'.producers| ensures ProducerInv(s', s'.producers[j]) {
      assert ProducerInv(s, s.producers[j]);
    }
  }

  // Changing a producer that is not about to link, or the consumer likewise, keeps every linker.
  lemma LinkersKeep(s: State, s': State, i: nat)
    requires |s'.producers| == |s.producers|
    requires forall j :: 0 <= j < |s.producers| && j != i ==> s'.producers[j] == s.producers[j]
    requires i < |s.producers| ==> !s.producers[i].Link?
    requires s.consumer.StubLink? ==> s'.consumer == s.consumer
    ensures forall a, b :: Linker(s, a, b) ==> Linker(s', a, b)
  {
    forall a, b | Linker(s, a, b) ensures Linker(s', a, b) {
      if j :| 0 <= j < |s.producers| && b.Msg? && s.producers[j] == Link(b.id, a) {
        assert s'.producers[j] == Link(b.id, a);
      }
    }
  }

  lemma StoreNullKeeps(s: State, i: nat)
    requires Inv(s) && i < |s.producers| && s.producers[i].StoreNull?
    ensures Inv(ProducerStep(s, i).0)
  {
    var s' := ProducerStep(s, i).0;
    LinkersKeep(s, s', i);
    assert ProducerInv(s, s.producers[i]);
    forall j | 0 <= j < |s'.producers| ensures ProducerInv(s', s'.producers[j]) {
      assert ProducerInv(s, s.producers[j]);
    }
  }

  lemma ExchangeKeeps(s: State, i: nat)
    requires Inv(s) && i < |s.producers| && s.producers[i].Exchange?
    ensures Inv(ProducerStep(s, i).0)
  {
    var s' := ProducerStep(s, i).0;
    var n := Msg(s.producers[i].m);
    LinkersKeep(s, s', i);
    assert ProducerInv(s, s.producers[i]);
    FollowsLast(s.chain, n);
    assert Linker(s', s.tail, n) by {
      assert s'.producers[i] == Link(n.id, s.tail);
    }
    forall j | 0 <= j < |s'.producers| ensures ProducerInv(s', s'.producers[j]) {
      assert ProducerInv(s, s.producers[j]);
      assert Holds(s.producers[i], n.id) && (j != i ==> !Holds(s.producers[j], n.id));
      if j != i && s.producers[j].Link? {
        FollowsAppend(s.chain, n, s.producers[j].prev, Msg(s.producers[j].m));
      }
    }
    if s.consumer.StubLink? {
      FollowsAppend(s.chain, n, s.consumer.prev, Stub);
    }
  }

  lemma LinkKeeps(s: State, i: nat)
    requires Inv(s) && i < |s.producers| && s.producers[i].Link?
    ensures Inv(ProducerStep(s, i).0)
  {
    var s' := ProducerStep(s, i).0;
    var n, prev := Msg(s.producers[i].m), s.producers[i].prev;
    assert ProducerInv(s, s.producers[i]);
    FollowsUnique(s.chain, prev, n, prev, n);
    forall j | 0 <= j < |s'.producers| ensures ProducerInv(s', s'.producers[j]) {
      assert ProducerInv(s, s.producers[j]);
      if j != i && s.producers[j].Link? {
        assert Holds(s.producers[i], n.id);
        assert Holds(s.producers[j], s.producers[j].m);
        FollowsUnique(s.chain, prev, n, s.producers[j].prev, Msg(s.producers[j].m));
      }
    }
    if s.consumer.StubLink? {
      FollowsUnique(s.chain, prev, n, s.consumer.prev, Stub);
    }
    LinkedChain(s, i);
  }

  lemma LinkedChain(s: State, i: nat)
    requires Inv(s) && i < |s.producers| && s.producers[i].Link?
    ensures Chained(ProducerStep(s, i).0)
  {
    var s' := ProducerStep(s, i).0;
    var n, prev := Msg(s.producers[i].m), s.producers[i].prev;
    assert ProducerInv(s, s.producers[i]);
    FollowsUnique(s.chain, prev, n, prev, n);
    forall k | 0 <= k < |s.chain| - 1
      ensures Next(s', s.chain[k]) == Some(s.chain[k + 1])
              || (s.chain[k] !in s'.next && Linker(s', s.chain[k], s.chain[k + 1]))
    {
      assert Follows(s.chain, s.chain[k], s.chain[k + 1]);
      FollowsUnique(s.chain, prev, n, s.chain[k], s.chain[k + 1]);
      if s.chain[k] != prev && s.chain[k] !in s.next {
        var a, b := s.chain[k], s.chain[k + 1];
        assert Linker(s, a, b);
        if j :| 0 <= j < |s.producers| && b.Msg? && s.producers[j] == Link(b.id, a) {
          assert s'.producers[j] == Link(b.id, a);
        }
      }
    }
  }

  // The message is counted late; nobody else sees the counter.
  lemma CountKeeps(s: State, i: nat)
    requires Inv(s) && i < |s.producers| && s.producers[i].Count?
    ensures Inv(ProducerStep(s, i).0) && Effect(s, ProducerStep(s, i).1, ProducerStep(s, i).0)
  {
    var s' := ProducerStep(s, i).0;
    LinkersKeep(s, s', i);
    forall j | 0 <= j < |s'.producers| ensures ProducerInv(s', s'.producers[j]) {
      assert ProducerInv(s, s.producers[j]);
    }
  }

  lemma ExchangeEffect(s: State, i: nat)
    requires Inv(s) && i < |s.producers| && s.producers[i].Exchange?
    ensures Inv(ProducerStep(s, i).0) && Effect(s, ProducerStep(s, i).1, ProducerStep(s, i).0)
  {
    hide Inv;
    ExchangeKeeps(s, i);
    MsgsAppend(s.chain, [Msg(s.producers[i].m)]);
    MsgsOne(Msg(s.producers[i].m));
  }

  lemma ProducerKeeps(s: State, i: nat)
    requires Inv(s) && i < |s.producers|
    ensures Inv(ProducerStep(s, i).0) && Effect(s, ProducerStep(s, i).1, ProducerStep(s, i).0)
  {
    hide Inv;
    match s.producers[i]
    case Resting =>
    case StoreNull(m) => StoreNullKeeps(s, i);
    case Exchange(m) => ExchangeEffect(s, i);
    case Link(m, prev) => LinkKeeps(s, i);
    case Count => CountKeeps(s, i);
  }

  // --- Consumer steps ---

  // The consumer moves on without touching the queue.
  lemma ConsumerMoves(s: State, c: ConsumerPc)
    requires Inv(s) && !s.consumer.StubLink? && ConsumerInv(s.(consumer := c))
    requires forall n :: InHand(c, n) ==> InHand(s.consumer, n)
    ensures Inv(s.(consumer := c))
  {
    var s' := s.(consumer := c);
    LinkersKeep(s, s', |s.producers|);
    forall j | 0 <= j < |s'.producers| ensures ProducerInv(s', s'.producers[j]) {
      assert ProducerInv(s, s.producers[j]);
    }
  }

  // A head whose next is set is followed in the chain by that next.
  lemma HeadNext(s: State)
    requires Inv(s) && s.head in s.next
    ensures |s.chain| >= 2 && s.next[s.head] == s.chain[1]
  {
  }

  // A head that has successors but no next pointer waits for a producer's link.
  lemma HeadWaits(s: State)
    requires Inv(s) && s.head !in s.next && |s.chain| >= 2 && !s.consumer.StubLink?
    ensures Linking(s)
  {
    assert Linker(s, s.chain[0], s.chain[1]);
  }

  // The head leaves the chain once its link is stored; no producer still points at it.
  lemma DropHead(s: State, c: ConsumerPc)
    requires Inv(s) && s.head in s.next && !s.consumer.StubLink? && !s.consumer.TakeCount? && !s.consumer.TakeNull?
    requires (c == TakeCount(s.head) && s.head != Stub) || (c == LoadNextAgain(s.next[s.head]) && s.next[s.head] != Stub)
    ensures Inv(s.(head := s.next[s.head], chain := DropFirst(s.chain), consumer := c))
  {
    HeadNext(s);
    var s' := s.(head := s.next[s.head], chain := DropFirst(s.chain), consumer := c);
    LinkersKeep(s, s', |s.producers|);
    forall k | 0 <= k < |s'.chain| - 1
      ensures Next(s', s'.chain[k]) == Some(s'.chain[k + 1])
              || (s'.chain[k] !in s'.next && Linker(s', s'.chain[k], s'.chain[k + 1]))
    {
      assert s'.chain[k] == s.chain[k + 1] && s'.chain[k + 1] == s.chain[k + 2];
    }
    forall j | 0 <= j < |s'.producers| ensures ProducerInv(s', s'.producers[j]) {
      assert ProducerInv(s, s.producers[j]);
      if s.producers[j].Link? {
        FollowsDrop(s.chain, s.producers[j].prev, Msg(s.producers[j].m));
      }
    }
  }

  lemma ChainSplit(s: State)
    requires s.chain != []
    ensures Msgs(s.chain) == (if s.chain[0] == Stub then [] else [s.chain[0]]) + Msgs(DropFirst(s.chain))
  {
  }

  lemma ForgetNext(s: State, n: Node, c: ConsumerPc)
    requires Inv(s) && n !in s.chain && !s.consumer.StubLink?
    requires (s.consumer.StubNull? && n == Stub && c == StubExchange(s.consumer.h)) || (s.consumer == TakeNull(n) && c == Idle)
    ensures Inv(s.(next := s.next - {n}, consumer := c))
  {
    var s' := s.(next := s.next - {n}, consumer := c);
    LinkersKeep(s, s', |s.producers|);
    forall j | 0 <= j < |s'.producers| ensures ProducerInv(s', s'.producers[j]) {
      assert ProducerInv(s, s.producers[j]);
    }
  }

  lemma StubExchangeKeeps(s: State)
    requires Inv(s) && s.consumer.StubExchange?
    ensures Inv(ConsumerStep(s).0)
  {
    var s' := ConsumerStep(s).0;
    LinkersKeep(s, s', |s.producers|);
    FollowsLast(s.chain, Stub);
    assert Linker(s', s.tail, Stub);
    forall j | 0 <= j < |s'.producers| ensures ProducerInv(s', s'.producers[j]) {
      assert ProducerInv(s, s.producers[j]);
      if s.producers[j].Link? {
        FollowsAppend(s.chain, Stub, s.producers[j].prev, Msg(s.producers[j].m));
      }
    }
  }

  lemma StubLinkKeeps(s: State)
    requires Inv(s) && s.consumer.StubLink?
    ensures Inv(ConsumerStep(s).0)
  {
    var s' := ConsumerStep(s).0;
    var prev := s.consumer.prev;
    FollowsUnique(s.chain, prev, Stub, prev, Stub);
    forall j | 0 <= j < |s'.producers| ensures ProducerInv(s', s'.producers[j]) {
      assert ProducerInv(s, s.producers[j]);
      if s.producers[j].Link? {
        FollowsUnique(s.chain, prev, Stub, s.producers[j].prev, Msg(s.producers[j].m));
      }
    }
    forall k | 0 <= k < |s.chain| - 1
      ensures Next(s', s.chain[k]) == Some(s.chain[k + 1])
              || (s.chain[k] !in s'.next && Linker(s', s.chain[k], s.chain[k + 1]))
    {
      assert Follows(s.chain, s.chain[k], s.chain[k + 1]);
      FollowsUnique(s.chain, prev, Stub, s.chain[k], s.chain[k + 1]);
      if s.chain[k] != prev && s.chain[k] !in s.next {
        var a, b := s.chain[k], s.chain[k + 1];
        assert Linker(s, a, b);
        var j :| 0 <= j < |s.producers| && b.Msg? && s.producers[j] == Link(b.id, a);
        assert s'.producers[j] == Link(b.id, a);
      }
    }
  }

  lemma TakeCountKeeps(s: State)
    requires Inv(s) && s.consumer.TakeCount?
    ensures Inv(ConsumerStep(s).0)
  {
    var s' := ConsumerStep(s).0;
    LinkersKeep(s, s', |s.producers|);
    forall j | 0 <= j < |s'.producers| ensures ProducerInv(s', s'.producers[j]) {
      assert ProducerInv(s, s.producers[j]);
    }
  }

  lemma NothingToPop(s: State)
    requires Inv(s) && s.consumer == LoadNext(Stub) && Stub !in s.next
    ensures Pending(s) == [] || Linking(s)
  {
    if |s.chain| >= 2 {
      HeadWaits(s);
    } else {
      assert s.chain == [Stub];
      MsgsOne(Stub);
    }
  }

  // Steps that only load: a NULL return means an empty queue or a producer about to link.
  lemma LoadKeeps(s: State)
    requires Inv(s)
    requires s.consumer.LoadNext? || s.consumer.LoadNextAgain? || s.consumer.LoadTail? || s.consumer.Spin? || s.consumer.Reload?
    ensures Inv(ConsumerStep(s).0) && Effect(s, ConsumerStep(s).1, ConsumerStep(s).0)
  {
    var s' := ConsumerStep(s).0;
    assert s' == s.(consumer := s'.consumer);
    assert ConsumerInv(s') by {
      if s.head in s.next { HeadNext(s); }
    }
    ConsumerMoves(s, s'.consumer);
    assert Pending(s') == Pending(s);
    if ConsumerStep(s).1 == PopNull {
      if s.consumer.LoadNext? {
        NothingToPop(s);
      } else {
        HeadWaits(s);
      }
    }
  }

  lemma HeadKeeps(s: State)
    requires Inv(s) && (s.consumer.SkipStub? || s.consumer.TakeHead?)
    ensures Inv(ConsumerStep(s).0) && Effect(s, ConsumerStep(s).1, ConsumerStep(s).0)
  {
    HeadNext(s);
    ChainSplit(s);
    if s.consumer.SkipStub? {
      assert s.chain[1] != s.chain[0];
      DropHead(s, LoadNextAgain(s.consumer.n));
    } else {
      DropHead(s, TakeCount(s.consumer.h));
    }
  }

  lemma ConsumerKeeps(s: State)
    requires Inv(s)
    ensures Inv(ConsumerStep(s).0) && Effect(s, ConsumerStep(s).1, ConsumerStep(s).0)
  {
    match s.consumer
    case Idle =>
    case SkipStub(n) => HeadKeeps(s);
    case TakeHead(h, n) => HeadKeeps(s);
    case TakeCount(h) => TakeCountKeeps(s);
    case TakeNull(h) => ForgetNext(s, h, Idle);
    case StubNull(h) => ForgetNext(s, Stub, StubExchange(h));
    case StubExchange(h) =>
      StubExchangeKeeps(s);
      MsgsAppend(s.chain, [Stub]);
      MsgsOne(Stub);
    case StubLink(h, prev) => StubLinkKeeps(s);
    case _ => LoadKeeps(s);
  }

  // A message outside the mailbox may be changed, freed and allocated again at any time.
  lemma ScribbleKeeps(s: State, m: nat, to: Option<Node>)
    requires Inv(s)
    ensures Inv(Step(s, Scribble(m, to)).0)
  {
    var s' := Step(s, Scribble(m, to)).0;
    LinkersKeep(s, s', |s.producers|);
    if Free(s, m) {
      forall j | 0 <= j < |s'.producers| ensures ProducerInv(s', s'.producers[j]) {
        assert ProducerInv(s, s.producers[j]);
        assert !Holds(s.producers[j], m);
        if s.producers[j].Link? {
          var p := s.producers[j];
          FollowsUnique(s.chain, p.prev, Msg(p.m), p.prev, Msg(p.m));
        }
      }
      if s.consumer.StubLink? {
        FollowsUnique(s.chain, s.consumer.prev, Stub, s.consumer.prev, Stub);
      }
    }
  }

  lemma StepKeeps(s: State, c: Choice)
    requires Inv(s)
    ensures Inv(Step(s, c).0) && Effect(s, Step(s, c).1, Step(s, c).0)
  {
    match c
    case CallPush(i, m) =>
      if i < |s.producers| && s.producers[i].Resting? && Free(s, m) {
        CallKeeps(s, i, m);
      }
    case Producer(i) => if i < |s.producers| { ProducerKeeps(s, i); }
    case CallPop => if s.consumer.Idle? { ConsumerMoves(s, LoadNext(s.head)); }
    case Consumer => ConsumerKeeps(s);
    case Scribble(m, to) => ScribbleKeeps(s, m, to);
  }
}
