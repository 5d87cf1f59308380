/** What every run of the mailbox guarantees: messages come out once each, in the order of the tail
    exchanges; the stub never does; and a message that came out is out of reach of the queue.
 */
module MailboxRuns {
  import opened Mailbox

  function EnqueuedIn(es: seq<Event>): seq<Node> {
    if es == [] then [] else EnqueuedBy(es[0]) + EnqueuedIn(es[1..])
  }

  function ReturnedIn(es: seq<Event>): seq<Node> {
    if es == [] then [] else ReturnedBy(es[0]) + ReturnedIn(es[1..])
  }

  function EnqueuedBy(e: Event): seq<Node> { if e.Enqueued? then [Msg(e.m)] else [] }

  function ReturnedBy(e: Event): seq<Node> { if e.Returned? then [e.n] else [] }

  lemma Glue(before: seq<Node>, after: seq<Node>, e: seq<Node>, r: seq<Node>, es: seq<Node>, rs: seq<Node>, last: seq<Node>)
    requires before + e == r + after && after + es == rs + last
    ensures before + (e + es) == (r + rs) + last
  {
    assert before + (e + es) == (before + e) + es == r + (after + es) == r + (rs + last);
  }

  lemma StepBalance(s: State, c: Choice)
    requires Inv(s)
    ensures Inv(Step(s, c).0)
    ensures Pending(s) + EnqueuedBy(Step(s, c).1) == ReturnedBy(Step(s, c).1) + Pending(Step(s, c).0)
    ensures Stub !in ReturnedBy(Step(s, c).1)
  {
    StepKeeps(s, c);
  }

  lemma {:induction false} RunKeeps(s: State, sched: seq<Choice>)
    requires Inv(s)
    ensures Inv(Exec(s, sched))
    ensures Pending(s) + EnqueuedIn(Trace(s, sched)) == ReturnedIn(Trace(s, sched)) + Pending(Exec(s, sched))
    ensures Stub !in ReturnedIn(Trace(s, sched))
    decreases |sched|
  {
    if sched != [] {
      var (s1, e) := Step(s, sched[0]);
      StepBalance(s, sched[0]);
      RunKeeps(s1, sched[1..]);
      var es := Trace(s1, sched[1..]);
      Glue(Pending(s), Pending(s1), EnqueuedBy(e), ReturnedBy(e), EnqueuedIn(es), ReturnedIn(es), Pending(Exec(s1, sched[1..])));
      assert Trace(s, sched) == [e] + es && Trace(s, sched)[1..] == es;
    }
  }

  // In every interleaving the messages returned so far, followed by those still pending, are the
  // messages enqueued so far in the order of their tail exchanges: each message is returned at
  // most once, in order, none is lost, and the stub is never returned.
  lemma FirstInFirstOut(producers: nat, max: nat, sched: seq<Choice>)
    ensures var s0 := Init(producers, max);
            var es := Trace(s0, sched);
            && EnqueuedIn(es) == ReturnedIn(es) + Pending(Exec(s0, sched))
            && Stub !in ReturnedIn(es)
  {
    var s0 := Init(producers, max);
    InitInv(producers, max);
    RunKeeps(s0, sched);
    assert [] + EnqueuedIn(Trace(s0, sched)) == EnqueuedIn(Trace(s0, sched));
  }

  // The enqueued messages with the producers that enqueued them.
  function SentIn(es: seq<Event>): seq<(Node, nat)> {
    if es == [] then [] else (if es[0].Enqueued? then [(Msg(es[0].m), es[0].sender)] else []) + SentIn(es[1..])
  }

  // The messages of one producer, in order.
  function From(sent: seq<(Node, nat)>, producer: nat): seq<Node> {
    if sent == [] then [] else (if sent[0].1 == producer then [sent[0].0] else []) + From(sent[1..], producer)
  }

  function Messages(sent: seq<(Node, nat)>): (r: seq<Node>)
    ensures |r| == |sent|
  {
    seq(|sent|, i requires 0 <= i < |sent| => sent[i].0)
  }

  lemma {:induction false} SentMessages(es: seq<Event>)
    ensures Messages(SentIn(es)) == EnqueuedIn(es)
    decreases |es|
  {
    if es != [] {
      SentMessages(es[1..]);
      var one := if es[0].Enqueued? then [(Msg(es[0].m), es[0].sender)] else [];
      assert Messages(one + SentIn(es[1..])) == Messages(one) + Messages(SentIn(es[1..]));
    }
  }

  lemma {:induction false} FromSplit(a: seq<(Node, nat)>, b: seq<(Node, nat)>, producer: nat)
    ensures From(a + b, producer) == From(a, producer) + From(b, producer)
    decreases |a|
  {
    if a == [] {
      assert a + b == b;
    } else {
      FromSplit(a[1..], b, producer);
      assert (a + b)[1..] == a[1..] + b;
    }
  }

  // Of every producer, the messages returned so far followed by those still pending are the messages it
  // enqueued, in the order in which it did.
  lemma FirstInFirstOutPerSender(producers: nat, max: nat, sched: seq<Choice>, producer: nat)
    ensures var es := Trace(Init(producers, max), sched);
            var sent, n := SentIn(es), |ReturnedIn(es)|;
            && n <= |sent| && ReturnedIn(es) == Messages(sent[..n]) && Pending(Exec(Init(producers, max), sched)) == Messages(sent[n..])
            && From(sent, producer) == From(sent[..n], producer) + From(sent[n..], producer)
  {
    var es := Trace(Init(producers, max), sched);
    var sent, n := SentIn(es), |ReturnedIn(es)|;
    FirstInFirstOut(producers, max, sched);
    SentMessages(es);
    FromSplit(sent[..n], sent[n..], producer);
    assert sent == sent[..n] + sent[n..];
    assert Messages(sent[..n]) == Messages(sent)[..n] && Messages(sent[n..]) == Messages(sent)[n..];
  }

  // A NULL return, at the step that decides it: nothing is pending, or a producer has exchanged
  // the tail and not stored its link yet.
  lemma NullOnlyIfEmptyOrLinking(producers: nat, max: nat, sched: seq<Choice>, c: Choice)
    ensures var s := Exec(Init(producers, max), sched);
            Step(s, c).1 == PopNull ==> Pending(s) == [] || Linking(s)
  {
    InitInv(producers, max);
    RunKeeps(Init(producers, max), sched);
    StepKeeps(Exec(Init(producers, max), sched), c);
  }

  // The stub is exchanged into the queue only while it is out of it.
  lemma StubInsertedOnce(producers: nat, max: nat, sched: seq<Choice>)
    ensures var s := Exec(Init(producers, max), sched);
            && DistinctNodes(s.chain)
            && (s.consumer.StubNull? || s.consumer.StubExchange? ==> Stub !in s.chain)
  {
    InitInv(producers, max);
    RunKeeps(Init(producers, max), sched);
  }

  // A message just returned is out of reach: it is not linked, no producer holds it, and no
  // producer is about to store a link into it. The caller may free it.
  lemma ReturnedIsUnreachable(producers: nat, max: nat, sched: seq<Choice>)
    ensures var s := Exec(Init(producers, max), sched);
            s.consumer.TakeNull? ==> Unreachable(Step(s, Consumer).0, s.consumer.h)
  {
    InitInv(producers, max);
    RunKeeps(Init(producers, max), sched);
    var s := Exec(Init(producers, max), sched);
    if s.consumer.TakeNull? {
      TakenIsUnreachable(s);
    }
  }

  ghost predicate Unreachable(s: State, n: Node) {
    n.Msg? && Free(s, n.id) && forall j :: 0 <= j < |s.producers| && s.producers[j].Link? ==> s.producers[j].prev != n
  }

  lemma TakenIsUnreachable(s: State)
    requires Inv(s) && s.consumer.TakeNull?
    ensures ConsumerStep(s).1 == Returned(s.consumer.h) && Unreachable(ConsumerStep(s).0, s.consumer.h)
  {
    var n := s.consumer.h;
    forall j | 0 <= j < |s.producers|
      ensures !Holds(s.producers[j], n.id) && (s.producers[j].Link? ==> s.producers[j].prev != n)
    {
      var p := s.producers[j];
      assert ProducerInv(s, p);
      if p.Link? {
        FollowsUnique(s.chain, p.prev, Msg(p.m), p.prev, Msg(p.m));
      }
    }
  }
}
