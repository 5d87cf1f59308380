/** The timer wheel of src/runtime/timer.c: buckets of timers, a hand that moves on as the clock does,
    and a cached lower bound for the next deadline.
 */
module TimerWheel {

  const UINT64: nat := 0x1_0000_0000_0000_0000

  datatype Timer = Timer(deadline: nat, slot: nat)

  // The pending timers by handle, the hand, the clock at the last tick and the cached bound.
  datatype Wheel = Wheel(size: nat, tickMs: nat, entries: map<nat, Timer>, slot: nat, time: nat, min: nat, nextId: nat)

  // --- Around the wheel ---

  predicate OnWheel(w: Wheel) {
    w.size > 0 && w.tickMs > 0 && w.slot < w.size
  }

  // How many steps the hand needs to reach a slot: between 1 and a full turn.
  function Dist(size: nat, from: nat, to: nat): nat
    requires from < size && to < size
  {
    if to > from then to - from else to + size - from
  }

  function Turn(size: nat, from: nat, k: nat): (r: nat)
    requires from < size
    ensures r < size
  {
    (from + k) % size
  }

  lemma ModOnce(x: nat, size: nat)
    requires size > 0 && x < 2 * size
    ensures x % size == if x < size then x else x - size
  {
    if x >= size {
      assert x == size * 1 + (x - size);
      assert x / size == 1;
    }
  }

  lemma TurnIs(size: nat, from: nat, k: nat)
    requires from < size && k <= size
    ensures Turn(size, from, k) == if from + k < size then from + k else from + k - size
  {
    ModOnce(from + k, size);
  }

  // Within one turn, the hand is at a slot exactly when it has come the distance to it.
  lemma TurnDist(size: nat, from: nat, to: nat, k: nat)
    requires from < size && to < size && 1 <= k <= size
    ensures Turn(size, from, k) == to <==> k == Dist(size, from, to)
    ensures k < Dist(size, from, to) ==> Dist(size, Turn(size, from, k), to) == Dist(size, from, to) - k
  {
    hide Turn;
    TurnIs(size, from, k);
  }

  lemma TurnNext(size: nat, from: nat, k: nat)
    requires from < size && k < size
    ensures (Turn(size, from, k) + 1) % size == Turn(size, from, k + 1)
  {
    hide Turn;
    TurnIs(size, from, k);
    TurnIs(size, from, k + 1);
    ModOnce(Turn(size, from, k) + 1, size);
  }

  // How far one tick moves the hand: at least one slot if the clock has moved, at most a full turn.
  function TicksOf(w: Wheel, now: nat): (t: nat)
    requires OnWheel(w) && w.time <= now
    ensures t <= w.size && (now > w.time ==> t >= 1) && (now == w.time ==> t == 0)
  {
    var elapsed := now - w.time;
    var ticks := elapsed / w.tickMs;
    var moved := if ticks == 0 && elapsed > 0 then 1 else ticks;
    if moved > w.size then w.size else moved
  }

  // --- What each operation does ---

  function Deadline(now: nat, timeout: nat): nat {
    if timeout > UINT64 - 1 - now then UINT64 - 1 else now + timeout
  }

  function SlotAhead(w: Wheel, ms: nat): (s: nat)
    requires OnWheel(w)
    ensures s < w.size
  {
    var ticks := if ms / w.tickMs == 0 then 1 else ms / w.tickMs;
    (w.slot + ticks) % UINT64 % w.size
  }

  // Where the hand, swept over its next t slots at time `now`, leaves a timer that it does not fire.
  function Carried(w: Wheel, now: nat, x: Timer, t: nat): (s: nat)
    requires OnWheel(w)
  {
    if t == 0 then x.slot
    else
      var s, hand := Carried(w, now, x, t - 1), Turn(w.size, w.slot, t);
      if s == hand && x.deadline > now then SlotAhead(w.(slot := hand), x.deadline - now) else s
  }

  // The hand has come to the slot within t steps.
  predicate Passed(w: Wheel, s: nat, t: nat) {
    w.slot < w.size && s < w.size && Dist(w.size, w.slot, s) <= t
  }

  // Fired in the order in which the hand comes to their slots.
  predicate InOrder(w: Wheel, fired: seq<nat>) {
    forall a, b :: 0 <= a < b < |fired| && fired[a] in w.entries && fired[b] in w.entries
      && w.slot < w.size && w.entries[fired[a]].slot < w.size && w.entries[fired[b]].slot < w.size
      ==> Dist(w.size, w.slot, w.entries[fired[a]].slot) <= Dist(w.size, w.slot, w.entries[fired[b]].slot)
  }

  ghost predicate AddStep(w: Wheel, v: Wheel, id: nat, now: nat, timeout: nat) {
    && OnWheel(w) && now < UINT64 && id == w.nextId
    && var d := Deadline(now, timeout);
       v == w.(entries := w.entries[id := Timer(d, SlotAhead(w, timeout))], nextId := id + 1,
               min := if w.min == 0 || d < w.min then d else w.min)
  }

  ghost predicate CancelStep(w: Wheel, v: Wheel, id: nat) {
    OnWheel(w) && id in w.entries && v == w.(entries := w.entries - {id})
  }

  predicate NoDup(s: seq<nat>) {
    forall i, j :: 0 <= i < j < |s| ==> s[i] != s[j]
  }

  // The bound is the least pending deadline, or zero if nothing is pending.
  ghost predicate Exact(min: nat, entries: map<nat, Timer>) {
    if entries == map[] then min == 0
    else (forall i :: i in entries ==> min <= entries[i].deadline) && exists i :: i in entries && entries[i].deadline == min
  }

  // A tick fires exactly the due timers on the slots the hand passes, in the order in which it comes
  // to them, and carries along those it meets too early.
  ghost predicate TickStep(w: Wheel, v: Wheel, now: nat, fired: seq<nat>) {
    && OnWheel(w) && w.time <= now
    && v == w.(entries := v.entries, slot := Turn(w.size, w.slot, TicksOf(w, now)), time := now, min := v.min)
    && NoDup(fired) && InOrder(w, fired)
    && (forall i :: i in fired <==> i in w.entries && w.entries[i].deadline <= now && Passed(w, w.entries[i].slot, TicksOf(w, now)))
    && (forall i :: i in v.entries <==> i in w.entries && i !in fired)
    && (forall i :: i in v.entries ==> v.entries[i] == w.entries[i].(slot := Carried(w, now, w.entries[i], TicksOf(w, now))))
    && (if fired == [] then v.min == w.min else Exact(v.min, v.entries))
  }

  // --- Invariants ---

  // Handles are not given out twice, and every timer is on the wheel.
  ghost predicate Kept(w: Wheel) {
    OnWheel(w) && forall i :: i in w.entries ==> i < w.nextId && w.entries[i].slot < w.size
  }

  // The cached bound can stand for the whole wheel: not above any pending deadline, and zero only if
  // nothing is pending.
  ghost predicate Sound(w: Wheel) {
    Kept(w) && forall i :: i in w.entries ==> 0 < w.min <= w.entries[i].deadline
  }

  datatype Op = Add(id: nat, now: nat, timeout: nat) | Cancel(handle: nat) | Tick(clock: nat, fired: seq<nat>)

  ghost predicate Step(w: Wheel, v: Wheel, op: Op) {
    match op
    case Add(id, now, timeout) => AddStep(w, v, id, now, timeout)
    case Cancel(id) => CancelStep(w, v, id)
    case Tick(now, fired) => TickStep(w, v, now, fired)
  }

  lemma {:induction false} CarriedOn(w: Wheel, now: nat, x: Timer, t: nat)
    requires OnWheel(w) && x.slot < w.size
    ensures Carried(w, now, x, t) < w.size
    ensures x.deadline <= now ==> Carried(w, now, x, t) == x.slot
    decreases t
  {
    if t > 0 {
      CarriedOn(w, now, x, t - 1);
    }
  }

  lemma TickKept(w: Wheel, v: Wheel, now: nat, fired: seq<nat>)
    requires Kept(w) && TickStep(w, v, now, fired)
    ensures Kept(v) && forall i :: i in v.entries ==> v.entries[i].deadline == w.entries[i].deadline
  {
    hide Turn, TicksOf, Carried, Passed, InOrder, Exact;
    forall i | i in v.entries ensures v.entries[i].slot < w.size {
      CarriedOn(w, now, w.entries[i], TicksOf(w, now));
    }
  }

  // Every operation keeps the cached bound sound, except for adding a timer that is due at time zero;
  // and a tick that fired something makes it exact.
  lemma StepSound(w: Wheel, v: Wheel, op: Op)
    requires Kept(w) && Step(w, v, op)
    ensures Kept(v)
    ensures Sound(w) ==> (Sound(v) <==> !(op.Add? && op.now == 0 && op.timeout == 0))
    ensures op.Tick? && op.fired != [] ==> Exact(v.min, v.entries)
  {
    hide Turn, TicksOf, Carried, Passed, InOrder;
    match op
    case Add(id, now, timeout) =>
      assert id in v.entries;
    case Cancel(id) =>
    case Tick(now, fired) =>
      TickKept(w, v, now, fired);
      if Sound(w) && fired != [] && v.entries != map[] {
        var i :| i in v.entries && v.entries[i].deadline == v.min;
        assert i in w.entries;
      }
  }

  // Then the bound says that nothing is pending, although something is.
  lemma DueAtZero(w: Wheel, v: Wheel, id: nat)
    requires Sound(w) && AddStep(w, v, id, 0, 0)
    ensures v.min == 0 && id in v.entries && !Sound(v)
  {
    StepSound(w, v, Add(id, 0, 0));
  }

  // --- Runs ---

  ghost predicate Run(ws: seq<Wheel>, ops: seq<Op>) {
    |ws| == |ops| + 1 && forall k :: 0 <= k < |ops| ==> Step(ws[k], ws[k + 1], ops[k])
  }

  lemma {:induction false} RunKept(ws: seq<Wheel>, ops: seq<Op>, n: nat)
    requires Run(ws, ops) && Kept(ws[0]) && n < |ws|
    ensures Kept(ws[n])
    decreases n
  {
    if n > 0 {
      RunKept(ws, ops, n - 1);
      StepSound(ws[n - 1], ws[n], ops[n - 1]);
    }
  }

  // The bound stays sound all along a run if and only if no timer is added that is due at time zero.
  lemma {:induction false} RunSound(ws: seq<Wheel>, ops: seq<Op>, n: nat)
    requires Run(ws, ops) && Sound(ws[0]) && n < |ws|
    ensures (forall k :: 0 <= k <= n ==> Sound(ws[k])) <==>
            (forall k :: 0 <= k < n ==> !(ops[k].Add? && ops[k].now == 0 && ops[k].timeout == 0))
    decreases n
  {
    if n > 0 {
      RunSound(ws, ops, n - 1);
      RunKept(ws, ops, n - 1);
      StepSound(ws[n - 1], ws[n], ops[n - 1]);
    }
  }

  predicate Fires(op: Op, id: nat) {
    op.Tick? && id in op.fired
  }

  // A timer that was handed out and is not pending any more will never be pending again.
  lemma {:induction false} GoneForGood(ws: seq<Wheel>, ops: seq<Op>, id: nat, m: nat, n: nat)
    requires Run(ws, ops) && m <= n < |ws| && id < ws[m].nextId && id !in ws[m].entries
    ensures id < ws[n].nextId && id !in ws[n].entries
    decreases n
  {
    if m < n {
      GoneForGood(ws, ops, id, m, n - 1);
      assert Step(ws[n - 1], ws[n], ops[n - 1]);
    }
  }

  // Until it fires or is cancelled, a timer stays pending with its deadline.
  lemma {:induction false} StaysPending(ws: seq<Wheel>, ops: seq<Op>, id: nat, m: nat, n: nat)
    requires Run(ws, ops) && m <= n < |ws| && id in ws[m].entries && id < ws[m].nextId
    requires forall k :: m <= k < n ==> !Fires(ops[k], id) && ops[k] != Cancel(id)
    ensures id in ws[n].entries && id < ws[n].nextId && ws[n].entries[id].deadline == ws[m].entries[id].deadline
    decreases n
  {
    if m < n {
      StaysPending(ws, ops, id, m, n - 1);
      assert Step(ws[n - 1], ws[n], ops[n - 1]);
      assert !Fires(ops[n - 1], id) && ops[n - 1] != Cancel(id);
    }
  }

  // In every run, a timer fires at most once, never before its deadline, and never once cancelled.
  lemma FiresOnce(ws: seq<Wheel>, ops: seq<Op>, id: nat, m: nat, n: nat)
    requires Run(ws, ops) && Kept(ws[0]) && m < n < |ops|
    requires Fires(ops[m], id) || ops[m] == Cancel(id)
    ensures !Fires(ops[n], id) && ops[n] != Cancel(id)
  {
    RunKept(ws, ops, m);
    assert Step(ws[m], ws[m + 1], ops[m]) && Step(ws[n], ws[n + 1], ops[n]);
    GoneForGood(ws, ops, id, m + 1, n);
  }

  lemma FiresDue(ws: seq<Wheel>, ops: seq<Op>, id: nat, now: nat, timeout: nat, m: nat, n: nat)
    requires Run(ws, ops) && Kept(ws[0]) && m < n < |ops| && ops[m] == Add(id, now, timeout) && Fires(ops[n], id)
    ensures ops[n].clock >= if now + timeout < UINT64 then now + timeout else UINT64 - 1
  {
    RunKept(ws, ops, m);
    assert Step(ws[m], ws[m + 1], ops[m]) && Step(ws[n], ws[n + 1], ops[n]);
    if k :| m + 1 <= k < n && (Fires(ops[k], id) || ops[k] == Cancel(id)) {
      FiresOnce(ws, ops, id, k, n);
    } else {
      StaysPending(ws, ops, id, m + 1, n);
    }
  }

  // Ticks from operation m to n that found the clock moved on.
  ghost function Moves(ws: seq<Wheel>, ops: seq<Op>, m: nat, n: nat): nat
    requires Run(ws, ops) && m <= n < |ws|
    decreases n
  {
    if m == n then 0
    else Moves(ws, ops, m, n - 1) + if ops[n - 1].Tick? && ops[n - 1].clock > ws[n - 1].time then 1 else 0
  }

  // While a due timer has not fired, each tick that moves brings the hand closer to it.
  lemma {:induction false} HandComesCloser(ws: seq<Wheel>, ops: seq<Op>, id: nat, m: nat, n: nat)
    requires Run(ws, ops) && Kept(ws[0]) && m <= n < |ws| && id in ws[m].entries
    requires forall k :: m <= k < n ==> !Fires(ops[k], id) && ops[k] != Cancel(id)
    requires forall k :: m <= k < n && ops[k].Tick? ==> ops[k].clock >= ws[m].entries[id].deadline
    ensures Kept(ws[m]) && Kept(ws[n]) && id in ws[n].entries
    ensures ws[n].size == ws[m].size && ws[n].entries[id] == ws[m].entries[id]
    ensures var w := ws[m]; Dist(w.size, ws[n].slot, ws[n].entries[id].slot) + Moves(ws, ops, m, n) <= Dist(w.size, w.slot, w.entries[id].slot)
    decreases n
  {
    RunKept(ws, ops, m);
    if m < n {
      HandComesCloser(ws, ops, id, m, n - 1);
      StaysPending(ws, ops, id, n - 1, n);
      RunKept(ws, ops, n);
      CloserStep(ws[n - 1], ws[n], ops[n - 1], id);
    }
  }

  lemma CloserStep(w: Wheel, v: Wheel, op: Op, id: nat)
    requires Kept(w) && Kept(v) && Step(w, v, op) && id in w.entries && id in v.entries && !Fires(op, id)
    requires op.Tick? ==> op.clock >= w.entries[id].deadline
    ensures v.size == w.size && v.entries[id] == w.entries[id]
    ensures Dist(w.size, v.slot, v.entries[id].slot) + (if op.Tick? && op.clock > w.time then 1 else 0) <= Dist(w.size, w.slot, w.entries[id].slot)
  {
    hide Turn, TicksOf, SlotAhead, Deadline, Exact, Carried, InOrder;
    if op.Tick? {
      var t := TicksOf(w, op.clock);
      CarriedOn(w, op.clock, w.entries[id], t);
      if t == 0 {
        TurnIs(w.size, w.slot, 0);
      } else {
        TurnDist(w.size, w.slot, w.entries[id].slot, t);
      }
    }
  }

  // A due timer fires within as many moving ticks as the wheel has slots.
  lemma DueFires(ws: seq<Wheel>, ops: seq<Op>, id: nat, m: nat, n: nat)
    requires Run(ws, ops) && Kept(ws[0]) && m <= n < |ws| && id in ws[m].entries
    requires forall k :: m <= k < n ==> ops[k] != Cancel(id)
    requires forall k :: m <= k < n && ops[k].Tick? ==> ops[k].clock >= ws[m].entries[id].deadline
    requires Moves(ws, ops, m, n) >= ws[m].size
    ensures exists k :: m <= k < n && Fires(ops[k], id)
  {
    if forall k :: m <= k < n ==> !Fires(ops[k], id) {
      HandComesCloser(ws, ops, id, m, n);
      assert false;
    }
  }

  // --- Punctuality ---

  // A tick that moves the hand for all the time that has gone by; the code forgets the rest of a division.
  predicate Lossless(w: Wheel, now: nat) {
    w.tickMs > 0 && w.time <= now && (now - w.time <= w.tickMs || (now - w.time) % w.tickMs == 0)
  }

  // The hand will be at the timer in time: it is in the next slot, or no further away than the time left.
  predicate Near(w: Wheel, x: Timer) {
    && OnWheel(w) && x.slot < w.size
    && (Dist(w.size, w.slot, x.slot) == 1 || w.time + Dist(w.size, w.slot, x.slot) * w.tickMs <= x.deadline)
  }

  function Whole(e: nat, m: nat): nat
    requires m > 0
  {
    e / m
  }

  lemma Division(e: nat, m: nat)
    requires m > 0
    ensures var q := Whole(e, m); q * m <= e < q * m + m && q <= e && (e % m == 0 ==> e == q * m)
  {
    var q := e / m;
    assert e == m * q + e % m;
    Product(1, m, q);
  }

  lemma Product(a: nat, b: nat, m: nat)
    requires a <= b
    ensures a * m <= b * m && m * a <= m * b
  {
  }

  lemma DistAhead(size: nat, s: nat, k: nat)
    requires s < size && k >= 1
    ensures 1 <= Dist(size, s, (s + k) % size) <= k
  {
    var p, q := (s + k) % size, (s + k) / size;
    assert s + k == size * q + p;
    if p <= s {
      assert q >= 1;
      Product(1, q, size);
    }
  }

  lemma SlotIs(w: Wheel, ms: nat, k: nat)
    requires OnWheel(w) && w.size + ms < UINT64 && k == if Whole(ms, w.tickMs) == 0 then 1 else Whole(ms, w.tickMs)
    ensures SlotAhead(w, ms) == (w.slot + k) % w.size
  {
    Division(ms, w.tickMs);
    assert (w.slot + k) % UINT64 == w.slot + k;
  }

  // d slots, no more than there are in a time, take no more than that time.
  lemma SlotsFit(d: nat, q: nat, m: nat, ms: nat)
    requires 1 <= d && q * m <= ms && d <= if q == 0 then 1 else q
    ensures d == 1 || d * m <= ms
  {
    if q > 0 {
      Product(d, q, m);
    }
  }

  // A slot ahead is at most as many steps ahead.
  lemma AheadDist(w: Wheel, ms: nat)
    requires OnWheel(w) && w.size + ms < UINT64
    ensures var d := Dist(w.size, w.slot, SlotAhead(w, ms)); d == 1 || d * w.tickMs <= ms
  {
    hide SlotAhead, Dist, Whole;
    var q := Whole(ms, w.tickMs);
    var k := if q == 0 then 1 else q;
    SlotIs(w, ms, k);
    Division(ms, w.tickMs);
    DistAhead(w.size, w.slot, k);
    SlotsFit(Dist(w.size, w.slot, SlotAhead(w, ms)), q, w.tickMs, ms);
  }

  lemma AddNear(w: Wheel, v: Wheel, id: nat, now: nat, timeout: nat)
    requires AddStep(w, v, id, now, timeout) && w.time <= now && w.size + now + timeout < UINT64
    ensures id in v.entries && Near(v, v.entries[id]) && v.entries[id].deadline == now + timeout
  {
    hide SlotAhead;
    AheadDist(w, timeout);
  }

  // One step of the hand.
  lemma DistStep(size: nat, hand: nat, s: nat)
    requires hand < size && s < size
    ensures var next := Turn(size, hand, 1);
            (s == next <==> Dist(size, hand, s) == 1) && (s != next ==> Dist(size, next, s) == Dist(size, hand, s) - 1)
  {
    hide Turn;
    TurnIs(size, hand, 1);
  }

  lemma TurnMore(size: nat, from: nat, t: nat)
    requires from < size && 0 < t <= size
    ensures Turn(size, Turn(size, from, t - 1), 1) == Turn(size, from, t)
  {
    TurnNext(size, from, t - 1);
  }

  // Over a sweep, a timer that is early comes t steps closer, or has been met and is near for the time left.
  lemma {:induction false} CarriedNear(w: Wheel, now: nat, x: Timer, t: nat)
    requires OnWheel(w) && x.slot < w.size && now < x.deadline && w.size + x.deadline < UINT64 && t <= w.size
    ensures var s, d := Carried(w, now, x, t), Dist(w.size, w.slot, x.slot);
            && s < w.size
            && var e := Dist(w.size, Turn(w.size, w.slot, t), s);
               (t < d && e == d - t) || e == 1 || now + e * w.tickMs <= x.deadline
    decreases t
  {
    hide Turn, SlotAhead, Dist;
    if t == 0 {
      TurnIs(w.size, w.slot, 0);
      AtLeastOne(w.size, w.slot, x.slot);
    } else {
      CarriedNear(w, now, x, t - 1);
      var s, before, hand := Carried(w, now, x, t - 1), Turn(w.size, w.slot, t - 1), Turn(w.size, w.slot, t);
      TurnMore(w.size, w.slot, t);
      DistStep(w.size, before, s);
      AtLeastOne(w.size, hand, s);
      if s == hand {
        AheadDist(w.(slot := hand), x.deadline - now);
      } else {
        Product(Dist(w.size, hand, s), Dist(w.size, before, s), w.tickMs);
      }
    }
  }

  lemma AtLeastOne(size: nat, from: nat, to: nat)
    requires from < size && to < size
    ensures 1 <= Dist(size, from, to) <= size
  {
  }

  // e is the time gone by, q the whole slots in it, and t how far the hand moves.
  lemma Enough(e: nat, m: nat, q: nat, t: nat, size: nat, d: nat)
    requires m > 0 && e > 0 && q * m <= e < q * m + m && (e % m == 0 ==> e == q * m) && 1 <= d <= size
    requires t == if q == 0 then 1 else if q > size then size else q
    ensures d == 1 || d * m <= e ==> d <= t
    ensures (e <= m || e % m == 0) && t < size ==> e <= t * m
  {
    assert (q + 1) * m == q * m + m;
    if d > q {
      Product(q + 1, d, m);
    }
    if t < size && e <= m {
      Product(1, t, m);
    }
  }

  lemma TicksIs(w: Wheel, now: nat)
    requires OnWheel(w) && w.time < now
    ensures var q := Whole(now - w.time, w.tickMs); TicksOf(w, now) == if q == 0 then 1 else if q > w.size then w.size else q
  {
  }

  // How far the hand moves, at least as far as the time allows.
  lemma TicksAre(w: Wheel, now: nat, d: nat)
    requires OnWheel(w) && w.time < now && 1 <= d <= w.size
    ensures d == 1 || d * w.tickMs <= now - w.time ==> d <= TicksOf(w, now)
    ensures Lossless(w, now) && TicksOf(w, now) < w.size ==> now - w.time <= TicksOf(w, now) * w.tickMs
  {
    hide TicksOf, Whole;
    var e := now - w.time;
    TicksIs(w, now);
    Division(e, w.tickMs);
    Enough(e, w.tickMs, Whole(e, w.tickMs), TicksOf(w, now), w.size, d);
  }

  // Met early, a near timer stays near, if the tick loses no time;
  lemma TickNear(w: Wheel, v: Wheel, now: nat, fired: seq<nat>, id: nat)
    requires Kept(w) && TickStep(w, v, now, fired) && id in w.entries && Near(w, w.entries[id]) && Lossless(w, now)
    requires now < w.entries[id].deadline && w.size + w.entries[id].deadline < UINT64
    ensures id in v.entries && Near(v, v.entries[id]) && v.entries[id].deadline == w.entries[id].deadline
  {
    hide Turn, TicksOf, Carried, Dist, InOrder, Exact, NoDup, Lossless;
    var x, t := w.entries[id], TicksOf(w, now);
    assert v.entries[id] == x.(slot := Carried(w, now, x, t));
    CarriedNear(w, now, x, t);
    NearStep(w, v, now, x, t);
  }

  lemma NearStep(w: Wheel, v: Wheel, now: nat, x: Timer, t: nat)
    requires Near(w, x) && Lossless(w, now) && w.time <= now && t == TicksOf(w, now) && v.time == now && v.size == w.size && v.tickMs == w.tickMs
    requires v.slot == Turn(w.size, w.slot, t) && Carried(w, now, x, t) < w.size
    requires var d, e := Dist(w.size, w.slot, x.slot), Dist(w.size, v.slot, Carried(w, now, x, t));
             (t < d && e == d - t) || e == 1 || now + e * w.tickMs <= x.deadline
    ensures Near(v, x.(slot := Carried(w, now, x, t)))
  {
    hide Turn, TicksOf, Carried, Lossless, Dist;
    var d, e := Dist(w.size, w.slot, x.slot), Dist(w.size, v.slot, Carried(w, now, x, t));
    AtLeastOne(w.size, w.slot, x.slot);
    if t < d && e == d - t && now > w.time {
      TicksAre(w, now, 1);
      Remaining(d, t, w.tickMs, w.time, now, x.deadline);
    }
  }

  lemma Remaining(d: nat, t: nat, m: nat, time: nat, now: nat, deadline: nat)
    requires t < d && time <= now && now - time <= t * m && (d == 1 || time + d * m <= deadline)
    ensures d - t == 1 || now + (d - t) * m <= deadline
  {
    assert (d - t) * m + t * m == d * m;
  }

  // and once it is due, it fires.
  lemma NearFires(w: Wheel, v: Wheel, now: nat, fired: seq<nat>, id: nat)
    requires TickStep(w, v, now, fired) && id in w.entries && Near(w, w.entries[id]) && w.time < now && w.entries[id].deadline <= now
    ensures id in fired
  {
    hide Turn, TicksOf, Carried, InOrder, Exact, NoDup;
    AtLeastOne(w.size, w.slot, w.entries[id].slot);
    TicksAre(w, now, Dist(w.size, w.slot, w.entries[id].slot));
  }

  // The next tick after a timer was added fires it if and only if it is due then and the clock has moved.
  lemma NextTickFires(w: Wheel, v: Wheel, u: Wheel, id: nat, now: nat, timeout: nat, clock: nat, fired: seq<nat>)
    requires AddStep(w, v, id, now, timeout) && TickStep(v, u, clock, fired)
    requires w.time <= now && w.size + now + timeout < UINT64
    ensures id in fired <==> clock >= now + timeout && clock > w.time
  {
    hide Turn, TicksOf, Carried, InOrder, Exact, NoDup, SlotAhead;
    AddNear(w, v, id, now, timeout);
    if clock >= now + timeout && clock > w.time {
      NearFires(v, u, clock, fired, id);
    }
  }

  lemma {:induction false} StaysNear(ws: seq<Wheel>, ops: seq<Op>, id: nat, now: nat, timeout: nat, m: nat, n: nat)
    requires Run(ws, ops) && Kept(ws[0]) && m < n < |ws| && ops[m] == Add(id, now, timeout)
    requires ws[m].time <= now && ws[m].size + now + timeout < UINT64
    requires forall k :: m < k < n ==> ops[k] != Cancel(id) && (ops[k].Tick? ==> ops[k].clock < now + timeout && Lossless(ws[k], ops[k].clock))
    ensures id in ws[n].entries && Near(ws[n], ws[n].entries[id]) && ws[n].entries[id].deadline == now + timeout && ws[n].size == ws[m].size
    decreases n
  {
    hide AddStep, CancelStep, TickStep, Near, Lossless;
    RunKept(ws, ops, n - 1);
    assert Step(ws[n - 1], ws[n], ops[n - 1]);
    if n == m + 1 {
      AddNear(ws[m], ws[n], id, now, timeout);
      Sizes(ws[m], ws[n], ops[m]);
    } else {
      StaysNear(ws, ops, id, now, timeout, m, n - 1);
      Sizes(ws[n - 1], ws[n], ops[n - 1]);
      if ops[n - 1].Tick? {
        TickNear(ws[n - 1], ws[n], ops[n - 1].clock, ops[n - 1].fired, id);
      } else {
        StillNear(ws[n - 1], ws[n], ops[n - 1], id);
      }
    }
  }

  lemma Sizes(w: Wheel, v: Wheel, op: Op)
    requires Step(w, v, op)
    ensures v.size == w.size && v.tickMs == w.tickMs
  {
    hide Turn, TicksOf, Carried, InOrder, Exact, NoDup, SlotAhead;
  }

  lemma StillNear(w: Wheel, v: Wheel, op: Op, id: nat)
    requires Kept(w) && Step(w, v, op) && !op.Tick? && op != Cancel(id) && id in w.entries && Near(w, w.entries[id])
    ensures id in v.entries && v.entries[id] == w.entries[id] && Near(v, v.entries[id])
  {
    hide SlotAhead, Deadline;
  }

  // In every run whose ticks lose no time, a timer that is not cancelled is fired by the first tick that finds
  // the clock at its deadline.
  lemma Punctual(ws: seq<Wheel>, ops: seq<Op>, id: nat, now: nat, timeout: nat, m: nat, n: nat)
    requires Run(ws, ops) && Kept(ws[0]) && m < n < |ops| && ops[m] == Add(id, now, timeout)
    requires ws[m].time <= now && ws[m].size + now + timeout < UINT64
    requires forall k :: m < k < n ==> ops[k] != Cancel(id) && (ops[k].Tick? ==> ops[k].clock < now + timeout && Lossless(ws[k], ops[k].clock))
    requires ops[n].Tick? && ops[n].clock >= now + timeout && ops[n].clock > ws[n].time
    ensures Fires(ops[n], id)
  {
    hide AddStep, CancelStep, TickStep, Near, Lossless;
    StaysNear(ws, ops, id, now, timeout, m, n);
    assert Step(ws[n], ws[n + 1], ops[n]);
    NearFires(ws[n], ws[n + 1], ops[n].clock, ops[n].fired, id);
  }

  // A timer of 40 ms on a wheel of 10 ms slots, k ticks of 19 ms later.
  function Late(k: nat): Wheel {
    Wheel(256, 10, map[0 := Timer(40, 4)], k, 19 * k, 40, 1)
  }

  // Each of these ticks moves the hand by one slot only, and so the tick at 57 ms, the first one after the
  // deadline, does not fire the timer.
  lemma LateTimer(k: nat)
    requires k < 3
    ensures AddStep(Wheel(256, 10, map[], 0, 0, 0, 0), Late(0), 0, 0, 40)
    ensures TickStep(Late(k), Late(k + 1), 19 * (k + 1), []) && !Lossless(Late(k), 19 * (k + 1))
  {
    var w, v, now := Late(k), Late(k + 1), 19 * (k + 1);
    assert TicksOf(w, now) == 1 && Turn(256, k, 1) == k + 1;
    assert Carried(w, now, Timer(40, 4), 0) == 4;
    assert Carried(w, now, Timer(40, 4), 1) == 4;
  }

  // --- Buckets ---

  ghost predicate BucketOk(bucket: seq<nat>, entries: map<nat, Timer>, s: nat) {
    NoDup(bucket) && forall i :: i in bucket ==> i in entries && entries[i].slot == s
  }

  // Each pending timer sits in exactly the bucket that its slot names, once.
  ghost predicate Filed(buckets: seq<seq<nat>>, entries: map<nat, Timer>) {
    && (forall s :: 0 <= s < |buckets| ==> BucketOk(buckets[s], entries, s))
    && (forall i :: i in entries ==> entries[i].slot < |buckets| && i in buckets[entries[i].slot])
  }

  // bucket_remove.
  function Without(bucket: seq<nat>, id: nat): (r: seq<nat>)
    requires NoDup(bucket)
    ensures NoDup(r) && forall i :: i in r <==> i in bucket && i != id
    decreases |bucket|
  {
    if bucket == [] then []
    else
      var rest := Without(bucket[1..], id);
      assert bucket[0] !in bucket[1..] && forall i :: i in bucket <==> i == bucket[0] || i in bucket[1..];
      if bucket[0] == id then rest else [bucket[0]] + rest
  }

  lemma FiledAway(buckets: seq<seq<nat>>, entries: map<nat, Timer>, id: nat)
    requires Filed(buckets, entries) && id in entries
    ensures var s := entries[id].slot;
            s < |buckets| && NoDup(buckets[s]) && Filed(buckets[s := Without(buckets[s], id)], entries - {id})
  {
    hide NoDup, Without;
    var s := entries[id].slot;
    assert BucketOk(buckets[s], entries, s);
    var bucket := Without(buckets[s], id);
    var b, e := buckets[s := bucket], entries - {id};
    forall k | 0 <= k < |b| ensures BucketOk(b[k], e, k) {
      assert BucketOk(buckets[k], entries, k);
    }
    forall i | i in e ensures e[i].slot < |b| && i in b[e[i].slot] {
      assert i in buckets[entries[i].slot];
    }
  }

  lemma FiledIn(buckets: seq<seq<nat>>, entries: map<nat, Timer>, id: nat, x: Timer)
    requires Filed(buckets, entries) && id !in entries && x.slot < |buckets|
    ensures Filed(buckets[x.slot := buckets[x.slot] + [id]], entries[id := x])
  {
    assert BucketOk(buckets[x.slot], entries, x.slot);
    assert NoDup(buckets[x.slot] + [id]);
    hide NoDup;
    var b, e := buckets[x.slot := buckets[x.slot] + [id]], entries[id := x];
    forall k | 0 <= k < |b| ensures BucketOk(b[k], e, k) {
      assert BucketOk(buckets[k], entries, k);
    }
    forall i | i in e ensures e[i].slot < |b| && i in b[e[i].slot] {
      assert i != id ==> i in buckets[entries[i].slot];
    }
  }

  // --- A tick in progress ---

  // The first t slots have been swept; of the last of them, s, only `rest` is left.
  ghost predicate Sweeping(w: Wheel, entries: map<nat, Timer>, fired: seq<nat>, now: nat, t: nat, s: nat, rest: seq<nat>) {
    && Kept(w) && (rest != [] ==> t > 0) && NoDup(fired) && InOrder(w, fired)
    && (forall i :: i in fired ==> i in w.entries && w.entries[i].deadline <= now && Passed(w, w.entries[i].slot, t))
    && (forall i :: i in entries <==> i in w.entries && i !in fired)
    && (forall i :: i in entries ==> CarriedSoFar(w, entries[i], w.entries[i], now, t, i in rest))
    && (forall i :: i in entries && entries[i].deadline <= now ==> !Passed(w, entries[i].slot, t) || (entries[i].slot == s && i in rest))
  }

  ghost predicate CarriedSoFar(w: Wheel, y: Timer, x: Timer, now: nat, t: nat, left: bool)
    requires OnWheel(w) && (left ==> t > 0)
  {
    y == x.(slot := Carried(w, now, x, if left then t - 1 else t))
  }

  lemma SweepNext(w: Wheel, entries: map<nat, Timer>, fired: seq<nat>, now: nat, t: nat, bucket: seq<nat>)
    requires t < w.size && Sweeping(w, entries, fired, now, t, 0, [])
    requires forall i :: i in entries && entries[i].slot == Turn(w.size, w.slot, t + 1) ==> i in bucket
    ensures Sweeping(w, entries, fired, now, t + 1, Turn(w.size, w.slot, t + 1), bucket)
  {
    hide Turn, SlotAhead, InOrder, NoDup;
    var h := Turn(w.size, w.slot, t + 1);
    forall i | i in entries
      ensures CarriedSoFar(w, entries[i], w.entries[i], now, t + 1, i in bucket)
      ensures entries[i].deadline <= now ==> !Passed(w, entries[i].slot, t + 1) || (entries[i].slot == h && i in bucket)
    {
      assert CarriedSoFar(w, entries[i], w.entries[i], now, t, false);
      CarriedOn(w, now, w.entries[i], t);
      TurnDist(w.size, w.slot, entries[i].slot, t + 1);
    }
  }

  lemma SweepDone(w: Wheel, entries: map<nat, Timer>, fired: seq<nat>, now: nat, t: nat, s: nat)
    requires Sweeping(w, entries, fired, now, t, s, [])
    ensures Sweeping(w, entries, fired, now, t, 0, [])
  {
    hide Passed, Carried, InOrder, NoDup;
  }

  // Of the slot under the hand, the first of the rest is dealt with.
  lemma RestSplit(rest: seq<nat>)
    requires rest != [] && NoDup(rest)
    ensures forall i :: i in rest[1..] <==> i in rest && i != rest[0]
  {
    forall i | i in rest && i != rest[0] ensures i in rest[1..] {
      var k :| 0 <= k < |rest| && rest[k] == i;
      assert rest[1..][k - 1] == i;
    }
  }

  lemma FiredInOrder(w: Wheel, fired: seq<nat>, id: nat, t: nat)
    requires InOrder(w, fired) && id in w.entries && w.slot < w.size && w.entries[id].slot < w.size
    requires Dist(w.size, w.slot, w.entries[id].slot) == t
    requires forall i :: i in fired ==> i in w.entries && Passed(w, w.entries[i].slot, t)
    ensures InOrder(w, fired + [id])
  {
    var more := fired + [id];
    forall a, b | 0 <= a < b < |more| && more[a] in w.entries && more[b] in w.entries && w.entries[more[a]].slot < w.size && w.entries[more[b]].slot < w.size
      ensures Dist(w.size, w.slot, w.entries[more[a]].slot) <= Dist(w.size, w.slot, w.entries[more[b]].slot)
    {
      assert more[a] == fired[a] && fired[a] in fired;
      if b < |fired| {
        assert more[b] == fired[b];
      }
    }
  }

  lemma FireOne(w: Wheel, entries: map<nat, Timer>, fired: seq<nat>, now: nat, t: nat, s: nat, rest: seq<nat>)
    requires rest != [] && NoDup(rest) && rest[0] in entries && entries[rest[0]].deadline <= now && entries[rest[0]].slot == s
    requires 0 < t <= w.size && Sweeping(w, entries, fired, now, t, s, rest) && s == Turn(w.size, w.slot, t)
    ensures Sweeping(w, entries - {rest[0]}, fired + [rest[0]], now, t, s, rest[1..])
  {
    hide Turn, Carried, InOrder;
    var id := rest[0];
    RestSplit(rest);
    assert CarriedSoFar(w, entries[id], w.entries[id], now, t, true);
    CarriedOn(w, now, w.entries[id], t - 1);
    TurnDist(w.size, w.slot, s, t);
    FiredInOrder(w, fired, id, t);
    assert forall i :: i in fired + [id] <==> i in fired || i == id;
  }

  lemma MoveOne(w: Wheel, entries: map<nat, Timer>, fired: seq<nat>, now: nat, t: nat, s: nat, rest: seq<nat>)
    requires rest != [] && NoDup(rest) && rest[0] in entries && entries[rest[0]].deadline > now && entries[rest[0]].slot == s
    requires 0 < t <= w.size && Sweeping(w, entries, fired, now, t, s, rest) && s == Turn(w.size, w.slot, t)
    ensures var id := rest[0];
            Sweeping(w, entries[id := entries[id].(slot := SlotAhead(w.(slot := s), entries[id].deadline - now))], fired, now, t, s, rest[1..])
  {
    hide Turn, SlotAhead, InOrder, NoDup;
    RestSplit(rest);
    assert CarriedSoFar(w, entries[rest[0]], w.entries[rest[0]], now, t, true);
  }

  // The least deadline met so far, and whether any was met.
  datatype Least = Least(found: bool, min: nat)

  function Meet(l: Least, deadline: nat): Least {
    if !l.found || deadline < l.min then Least(true, deadline) else l
  }

  // It belongs to a timer that this tick does not fire.
  ghost predicate Witnessed(l: Least, entries: map<nat, Timer>, now: nat) {
    l.found ==> exists i :: i in entries && entries[i].deadline == l.min && l.min > now
  }

  lemma WitnessKept(l: Least, entries: map<nat, Timer>, later: map<nat, Timer>, now: nat)
    requires Witnessed(l, entries, now)
    requires forall i :: i in entries && entries[i].deadline > now ==> i in later && later[i].deadline == entries[i].deadline
    ensures Witnessed(l, later, now)
  {
    if l.found {
      var i :| i in entries && entries[i].deadline == l.min && l.min > now;
      assert i in later;
    }
  }

  lemma WitnessMeet(l: Least, entries: map<nat, Timer>, id: nat, now: nat)
    requires Witnessed(l, entries, now) && id in entries && entries[id].deadline > now
    ensures Witnessed(Meet(l, entries[id].deadline), entries, now)
  {
  }

  class Timers {
    const size: nat
    const tickMs: nat
    var buckets: seq<seq<nat>>
    var entries: map<nat, Timer>
    var slot: nat
    var time: nat
    var min: nat
    var nextId: nat

    ghost function Now(): Wheel
      reads this
    {
      Wheel(size, tickMs, entries, slot, time, min, nextId)
    }

    ghost predicate Valid()
      reads this
    {
      |buckets| == size && Filed(buckets, entries) && Kept(Now())
    }

    constructor (wheelSize: nat, tick: nat, now: nat)
      requires wheelSize > 0 && tick > 0
      ensures Valid() && Now() == Wheel(wheelSize, tick, map[], 0, now, 0, 0) && Sound(Now())
    {
      size, tickMs, slot, time, min, nextId := wheelSize, tick, 0, now, 0, 0;
      entries := map[];
      buckets := seq(wheelSize, i => []);
    }

    method AddTimer(now: nat, timeout: nat) returns (id: nat)
      requires Valid() && now < UINT64
      modifies this
      ensures Valid() && AddStep(old(Now()), Now(), id, now, timeout)
      ensures old(Sound(Now())) ==> (Sound(Now()) <==> !(now == 0 && timeout == 0))
    {
      hide Filed, Sound;
      ghost var w := Now();
      id := nextId;
      nextId := nextId + 1;
      var deadline := if timeout > UINT64 - 1 - now then UINT64 - 1 else now + timeout;
      var ticks := timeout / tickMs;
      if ticks == 0 {
        ticks := 1;
      }
      var s := (slot + ticks) % UINT64 % size;
      FiledIn(buckets, entries, id, Timer(deadline, s));
      entries := entries[id := Timer(deadline, s)];
      buckets := buckets[s := buckets[s] + [id]];
      if min == 0 || deadline < min {
        min := deadline;
      }
      AddFacts(w, Now(), id, now, timeout);
    }

    // The caller's handle must be one of a pending timer.
    method CancelTimer(id: nat)
      requires Valid() && id in entries
      modifies this
      ensures Valid() && CancelStep(old(Now()), Now(), id) && (old(Sound(Now())) ==> Sound(Now()))
    {
      ghost var w := Now();
      var s := entries[id].slot;
      FiledAway(buckets, entries, id);
      buckets := buckets[s := Without(buckets[s], id)];
      entries := entries - {id};
      StepSound(w, Now(), Cancel(id));
    }

    // One timer in the bucket under the hand: fire it, or move it on.
    method Visit(now: nat, id: nat, fired: seq<nat>, least: Least, ghost w: Wheel, ghost t: nat, ghost rest: seq<nat>)
      returns (fired': seq<nat>, least': Least)
      requires |buckets| == size == w.size && Filed(buckets, entries) && OnWheel(w) && tickMs == w.tickMs
      requires 0 < t <= size && slot == Turn(w.size, w.slot, t)
      requires id in buckets[slot] && rest != [] && rest[0] == id && Sweeping(w, entries, fired, now, t, slot, rest)
      requires NoDup(rest) && (forall i :: i in rest ==> i in buckets[slot]) && Witnessed(least, entries, now)
      modifies `buckets, `entries
      ensures |buckets| == size && Filed(buckets, entries) && Sweeping(w, entries, fired', now, t, slot, rest[1..])
      ensures (forall i :: i in rest[1..] ==> i in buckets[slot]) && Witnessed(least', entries, now)
    {
      hide Sweeping, Filed, Without, Witnessed, Turn;
      ghost var before := entries;
      Member(buckets, entries, id, slot);
      if entries[id].deadline <= now {
        FireOne(w, entries, fired, now, t, slot, rest);
        FiledAway(buckets, entries, id);
        fired', least' := fired + [id], least;
        buckets := buckets[slot := Without(buckets[slot], id)];
        entries := entries - {id};
        WitnessKept(least, before, entries, now);
      } else {
        var remaining := entries[id].deadline - now;
        var ticks := remaining / tickMs;
        if ticks == 0 {
          ticks := 1;
        }
        var to := (slot + ticks) % UINT64 % size;
        assert to == SlotAhead(w.(slot := slot), remaining);
        MoveOne(w, entries, fired, now, t, slot, rest);
        fired', least' := fired, Meet(least, entries[id].deadline);
        if to != slot {
          ghost var x := entries[id].(slot := to);
          assert entries[id := x] == (entries - {id})[id := x];
          FiledAway(buckets, entries, id);
          FiledIn(buckets[slot := Without(buckets[slot], id)], entries - {id}, id, x);
          buckets := buckets[slot := Without(buckets[slot], id)];
          entries := entries[id := entries[id].(slot := to)];
          buckets := buckets[to := buckets[to] + [id]];
        } else {
          assert entries[id := entries[id].(slot := to)] == entries;
        }
        WitnessKept(least, before, entries, now);
        WitnessMeet(least, entries, id, now);
      }
    }

    // All the timers in the bucket under the hand, as it was when the hand came to it.
    method SweepBucket(now: nat, fired: seq<nat>, least: Least, ghost w: Wheel, ghost t: nat)
      returns (fired': seq<nat>, least': Least)
      requires |buckets| == size == w.size && Filed(buckets, entries) && OnWheel(w) && tickMs == w.tickMs
      requires 0 < t <= size && slot == Turn(w.size, w.slot, t)
      requires Sweeping(w, entries, fired, now, t, slot, buckets[slot]) && Witnessed(least, entries, now)
      modifies `buckets, `entries
      ensures |buckets| == size && Filed(buckets, entries) && Sweeping(w, entries, fired', now, t, slot, [])
      ensures Witnessed(least', entries, now)
    {
      hide Sweeping, Witnessed, Filed, Turn;
      fired', least' := fired, least;
      var bucket := buckets[slot];
      BucketDistinct(buckets, entries, slot);
      var i := 0;
      assert bucket[i..] == bucket;
      while i < |bucket|
        invariant i <= |bucket| && |buckets| == size && Filed(buckets, entries)
        invariant Sweeping(w, entries, fired', now, t, slot, bucket[i..]) && Witnessed(least', entries, now)
        invariant forall k :: k in bucket[i..] ==> k in buckets[slot]
      {
        assert bucket[i..][0] == bucket[i] && bucket[i..][1..] == bucket[i + 1..];
        fired', least' := Visit(now, bucket[i], fired', least', w, t, bucket[i..]);
        i := i + 1;
      }
      assert bucket[i..] == [];
    }

    // The least deadline of all pending timers, starting from what the sweep has met.
    method Rescan(least: Least, now: nat) returns (l: Least)
      requires |buckets| == size && Filed(buckets, entries) && Witnessed(least, entries, now)
      ensures Exact(if l.found then l.min else 0, entries)
    {
      hide Filed;
      l := least;
      var s := 0;
      while s < size
        invariant s <= size
        invariant l.found ==> exists i :: i in entries && entries[i].deadline == l.min
        invariant forall i :: i in entries && entries[i].slot < s ==> l.found && l.min <= entries[i].deadline
      {
        var k := 0;
        while k < |buckets[s]|
          invariant k <= |buckets[s]|
          invariant l.found ==> exists i :: i in entries && entries[i].deadline == l.min
          invariant forall i :: i in entries && entries[i].slot < s ==> l.found && l.min <= entries[i].deadline
          invariant forall j :: 0 <= j < k ==> buckets[s][j] in entries && l.found && l.min <= entries[buckets[s][j]].deadline
        {
          Member(buckets, entries, buckets[s][k], s);
          l := Meet(l, entries[buckets[s][k]].deadline);
          k := k + 1;
        }
        Members(buckets, entries, s);
        s := s + 1;
      }
      Slots(buckets, entries);
    }

    method TickClock(now: nat) returns (fired: seq<nat>)
      requires Valid() && time <= now
      modifies this
      ensures Valid() && TickStep(old(Now()), Now(), now, fired) && (old(Sound(Now())) ==> Sound(Now()))
    {
      hide Turn, Sweeping, Filed, Witnessed, Exact, TickStep, Sound;
      ghost var w := Now();
      fired := [];
      var least := Least(false, 0);
      var elapsed := now - time;
      var ticks := elapsed / tickMs;
      if ticks == 0 && elapsed > 0 {
        ticks := 1;
      }
      if ticks > size {
        ticks := size;
      }
      SweepStart(w, now);
      var t := 0;
      while t < ticks
        invariant t <= ticks && |buckets| == size && Filed(buckets, entries) && slot == Turn(w.size, w.slot, t)
        invariant Now() == w.(entries := entries, slot := slot)
        invariant Sweeping(w, entries, fired, now, t, 0, []) && Witnessed(least, entries, now)
      {
        TurnNext(w.size, w.slot, t);
        slot := (slot + 1) % size;
        Members(buckets, entries, slot);
        SweepNext(w, entries, fired, now, t, buckets[slot]);
        fired, least := SweepBucket(now, fired, least, w, t + 1);
        SweepDone(w, entries, fired, now, t + 1, slot);
        t := t + 1;
      }
      if |fired| > 0 {
        var l := Rescan(least, now);
        min := if l.found then l.min else 0;
      }
      time := now;
      SweptSound(w, Now(), now, fired);
    }

    // timer_next_deadline: without looking at the wheel, a bound below every pending deadline.
    method NextDeadline() returns (d: nat)
      requires Valid()
      ensures Sound(Now()) <==> forall i :: i in entries ==> 0 < d <= entries[i].deadline
    {
      d := min;
    }
  }

  lemma AddFacts(w: Wheel, v: Wheel, id: nat, now: nat, timeout: nat)
    requires Kept(w) && AddStep(w, v, id, now, timeout)
    ensures Kept(v) && (Sound(w) ==> (Sound(v) <==> !(now == 0 && timeout == 0)))
  {
    hide AddStep, Sound, Kept;
    StepSound(w, v, Add(id, now, timeout));
  }

  lemma Member(buckets: seq<seq<nat>>, entries: map<nat, Timer>, id: nat, s: nat)
    requires Filed(buckets, entries) && s < |buckets| && id in buckets[s]
    ensures id in entries && entries[id].slot == s && NoDup(buckets[s])
  {
    assert BucketOk(buckets[s], entries, s);
  }

  lemma Slots(buckets: seq<seq<nat>>, entries: map<nat, Timer>)
    requires Filed(buckets, entries)
    ensures forall i :: i in entries ==> entries[i].slot < |buckets|
  {
  }

  lemma BucketDistinct(buckets: seq<seq<nat>>, entries: map<nat, Timer>, s: nat)
    requires Filed(buckets, entries) && s < |buckets|
    ensures NoDup(buckets[s])
  {
    assert BucketOk(buckets[s], entries, s);
  }

  lemma Members(buckets: seq<seq<nat>>, entries: map<nat, Timer>, s: nat)
    requires Filed(buckets, entries) && s < |buckets|
    ensures forall i :: i in entries && entries[i].slot == s ==> i in buckets[s]
  {
  }

  lemma SweepStart(w: Wheel, now: nat)
    requires Kept(w)
    ensures Sweeping(w, w.entries, [], now, 0, 0, []) && Turn(w.size, w.slot, 0) == w.slot
    ensures Witnessed(Least(false, 0), w.entries, now)
  {
    TurnIs(w.size, w.slot, 0);
  }

  lemma SweptStep(w: Wheel, v: Wheel, now: nat, fired: seq<nat>)
    requires w.time <= now && OnWheel(w) && Sweeping(w, v.entries, fired, now, TicksOf(w, now), 0, [])
    requires v == w.(entries := v.entries, slot := Turn(w.size, w.slot, TicksOf(w, now)), time := now, min := v.min)
    requires if fired == [] then v.min == w.min else Exact(v.min, v.entries)
    ensures TickStep(w, v, now, fired)
  {
    hide Turn, TicksOf, Exact, Carried, Passed, InOrder, NoDup;
    var t := TicksOf(w, now);
    forall i | i in v.entries ensures v.entries[i] == w.entries[i].(slot := Carried(w, now, w.entries[i], t)) {
      assert CarriedSoFar(w, v.entries[i], w.entries[i], now, t, false);
    }
    forall i | i in w.entries && i !in fired && w.entries[i].deadline <= now ensures !Passed(w, w.entries[i].slot, t) {
      assert i in v.entries;
      CarriedOn(w, now, w.entries[i], t);
    }
  }

  lemma SweptSound(w: Wheel, v: Wheel, now: nat, fired: seq<nat>)
    requires Kept(w) && w.time <= now && Sweeping(w, v.entries, fired, now, TicksOf(w, now), 0, [])
    requires v == w.(entries := v.entries, slot := Turn(w.size, w.slot, TicksOf(w, now)), time := now, min := v.min)
    requires if fired == [] then v.min == w.min else Exact(v.min, v.entries)
    ensures TickStep(w, v, now, fired) && Kept(v) && (Sound(w) ==> Sound(v))
  {
    hide Turn, TicksOf, Exact, Sweeping, TickStep, Sound;
    SweptStep(w, v, now, fired);
    StepSound(w, v, Tick(now, fired));
  }
}
