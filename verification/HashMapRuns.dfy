/** Every run of operations on a hash map, from a new one: it is the finite map exactly as long as no
    operation meets a key that is behind the sixteenth entry of its chain.
 */
module HashMapRuns {
  import opened HashMaps

  // Each set is told whether there will be memory for the tables and the entry it may want.
  datatype Op =
    | Set(key: string, value: nat, grow: bool, deepen: bool, room: bool)
    | Fetch(key: string)
    | Delete(key: string)

  // --- What the program does ---

  function Next(hash: string -> nat, t: Table, op: Op): (r: Table)
    requires |t.buckets| > 0
    ensures |r.buckets| > 0
  {
    match op
    case Set(key, value, grow, deepen, room) => SetStep(hash, t, key, value, grow, deepen, room)
    case Fetch(_) => t
    case Delete(key) => DeleteStep(hash, t, key)
  }

  // The table after the first n operations on a new map.
  function After(hash: string -> nat, capacity: nat, ops: seq<Op>, n: nat): (r: Table)
    requires n <= |ops|
    ensures |r.buckets| > 0
  {
    if n == 0 then Fresh(capacity) else Next(hash, After(hash, capacity, ops, n - 1), ops[n - 1])
  }

  // What map_get answers.
  function Answer(hash: string -> nat, t: Table, key: string): Option<nat>
    requires |t.buckets| > 0
  {
    Find(Chain(hash, t.buckets, key), key)
  }

  // --- What it is meant to do ---

  function In(m: map<string, nat>, key: string): Option<nat> {
    if key in m then Some(m[key]) else None
  }

  // A new key needs an entry; a known one does not.
  function Apply(m: map<string, nat>, op: Op): map<string, nat> {
    match op
    case Set(key, value, _, _, room) => if key in m || room then m[key := value] else m
    case Fetch(_) => m
    case Delete(key) => m - {key}
  }

  function Meant(ops: seq<Op>, n: nat): map<string, nat>
    requires n <= |ops|
  {
    if n == 0 then map[] else Apply(Meant(ops, n - 1), ops[n - 1])
  }

  // --- When they agree ---

  // Each key is there once, and the table stands for the map.
  ghost predicate Agrees(hash: string -> nat, t: Table, m: map<string, nat>) {
    && Placed(hash, t.buckets) && t.size == Total(t.buckets)
    && |t.buckets| > 0 && forall q :: Lookup(hash, t.buckets, q) == In(m, q)
  }

  predicate Answered(hash: string -> nat, t: Table, m: map<string, nat>, op: Op)
    requires |t.buckets| > 0
  {
    op.Fetch? ==> Answer(hash, t, op.key) == In(m, op.key)
  }

  // A get or a set of a key behind the sixteenth entry. (A set that finds no memory for the second
  // entry does no harm if the value is the one the key has.)
  predicate Misses(hash: string -> nat, t: Table, op: Op)
    requires |t.buckets| > 0
  {
    match op
    case Set(key, value, _, _, room) => Behind(hash, t.buckets, key) && (room || Lookup(hash, t.buckets, key) != Some(value))
    case Fetch(key) => Behind(hash, t.buckets, key)
    case Delete(_) => false
  }

  lemma SetExact(hash: string -> nat, t: Table, m: map<string, nat>, op: Op)
    requires Agrees(hash, t, m) && op.Set?
    ensures Agrees(hash, Next(hash, t, op), Apply(m, op)) <==> !Misses(hash, t, op)
  {
    hide Placed, Total, SetStep, Position, Homed;
    var u := Next(hash, t, op);
    PlacedHomed(hash, t.buckets);
    SetMeaning(hash, t, op.key, op.value, op.grow, op.deepen, op.room);
    SetOk(hash, t, op.key, op.value, op.grow, op.deepen, op.room);
    assert Lookup(hash, t.buckets, op.key) == In(m, op.key);
    assert Lookup(hash, u.buckets, op.key) == In(Apply(m, op), op.key) <==> !Misses(hash, t, op) || op.room;
    forall q | q != op.key ensures Lookup(hash, u.buckets, q) == In(Apply(m, op), q) {
      assert Lookup(hash, t.buckets, q) == In(m, q);
    }
  }

  lemma DeleteExact(hash: string -> nat, t: Table, m: map<string, nat>, op: Op)
    requires Agrees(hash, t, m) && op.Delete?
    ensures Agrees(hash, Next(hash, t, op), Apply(m, op))
  {
    hide Placed, Total, DeleteStep, Position, Homed;
    PlacedHomed(hash, t.buckets);
    DeleteMeaning(hash, t, op.key);
    DeleteOk(hash, t, op.key);
  }

  // One operation: the program and the finite map go on agreeing, and a get is answered rightly, if and
  // only if the operation does not meet a key behind the sixteenth entry.
  lemma StepExact(hash: string -> nat, t: Table, m: map<string, nat>, op: Op)
    requires Agrees(hash, t, m)
    ensures Agrees(hash, Next(hash, t, op), Apply(m, op)) && Answered(hash, t, m, op) <==> !Misses(hash, t, op)
  {
    hide Placed, Total, Position;
    match op
    case Set(_, _, _, _, _) => SetExact(hash, t, m, op);
    case Delete(_) => DeleteExact(hash, t, m, op);
    case Fetch(key) =>
      FindIff(Chain(hash, t.buckets, key), key);
      assert Lookup(hash, t.buckets, key) == In(m, key);
  }

  lemma FreshAgrees(hash: string -> nat, capacity: nat)
    ensures Agrees(hash, Fresh(capacity), map[])
  {
    hide Rem;
    Empty(Fresh(capacity).buckets);
  }

  // All is well up to the n-th operation.
  ghost predicate Well(hash: string -> nat, capacity: nat, ops: seq<Op>, n: nat)
    requires n <= |ops|
  {
    && (forall k :: 0 <= k <= n ==> Agrees(hash, After(hash, capacity, ops, k), Meant(ops, k)))
    && (forall k :: 0 <= k < n ==> Answered(hash, After(hash, capacity, ops, k), Meant(ops, k), ops[k]))
  }

  // The k-th operation meets no such key.
  predicate Hits(hash: string -> nat, capacity: nat, ops: seq<Op>, k: nat)
    requires k < |ops|
  {
    !Misses(hash, After(hash, capacity, ops, k), ops[k])
  }

  // For every hash function, capacity and sequence of operations, and whatever memory there is: the map
  // agrees with the finite map all along, and every get is answered rightly, if and only if no get or set
  // meets a key behind the sixteenth entry of its chain.
  lemma {:induction false} RunExact(hash: string -> nat, capacity: nat, ops: seq<Op>, n: nat)
    requires n <= |ops|
    ensures Well(hash, capacity, ops, n) <==> forall k :: 0 <= k < n ==> Hits(hash, capacity, ops, k)
    decreases n
  {
    hide Agrees, Answered, Misses, Next, Apply;
    if n == 0 {
      FreshAgrees(hash, capacity);
    } else {
      RunExact(hash, capacity, ops, n - 1);
      if Well(hash, capacity, ops, n - 1) {
        StepExact(hash, After(hash, capacity, ops, n - 1), Meant(ops, n - 1), ops[n - 1]);
        WellNext(hash, capacity, ops, n);
        assert Well(hash, capacity, ops, n) <==> Hits(hash, capacity, ops, n - 1);
      } else {
        WellBefore(hash, capacity, ops, n);
      }
    }
  }

  lemma WellNext(hash: string -> nat, capacity: nat, ops: seq<Op>, n: nat)
    requires 0 < n <= |ops| && Well(hash, capacity, ops, n - 1)
    ensures Well(hash, capacity, ops, n) <==>
            && Agrees(hash, After(hash, capacity, ops, n), Meant(ops, n))
            && Answered(hash, After(hash, capacity, ops, n - 1), Meant(ops, n - 1), ops[n - 1])
  {
    hide Agrees, Answered, After, Meant;
  }

  lemma WellBefore(hash: string -> nat, capacity: nat, ops: seq<Op>, n: nat)
    requires 0 < n <= |ops|
    ensures Well(hash, capacity, ops, n) ==> Well(hash, capacity, ops, n - 1)
  {
    hide Agrees, Answered, After, Meant;
  }

  // In particular while no chain is longer than sixteen.
  lemma ShortRun(hash: string -> nat, capacity: nat, ops: seq<Op>, n: nat)
    requires n <= |ops| && forall k :: 0 <= k < n ==> Short(After(hash, capacity, ops, k).buckets)
    ensures Well(hash, capacity, ops, n)
  {
    hide After, Meant, Well;
    RunExact(hash, capacity, ops, n);
    forall k | 0 <= k < n ensures Hits(hash, capacity, ops, k) {
      assert Short(After(hash, capacity, ops, k).buckets);
    }
  }

  // A set keeps all chains short exactly if it replaces a value, finds no memory for an entry, or the
  // chain it inserts into has less than sixteen entries after the table has grown.
  lemma SetShort(hash: string -> nat, t: Table, key: string, value: nat, grow: bool, deepen: bool, room: bool)
    requires Placed(hash, t.buckets) && |t.buckets| > 0 && Short(t.buckets)
    ensures Short(SetStep(hash, t, key, value, grow, deepen, room).buckets) <==>
            Seen(hash, t.buckets, key) || !room || |Chain(hash, Grown(hash, t, key, grow, deepen), key)| < MAX_CHAIN
  {
    hide Placed, Grown, Rem, Position;
    GrownSame(hash, t, key, grow, deepen);
    var next := Grown(hash, t, key, grow, deepen);
    if !Seen(hash, t.buckets, key) && room {
      var b := Home(hash, |next|, key);
      assert Put(hash, next, Entry(key, value))[b] == [Entry(key, value)] + next[b];
    }
  }

  // --- Keys that collide ---

  function Sets(keys: seq<string>, growths: seq<(bool, bool)>): (r: seq<Op>)
    requires |growths| == |keys|
    ensures |r| == |keys|
  {
    seq(|keys|, i requires 0 <= i < |keys| => Set(keys[i], i, growths[i].0, growths[i].1, true))
  }

  ghost predicate Collide(hash: string -> nat, keys: seq<string>) {
    && (forall i, j :: 0 <= i < j < |keys| ==> keys[i] != keys[j])
    && (forall i, j :: 0 <= i < |keys| && 0 <= j < |keys| ==> hash(keys[i]) == hash(keys[j]))
  }

  // If all keys have one hash, they are all in one chain, whatever the capacity.
  lemma {:induction false} OneChainOnly(buckets: Buckets, b: nat)
    requires b < |buckets| && forall c :: 0 <= c < |buckets| && c != b ==> buckets[c] == []
    ensures Total(buckets) == |buckets[b]|
    decreases |buckets|
  {
    if b > 0 {
      OneChainOnly(buckets[1..], b - 1);
    } else if |buckets| > 1 {
      Empty(buckets[1..]);
    }
  }

  lemma Crowded(hash: string -> nat, t: Table, m: map<string, nat>, key: string)
    requires Agrees(hash, t, m) && forall q :: q in m ==> hash(q) == hash(key)
    ensures |Chain(hash, t.buckets, key)| == t.size
  {
    hide Total, Rem, Agrees;
    AgreesFacts(hash, t, m);
    var b := Home(hash, |t.buckets|, key);
    forall c | 0 <= c < |t.buckets| ensures t.buckets[c] == [] || c == b {
      if t.buckets[c] != [] {
        NobodyElse(hash, t, m, key, c);
      }
    }
    OneChainOnly(t.buckets, b);
  }

  lemma AgreesFacts(hash: string -> nat, t: Table, m: map<string, nat>)
    requires Agrees(hash, t, m)
    ensures |t.buckets| > 0 && t.size == Total(t.buckets)
  {
  }

  lemma NobodyElse(hash: string -> nat, t: Table, m: map<string, nat>, key: string, c: nat)
    requires Agrees(hash, t, m) && (forall q :: q in m ==> hash(q) == hash(key)) && c < |t.buckets| && t.buckets[c] != []
    ensures c == Home(hash, |t.buckets|, key)
  {
    hide Total, Rem;
    var e := t.buckets[c][0];
    assert ChainOk(hash, |t.buckets|, t.buckets[c], c);
    assert Home(hash, |t.buckets|, e.key) == c;
    HeldIff(t.buckets[c], e.key, e.value);
    assert Lookup(hash, t.buckets, e.key) == In(m, e.key);
  }

  // The first n of the keys are set, and the map is right so far.
  lemma {:induction false} Filled(hash: string -> nat, capacity: nat, keys: seq<string>, growths: seq<(bool, bool)>, n: nat)
    requires |growths| == |keys| && Collide(hash, keys) && n <= |keys| && n <= MAX_CHAIN + 1
    ensures var ops := Sets(keys, growths);
            var t, m := After(hash, capacity, ops, n), Meant(ops, n);
            && Agrees(hash, t, m) && t.size == n && Holding(m, keys, n)
    decreases n
  {
    hide Agrees, Next, Apply, Collide, Holding;
    var ops := Sets(keys, growths);
    if n == 0 {
      FreshAgrees(hash, capacity);
      assert Holding(map[], keys, 0) by { HoldingNone(keys); }
    } else {
      Filled(hash, capacity, keys, growths, n - 1);
      FilledStep(hash, After(hash, capacity, ops, n - 1), Meant(ops, n - 1), keys, n - 1, ops[n - 1]);
    }
  }

  ghost predicate Holding(m: map<string, nat>, keys: seq<string>, n: nat)
    requires n <= |keys|
  {
    forall q :: q in m <==> q in keys[..n]
  }

  lemma HoldingNone(keys: seq<string>)
    ensures Holding(map[], keys, 0)
  {
  }

  lemma FilledStep(hash: string -> nat, t: Table, m: map<string, nat>, keys: seq<string>, n: nat, op: Op)
    requires n < |keys| && n <= MAX_CHAIN && Collide(hash, keys) && Agrees(hash, t, m) && t.size == n
    requires Holding(m, keys, n) && op.Set? && op.key == keys[n] && op.room
    ensures Agrees(hash, Next(hash, t, op), Apply(m, op)) && Next(hash, t, op).size == n + 1 && Holding(Apply(m, op), keys, n + 1)
  {
    hide SetStep, Rem, Total, Placed;
    forall q | q in m ensures hash(q) == hash(op.key) {
      var i :| 0 <= i < n && keys[..n][i] == q;
    }
    Crowded(hash, t, m, op.key);
    assert op.key !in m;
    assert Lookup(hash, t.buckets, op.key) == In(m, op.key);
    SetExact(hash, t, m, op);
    SetMeaning(hash, t, op.key, op.value, op.grow, op.deepen, op.room);
    assert keys[..n + 1] == keys[..n] + [keys[n]];
  }

  // Seventeen keys of one hash are set one after another, from a new map of any capacity, and however the
  // table could grow. Then one of them is not found, though it is there; and setting it makes a second
  // entry for it.
  lemma SeventeenCollide(hash: string -> nat, capacity: nat, keys: seq<string>, growths: seq<(bool, bool)>)
    returns (key: string)
    requires |keys| == |growths| == MAX_CHAIN + 1 && Collide(hash, keys)
    ensures key in keys
    ensures var ops := Sets(keys, growths);
            var t := After(hash, capacity, ops, |ops|);
            && Answer(hash, t, key) == None && Lookup(hash, t.buckets, key).Some? && key in Meant(ops, |ops|)
            && forall value, grow, deepen :: !Placed(hash, SetStep(hash, t, key, value, grow, deepen, true).buckets)
  {
    var ops, n := Sets(keys, growths), |keys|;
    var t, m := After(hash, capacity, ops, n), Meant(ops, n);
    Filled(hash, capacity, keys, growths, n);
    assert keys[..n] == keys;
    forall q | q in m ensures hash(q) == hash(keys[0]) {
      var i :| 0 <= i < n && keys[i] == q;
    }
    hide After, Meant, SetStep, Rem, Total;
    Crowded(hash, t, m, keys[0]);
    var b := Home(hash, |t.buckets|, keys[0]);
    var chain := t.buckets[b];
    assert ChainOk(hash, |t.buckets|, chain, b);
    key := chain[MAX_CHAIN].key;
    assert Home(hash, |t.buckets|, key) == b;
    LastOne(chain, MAX_CHAIN);
    assert Lookup(hash, t.buckets, key) == In(m, key);
    forall value, grow, deepen ensures !Placed(hash, SetStep(hash, t, key, value, grow, deepen, true).buckets) {
      SetMeaning(hash, t, key, value, grow, deepen, true);
    }
  }

  lemma LastOne(chain: seq<Entry>, k: nat)
    requires Distinct(chain) && k < |chain|
    ensures Position(chain, chain[k].key) == k
  {
    var i := Position(chain, chain[k].key);
    assert i <= k;
  }

  // Such keys are among any sixteen times as many keys as there are hashes, and one.
  lemma {:induction false} Pigeonhole(hash: string -> nat, n: nat, pool: seq<string>) returns (keys: seq<string>)
    requires |pool| > MAX_CHAIN * n && (forall i :: 0 <= i < |pool| ==> hash(pool[i]) < n)
    requires forall i, j :: 0 <= i < j < |pool| ==> pool[i] != pool[j]
    ensures |keys| == MAX_CHAIN + 1 && Collide(hash, keys) && forall i :: 0 <= i < |keys| ==> keys[i] in pool
    decreases n
  {
    assert hash(pool[0]) < n;
    var same, rest := Split(hash, n - 1, pool);
    if |same| > MAX_CHAIN {
      keys := same[..MAX_CHAIN + 1];
    } else {
      keys := Pigeonhole(hash, n - 1, rest);
    }
  }

  // The keys of one hash, and the others.
  lemma {:induction false} Split(hash: string -> nat, h: nat, pool: seq<string>) returns (same: seq<string>, rest: seq<string>)
    requires forall i, j :: 0 <= i < j < |pool| ==> pool[i] != pool[j]
    ensures |same| + |rest| == |pool|
    ensures (forall i :: 0 <= i < |same| ==> same[i] in pool && hash(same[i]) == h)
    ensures (forall i :: 0 <= i < |rest| ==> rest[i] in pool && hash(rest[i]) != h)
    ensures forall i, j :: 0 <= i < j < |same| ==> same[i] != same[j]
    ensures forall i, j :: 0 <= i < j < |rest| ==> rest[i] != rest[j]
    decreases |pool|
  {
    same, rest := [], [];
    if pool != [] {
      var k := |pool| - 1;
      var last := pool[k];
      same, rest := Split(hash, h, pool[..k]);
      assert last !in pool[..k];
      if hash(last) == h {
        same := same + [last];
      } else {
        rest := rest + [last];
      }
    }
  }

  // So there are such keys for every hash function with finitely many hashes.
  lemma SomeCollide(hash: string -> nat, n: nat) returns (keys: seq<string>)
    requires forall key :: hash(key) < n
    ensures |keys| == MAX_CHAIN + 1 && Collide(hash, keys)
  {
    var pool := seq(MAX_CHAIN * n + 1, i requires 0 <= i => seq(i, _ => 'k'));
    forall i, j | 0 <= i < j < |pool| ensures pool[i] != pool[j] {
      assert |pool[i]| == i && |pool[j]| == j;
    }
    keys := Pigeonhole(hash, n, pool);
  }
}
