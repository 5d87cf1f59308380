/** The chained hash map of src/types/map.c: its tables, what each operation does to them, and the
    operations themselves. Lookups give up after sixteen entries of a chain.
 */
module HashMaps {

  const MAX_CHAIN: nat := 16

  datatype Option<T> = None | Some(value: T)

  // Values are references to the map.
  datatype Entry = Entry(key: string, value: nat)

  type Buckets = seq<seq<Entry>>

  // Position of a key in a chain, or its length.
  function Position(chain: seq<Entry>, key: string): (i: nat)
    ensures i <= |chain|
    ensures i < |chain| ==> chain[i].key == key
    ensures forall j :: 0 <= j < i ==> chain[j].key != key
  {
    if chain == [] then 0 else if chain[0].key == key then 0 else 1 + Position(chain[1..], key)
  }

  // What a chain holds for a key.
  function Held(chain: seq<Entry>, key: string): Option<nat> {
    var i := Position(chain, key);
    if i < |chain| then Some(chain[i].value) else None
  }

  // find_entry_internal: only the first sixteen entries are looked at.
  function Find(chain: seq<Entry>, key: string): Option<nat> {
    var i := Position(chain, key);
    if i < |chain| && i < MAX_CHAIN then Some(chain[i].value) else None
  }

  // The lookup is right exactly if the key is not behind the sixteenth entry.
  lemma FindIff(chain: seq<Entry>, key: string)
    ensures Find(chain, key) == Held(chain, key) <==> Position(chain, key) < MAX_CHAIN || Position(chain, key) == |chain|
  {
  }

  predicate Distinct(chain: seq<Entry>) {
    forall i, j :: 0 <= i < j < |chain| ==> chain[i].key != chain[j].key
  }

  // --- Maps ---

  function Home(hash: string -> nat, cap: nat, key: string): (i: nat)
    requires cap > 0
    ensures i < cap
  {
    Rem(hash(key), cap)
  }

  function Rem(x: nat, c: nat): (r: nat)
    requires c > 0
    ensures r < c
  {
    x % c
  }

  function Quot(x: nat, c: nat): nat
    requires c > 0
  {
    x / c
  }

  ghost predicate ChainOk(hash: string -> nat, cap: nat, chain: seq<Entry>, b: nat)
    requires cap > 0
  {
    Distinct(chain) && forall i :: 0 <= i < |chain| ==> Home(hash, cap, chain[i].key) == b
  }

  // Each key is in its home bucket, once.
  ghost predicate Placed(hash: string -> nat, buckets: Buckets) {
    |buckets| > 0 && forall b :: 0 <= b < |buckets| ==> ChainOk(hash, |buckets|, buckets[b], b)
  }

  // Each entry is in its home bucket.
  ghost predicate Homed(hash: string -> nat, buckets: Buckets) {
    |buckets| > 0 && forall b, i :: 0 <= b < |buckets| && 0 <= i < |buckets[b]| ==> Home(hash, |buckets|, buckets[b][i].key) == b
  }

  lemma PlacedHomed(hash: string -> nat, buckets: Buckets)
    requires Placed(hash, buckets)
    ensures Homed(hash, buckets)
  {
    hide Rem, Distinct;
    forall b, i | 0 <= b < |buckets| && 0 <= i < |buckets[b]| ensures Home(hash, |buckets|, buckets[b][i].key) == b {
      assert ChainOk(hash, |buckets|, buckets[b], b);
    }
  }

  // The finite map that the buckets stand for.
  function Lookup(hash: string -> nat, buckets: Buckets, key: string): Option<nat>
    requires |buckets| > 0
  {
    Held(buckets[Home(hash, |buckets|, key)], key)
  }

  ghost predicate Short(buckets: Buckets) {
    forall b :: 0 <= b < |buckets| ==> |buckets[b]| <= MAX_CHAIN
  }

  function Total(buckets: Buckets): nat {
    if buckets == [] then 0 else |buckets[0]| + Total(buckets[1..])
  }

  // --- Chains ---

  lemma HeldIff(chain: seq<Entry>, key: string, v: nat)
    requires Distinct(chain)
    ensures Held(chain, key) == Some(v) <==> Entry(key, v) in chain
  {
    if Entry(key, v) in chain {
      var j :| 0 <= j < |chain| && chain[j] == Entry(key, v);
      var i := Position(chain, key);
      assert i <= j;
    }
  }

  lemma HeldSame(c1: seq<Entry>, c2: seq<Entry>, key: string)
    requires Distinct(c1) && Distinct(c2) && forall v :: Entry(key, v) in c1 <==> Entry(key, v) in c2
    ensures Held(c1, key) == Held(c2, key)
  {
    match Held(c1, key)
    case Some(v) => HeldIff(c1, key, v); HeldIff(c2, key, v);
    case None =>
      if Held(c2, key).Some? {
        HeldIff(c2, key, Held(c2, key).value);
        HeldIff(c1, key, Held(c2, key).value);
      }
  }

  // --- Doubling ---

  lemma MulGe(k: nat, c: nat)
    requires k >= 1
    ensures k * c >= c
  {
    assert k * c == (k - 1) * c + c;
  }

  lemma QuotientUnique(q: int, r: nat, q': int, r': nat, c: nat)
    requires q * c + r == q' * c + r' && r < c && r' < c
    ensures q == q' && r == r'
  {
    var d := q - q';
    assert d * c == q * c - q' * c;
    assert (-d) * c == -(d * c);
    if d >= 1 {
      MulGe(d, c);
    } else if d <= -1 {
      MulGe(-d, c);
    }
  }

  lemma DivMod(x: nat, c: nat)
    requires c > 0
    ensures x == Quot(x, c) * c + Rem(x, c)
  {
  }

  lemma TwoSteps(h: nat, c: nat, q: nat, r: nat, q': nat, r': nat)
    requires h == q * (2 * c) + r && r == q' * c + r'
    ensures h == (2 * q + q') * c + r'
  {
    assert q * (2 * c) == (2 * q) * c;
    assert (2 * q + q') * c == (2 * q) * c + q' * c;
  }

  // The new home of a key lies over its old one.
  lemma ModDouble(h: nat, c: nat)
    requires c > 0
    ensures Rem(Rem(h, 2 * c), c) == Rem(h, c)
  {
    hide Rem, Quot;
    DivMod(h, 2 * c);
    DivMod(Rem(h, 2 * c), c);
    DivMod(h, c);
    Same(h, c, Quot(h, 2 * c), Rem(h, 2 * c), Quot(Rem(h, 2 * c), c), Rem(Rem(h, 2 * c), c), Quot(h, c), Rem(h, c));
  }

  lemma Same(h: nat, c: nat, q: nat, r: nat, q': nat, r': nat, p: nat, s: nat)
    requires h == q * (2 * c) + r && r == q' * c + r' && r' < c && h == p * c + s && s < c
    ensures r' == s
  {
    TwoSteps(h, c, q, r, q', r');
    QuotientUnique(2 * q + q', r', p, s, c);
  }

  // --- Moving entries to a table of twice the size ---

  // The entry has been moved: it is in a bucket before the i-th, or among the first k of the i-th.
  predicate Moved(buckets: Buckets, b: nat, e: Entry, i: nat, k: nat)
    requires b < |buckets| && (b == i ==> k <= |buckets[b]|)
  {
    if b < i then e in buckets[b] else b == i && e in buckets[b][..k]
  }

  // How many entries of bucket b have been moved.
  function Share(buckets: Buckets, b: nat, i: nat, k: nat): nat
    requires b < |buckets|
  {
    if b < i then |buckets[b]| else if b == i then k else 0
  }

  ghost predicate Moving(hash: string -> nat, old_: Buckets, next: Buckets, i: nat, k: nat) {
    && |old_| > 0 && |next| == 2 * |old_| && i <= |old_| && (i < |old_| ==> k <= |old_[i]|) && (i == |old_| ==> k == 0)
    && Placed(hash, next)
    && (forall e: Entry :: e in next[Home(hash, |next|, e.key)] <==> Moved(old_, Home(hash, |old_|, e.key), e, i, k))
    && (forall j :: 0 <= j < |next| ==> |next[j]| <= Share(old_, Rem(j, |old_|), i, k))
    && Total(next) == Total(old_[..i]) + k
  }

  lemma {:induction false} TotalAdd(buckets: Buckets, j: nat, chain: seq<Entry>)
    requires j < |buckets|
    ensures Total(buckets[j := chain]) + |buckets[j]| == Total(buckets) + |chain|
    decreases |buckets|
  {
    var next := buckets[j := chain];
    if j > 0 {
      assert next[1..] == buckets[1..][j - 1 := chain];
      TotalAdd(buckets[1..], j - 1, chain);
    } else {
      assert next[1..] == buckets[1..];
    }
  }

  lemma {:induction false} TotalSplit(buckets: Buckets, i: nat)
    requires i < |buckets|
    ensures Total(buckets[..i + 1]) == Total(buckets[..i]) + |buckets[i]|
    decreases |buckets|
  {
    if i > 0 {
      assert buckets[..i + 1][1..] == buckets[1..][..i] && buckets[..i][1..] == buckets[1..][..i - 1];
      TotalSplit(buckets[1..], i - 1);
    } else {
      assert buckets[..1][1..] == [];
    }
  }

  // One entry, put in front of its new chain.
  lemma MoveOne(hash: string -> nat, old_: Buckets, next: Buckets, i: nat, k: nat)
    requires Placed(hash, old_) && i < |old_| && k < |old_[i]| && Moving(hash, old_, next, i, k)
    ensures var e := old_[i][k];
            var j := Home(hash, |next|, e.key);
            Moving(hash, old_, next[j := [e] + next[j]], i, k + 1)
  {
    hide Rem, Quot, Distinct, Total;
    var e, c := old_[i][k], |old_|;
    var j := Home(hash, |next|, e.key);
    var after := next[j := [e] + next[j]];
    assert ChainOk(hash, c, old_[i], i);
    ModDouble(hash(e.key), c);
    FreshKey(old_[i], k);
    forall x: Entry | x.key == e.key ensures x !in next[j] {
      assert x in next[Home(hash, |next|, x.key)] <==> Moved(old_, i, x, i, k);
    }
    assert ChainOk(hash, |next|, [e] + next[j], j) by { HeadOk(hash, |next|, next[j], j, e); }
    assert Placed(hash, after) by { PlacedUpdate(hash, next, j, [e] + next[j]); }
    forall x: Entry ensures x in after[Home(hash, |after|, x.key)] <==> Moved(old_, Home(hash, c, x.key), x, i, k + 1) {
      assert x in next[Home(hash, |next|, x.key)] <==> Moved(old_, Home(hash, c, x.key), x, i, k);
      assert old_[i][..k + 1] == old_[i][..k] + [e];
    }
    TotalAdd(next, j, [e] + next[j]);
  }

  lemma FreshKey(chain: seq<Entry>, k: nat)
    requires Distinct(chain) && k < |chain|
    ensures forall x: Entry :: x in chain[..k] ==> x.key != chain[k].key
  {
  }

  lemma HeadOk(hash: string -> nat, cap: nat, chain: seq<Entry>, b: nat, e: Entry)
    requires cap > 0 && ChainOk(hash, cap, chain, b) && Home(hash, cap, e.key) == b && forall x: Entry :: x.key == e.key ==> x !in chain
    ensures ChainOk(hash, cap, [e] + chain, b)
  {
    hide Rem;
    assert forall i :: 0 <= i < |chain| ==> chain[i].key != e.key by {
      forall i | 0 <= i < |chain| ensures chain[i].key != e.key {
        assert chain[i] in chain;
      }
    }
  }

  lemma PlacedUpdate(hash: string -> nat, buckets: Buckets, j: nat, chain: seq<Entry>)
    requires Placed(hash, buckets) && j < |buckets| && ChainOk(hash, |buckets|, chain, j)
    ensures Placed(hash, buckets[j := chain])
  {
    hide ChainOk;
  }

  lemma NextBucket(hash: string -> nat, old_: Buckets, next: Buckets, i: nat)
    requires i < |old_| && Moving(hash, old_, next, i, |old_[i]|)
    ensures Moving(hash, old_, next, i + 1, 0)
  {
    hide Rem, Total, Placed;
    TotalSplit(old_, i);
    assert old_[i][..|old_[i]|] == old_[i];
    forall e: Entry ensures e in next[Home(hash, |next|, e.key)] <==> Moved(old_, Home(hash, |old_|, e.key), e, i + 1, 0) {
      assert e in next[Home(hash, |next|, e.key)] <==> Moved(old_, Home(hash, |old_|, e.key), e, i, |old_[i]|);
    }
  }

  // A resized table stands for the same map, and its chains are pieces of the old ones.
  ghost predicate Resized(hash: string -> nat, old_: Buckets, next: Buckets) {
    && Placed(hash, old_) && Placed(hash, next) && |next| == 2 * |old_| && Total(next) == Total(old_)
    && (forall key :: Lookup(hash, next, key) == Lookup(hash, old_, key))
    && (forall j :: 0 <= j < |next| ==> |next[j]| <= |old_[Rem(j, |old_|)]|)
  }

  lemma AllMoved(hash: string -> nat, old_: Buckets, next: Buckets)
    requires Placed(hash, old_) && Moving(hash, old_, next, |old_|, 0)
    ensures Resized(hash, old_, next)
  {
    hide Rem, Total;
    assert old_[..|old_|] == old_;
    forall key ensures Lookup(hash, next, key) == Lookup(hash, old_, key) {
      var b, j := Home(hash, |old_|, key), Home(hash, |next|, key);
      assert ChainOk(hash, |old_|, old_[b], b) && ChainOk(hash, |next|, next[j], j);
      forall v ensures Entry(key, v) in next[j] <==> Entry(key, v) in old_[b] {
        assert Entry(key, v).key == key;
      }
      HeldSame(next[j], old_[b], key);
    }
  }

  lemma SomeBuckets(hash: string -> nat, buckets: Buckets)
    requires Placed(hash, buckets)
    ensures |buckets| > 0
  {
  }

  // Doubling never makes a chain longer.
  lemma ResizedShort(hash: string -> nat, old_: Buckets, next: Buckets)
    requires Resized(hash, old_, next) && Short(old_)
    ensures Short(next)
  {
    hide Rem;
  }

  // --- Doubling as the program does it ---

  function Put(hash: string -> nat, next: Buckets, e: Entry): (r: Buckets)
    requires |next| > 0
    ensures |r| == |next|
  {
    var j := Home(hash, |next|, e.key);
    next[j := [e] + next[j]]
  }

  function PutAll(hash: string -> nat, next: Buckets, chain: seq<Entry>): (r: Buckets)
    requires |next| > 0
    ensures |r| == |next|
    decreases |chain|
  {
    if chain == [] then next else PutAll(hash, Put(hash, next, chain[0]), chain[1..])
  }

  function MoveAll(hash: string -> nat, next: Buckets, buckets: Buckets): (r: Buckets)
    requires |next| > 0
    ensures |r| == |next|
    decreases |buckets|
  {
    if buckets == [] then next else MoveAll(hash, PutAll(hash, next, buckets[0]), buckets[1..])
  }

  function Nothing(n: nat): (r: Buckets)
    ensures |r| == n && forall b :: 0 <= b < n ==> r[b] == []
  {
    seq(n, i => [])
  }

  // map_resize to twice the capacity: entry by entry, each in front of its new chain.
  function Doubled(hash: string -> nat, buckets: Buckets): (r: Buckets)
    requires |buckets| > 0
    ensures |r| == 2 * |buckets|
  {
    MoveAll(hash, Nothing(2 * |buckets|), buckets)
  }

  lemma PutHomed(hash: string -> nat, next: Buckets, e: Entry)
    requires Homed(hash, next)
    ensures Homed(hash, Put(hash, next, e)) && Total(Put(hash, next, e)) == Total(next) + 1
  {
    hide Rem, Total;
    var j := Home(hash, |next|, e.key);
    TotalAdd(next, j, [e] + next[j]);
  }

  lemma {:induction false} PutAllHomed(hash: string -> nat, next: Buckets, chain: seq<Entry>)
    requires Homed(hash, next)
    ensures Homed(hash, PutAll(hash, next, chain)) && Total(PutAll(hash, next, chain)) == Total(next) + |chain|
    decreases |chain|
  {
    if chain != [] {
      hide Homed, Put, Total;
      PutHomed(hash, next, chain[0]);
      PutAllHomed(hash, Put(hash, next, chain[0]), chain[1..]);
    }
  }

  lemma {:induction false} MoveAllHomed(hash: string -> nat, next: Buckets, buckets: Buckets)
    requires Homed(hash, next)
    ensures Homed(hash, MoveAll(hash, next, buckets)) && Total(MoveAll(hash, next, buckets)) == Total(next) + Total(buckets)
    decreases |buckets|
  {
    if buckets != [] {
      hide Homed, PutAll;
      PutAllHomed(hash, next, buckets[0]);
      MoveAllHomed(hash, PutAll(hash, next, buckets[0]), buckets[1..]);
    }
  }

  // Whatever the table, doubling keeps all entries, each in its home bucket.
  lemma DoubledHomed(hash: string -> nat, buckets: Buckets)
    requires |buckets| > 0
    ensures Homed(hash, Doubled(hash, buckets)) && Total(Doubled(hash, buckets)) == Total(buckets)
  {
    hide MoveAll;
    var next := Nothing(2 * |buckets|);
    Empty(next);
    MoveAllHomed(hash, next, buckets);
  }

  lemma {:induction false} PutAllMoving(hash: string -> nat, old_: Buckets, next: Buckets, i: nat, k: nat)
    requires Placed(hash, old_) && i < |old_| && k <= |old_[i]| && |next| > 0 && Moving(hash, old_, next, i, k)
    ensures Moving(hash, old_, PutAll(hash, next, old_[i][k..]), i, |old_[i]|)
    decreases |old_[i]| - k
  {
    hide Moving, Placed, Rem;
    if k < |old_[i]| {
      MoveOne(hash, old_, next, i, k);
      assert old_[i][k..][1..] == old_[i][k + 1..];
      PutAllMoving(hash, old_, Put(hash, next, old_[i][k]), i, k + 1);
    }
  }

  lemma {:induction false} MoveAllMoving(hash: string -> nat, old_: Buckets, next: Buckets, i: nat)
    requires Placed(hash, old_) && i <= |old_| && |next| > 0 && Moving(hash, old_, next, i, 0)
    ensures Moving(hash, old_, MoveAll(hash, next, old_[i..]), |old_|, 0)
    decreases |old_| - i
  {
    hide Moving, Placed, Rem, PutAll;
    if i < |old_| {
      assert old_[i..][1..] == old_[i + 1..] && old_[i][0..] == old_[i];
      PutAllMoving(hash, old_, next, i, 0);
      NextBucket(hash, old_, PutAll(hash, next, old_[i]), i);
      MoveAllMoving(hash, old_, PutAll(hash, next, old_[i]), i + 1);
    }
  }

  // With each key once, a doubled table stands for the same map, and doubling only splits chains.
  lemma DoubledResized(hash: string -> nat, buckets: Buckets)
    requires Placed(hash, buckets)
    ensures Resized(hash, buckets, Doubled(hash, buckets))
  {
    hide Placed, Moving, MoveAll, Resized;
    SomeBuckets(hash, buckets);
    var next := Nothing(2 * |buckets|);
    NothingMoved(hash, buckets, next);
    assert buckets[0..] == buckets;
    MoveAllMoving(hash, buckets, next, 0);
    AllMoved(hash, buckets, Doubled(hash, buckets));
  }

  // --- The operations ---

  datatype Table = Table(buckets: Buckets, size: nat)

  function Chain(hash: string -> nat, buckets: Buckets, key: string): seq<Entry>
    requires |buckets| > 0
  {
    buckets[Home(hash, |buckets|, key)]
  }

  // The table into which map_set inserts: doubled if it is more than 0.7 full, and doubled (again) if
  // the key's chain has sixteen entries; `grow` and `deepen` say whether there is memory for it.
  function Grown(hash: string -> nat, t: Table, key: string, grow: bool, deepen: bool): (r: Buckets)
    requires |t.buckets| > 0
    ensures |r| > 0
  {
    var b := if t.size * 10 > |t.buckets| * 7 && grow then Doubled(hash, t.buckets) else t.buckets;
    if |Chain(hash, b, key)| >= MAX_CHAIN && deepen then Doubled(hash, b) else b
  }

  // The key is among the first sixteen entries of its chain; or it is in the chain, behind them.
  predicate Seen(hash: string -> nat, buckets: Buckets, key: string)
    requires |buckets| > 0
  {
    var chain := Chain(hash, buckets, key);
    Position(chain, key) < |chain| && Position(chain, key) < MAX_CHAIN
  }

  predicate Behind(hash: string -> nat, buckets: Buckets, key: string)
    requires |buckets| > 0
  {
    var chain := Chain(hash, buckets, key);
    MAX_CHAIN <= Position(chain, key) < |chain|
  }

  // map_set; `room` says whether there is memory for an entry.
  function SetStep(hash: string -> nat, t: Table, key: string, value: nat, grow: bool, deepen: bool, room: bool): (r: Table)
    requires |t.buckets| > 0
    ensures |r.buckets| > 0
  {
    if Seen(hash, t.buckets, key) then
      var b, chain := Home(hash, |t.buckets|, key), Chain(hash, t.buckets, key);
      var i := Position(chain, key);
      t.(buckets := t.buckets[b := chain[i := chain[i].(value := value)]])
    else
      var next := Grown(hash, t, key, grow, deepen);
      if room then Table(Put(hash, next, Entry(key, value)), t.size + 1) else t.(buckets := next)
  }

  // map_delete: the whole chain is looked at.
  function DeleteStep(hash: string -> nat, t: Table, key: string): (r: Table)
    requires |t.buckets| > 0
    ensures |r.buckets| > 0
  {
    var b, chain := Home(hash, |t.buckets|, key), Chain(hash, t.buckets, key);
    var i := Position(chain, key);
    if i == |chain| then t
    else Table(t.buckets[b := chain[..i] + chain[i + 1..]], if t.size > 0 then t.size - 1 else 0)
  }

  // Every table the operations make: each entry at home, all of them counted.
  ghost predicate TableOk(hash: string -> nat, t: Table) {
    Homed(hash, t.buckets) && t.size == Total(t.buckets)
  }

  lemma GrownOk(hash: string -> nat, t: Table, key: string, grow: bool, deepen: bool)
    requires TableOk(hash, t)
    ensures Homed(hash, Grown(hash, t, key, grow, deepen)) && Total(Grown(hash, t, key, grow, deepen)) == t.size
  {
    hide Homed, Total, Doubled, Rem;
    assert |t.buckets| > 0 by { HomedSome(hash, t.buckets); }
    var b := if t.size * 10 > |t.buckets| * 7 && grow then Doubled(hash, t.buckets) else t.buckets;
    DoubledHomed(hash, t.buckets);
    DoubledHomed(hash, b);
  }

  lemma HomedSome(hash: string -> nat, buckets: Buckets)
    requires Homed(hash, buckets)
    ensures |buckets| > 0
  {
  }

  lemma SetOk(hash: string -> nat, t: Table, key: string, value: nat, grow: bool, deepen: bool, room: bool)
    requires TableOk(hash, t) && |t.buckets| > 0
    ensures TableOk(hash, SetStep(hash, t, key, value, grow, deepen, room))
  {
    hide Total, Grown, Put, Rem;
    if Seen(hash, t.buckets, key) {
      var b, chain := Home(hash, |t.buckets|, key), Chain(hash, t.buckets, key);
      var i := Position(chain, key);
      TotalAdd(t.buckets, b, chain[i := chain[i].(value := value)]);
    } else {
      GrownOk(hash, t, key, grow, deepen);
      PutHomed(hash, Grown(hash, t, key, grow, deepen), Entry(key, value));
    }
  }

  lemma DeleteOk(hash: string -> nat, t: Table, key: string)
    requires TableOk(hash, t) && |t.buckets| > 0
    ensures TableOk(hash, DeleteStep(hash, t, key))
  {
    hide Total, Rem;
    var b, chain := Home(hash, |t.buckets|, key), Chain(hash, t.buckets, key);
    var i := Position(chain, key);
    if i < |chain| {
      TotalAdd(t.buckets, b, chain[..i] + chain[i + 1..]);
      TotalAtLeast(t.buckets, b);
      Removal(hash, t.buckets, b, i);
    }
  }

  lemma Removal(hash: string -> nat, buckets: Buckets, b: nat, i: nat)
    requires Homed(hash, buckets) && b < |buckets| && i < |buckets[b]|
    ensures Homed(hash, buckets[b := buckets[b][..i] + buckets[b][i + 1..]])
  {
    hide Rem;
    var chain := buckets[b];
    var next: Buckets := buckets[b := chain[..i] + chain[i + 1..]];
    forall c, j | 0 <= c < |next| && 0 <= j < |next[c]| ensures Home(hash, |next|, next[c][j].key) == c {
      if c == b {
        assert next[c][j] == chain[if j < i then j else j + 1];
      }
    }
  }

  lemma {:induction false} TotalAtLeast(buckets: Buckets, b: nat)
    requires b < |buckets|
    ensures Total(buckets) >= |buckets[b]|
    decreases |buckets|
  {
    if b > 0 {
      TotalAtLeast(buckets[1..], b - 1);
    }
  }

  // --- Changing one chain ---

  lemma OneChain(hash: string -> nat, buckets: Buckets, key: string, chain: seq<Entry>)
    requires |buckets| > 0
    requires forall q :: q != key ==> Held(chain, q) == Held(buckets[Home(hash, |buckets|, key)], q)
    ensures var next := buckets[Home(hash, |buckets|, key) := chain];
            forall q :: Lookup(hash, next, q) == if q == key then Held(chain, key) else Lookup(hash, buckets, q)
  {
    hide Rem, Held;
  }

  lemma HeldHead(chain: seq<Entry>, e: Entry)
    ensures Held([e] + chain, e.key) == Some(e.value)
    ensures forall q :: q != e.key ==> Held([e] + chain, q) == Held(chain, q)
  {
    forall q | q != e.key ensures Held([e] + chain, q) == Held(chain, q) {
      PositionHead(chain, e, q);
    }
  }

  lemma PositionHead(chain: seq<Entry>, e: Entry, q: string)
    ensures Position([e] + chain, q) == if q == e.key then 0 else 1 + Position(chain, q)
  {
    assert ([e] + chain)[1..] == chain;
  }

  lemma HeldReplace(chain: seq<Entry>, k: nat, v: nat)
    requires Distinct(chain) && k < |chain|
    ensures var next := chain[k := chain[k].(value := v)];
            && Distinct(next) && Held(next, chain[k].key) == Some(v)
            && forall q :: q != chain[k].key ==> Held(next, q) == Held(chain, q)
  {
    var next := chain[k := chain[k].(value := v)];
    assert next[k] == Entry(chain[k].key, v);
    HeldIff(next, chain[k].key, v);
    forall q | q != chain[k].key ensures Held(next, q) == Held(chain, q) {
      forall w ensures Entry(q, w) in next <==> Entry(q, w) in chain {
        if Entry(q, w) in chain {
          var j :| 0 <= j < |chain| && chain[j] == Entry(q, w);
          assert next[j] == Entry(q, w);
        }
      }
      HeldSame(next, chain, q);
    }
  }

  lemma HeldRemove(chain: seq<Entry>, k: nat)
    requires Distinct(chain) && k < |chain|
    ensures var next := chain[..k] + chain[k + 1..];
            && Distinct(next) && Held(next, chain[k].key) == None
            && forall q :: q != chain[k].key ==> Held(next, q) == Held(chain, q)
  {
    var next := chain[..k] + chain[k + 1..];
    assert forall i :: 0 <= i < |next| ==> next[i] == chain[if i < k then i else i + 1];
    forall q | q != chain[k].key ensures Held(next, q) == Held(chain, q) {
      forall w ensures Entry(q, w) in next <==> Entry(q, w) in chain {
        if Entry(q, w) in chain {
          var j :| 0 <= j < |chain| && chain[j] == Entry(q, w);
          assert next[if j < k then j else j - 1] == Entry(q, w);
        }
      }
      HeldSame(next, chain, q);
    }
  }

  class HashMap {
    const hash: string -> nat
    var buckets: Buckets
    var size: nat

    ghost predicate Valid()
      reads this
    {
      TableOk(hash, Now())
    }

    ghost function Now(): Table
      reads this
    {
      Table(buckets, size)
    }

    // The finite map.
    ghost function Get(key: string): Option<nat>
      requires |buckets| > 0
      reads this
    {
      Lookup(hash, buckets, key)
    }

    constructor (h: string -> nat, capacity: nat)
      ensures Valid() && hash == h && Now() == Fresh(capacity)
    {
      hash := h;
      size := 0;
      buckets := seq(if capacity > 0 then capacity else 16, i => []);
      new;
      Empty(buckets);
    }

    // find_entry_internal.
    method FindEntry(key: string) returns (b: nat, i: nat, found: bool)
      requires Valid()
      ensures b == Home(hash, |buckets|, key) && (found <==> Seen(hash, buckets, key))
      ensures found ==> i == Position(buckets[b], key)
    {
      hide Rem, Total;
      b := Home(hash, |buckets|, key);
      i, found := 0, false;
      while i < |buckets[b]| && i < MAX_CHAIN
        invariant i <= |buckets[b]| && i <= MAX_CHAIN && forall j :: 0 <= j < i ==> buckets[b][j].key != key
      {
        if buckets[b][i].key == key {
          found := true;
          return;
        }
        i := i + 1;
      }
    }

    // map_get: right if, and only if it has to be, the key is not behind the sixteenth entry of its chain.
    method MapGet(key: string) returns (r: Option<nat>)
      requires Valid()
      ensures r == Find(Chain(hash, buckets, key), key)
      ensures r == Get(key) <==> !Behind(hash, buckets, key)
      ensures Short(buckets) ==> r == Get(key)
    {
      hide Rem, Position, Total;
      var b, i, found := FindEntry(key);
      r := if found then Some(buckets[b][i].value) else None;
      FindIff(buckets[b], key);
    }

    // chain_depth_at.
    method ChainDepth(b: nat) returns (depth: nat)
      requires b < |buckets|
      ensures depth == |buckets[b]|
    {
      depth := 0;
      while depth < |buckets[b]|
        invariant depth <= |buckets[b]|
      {
        depth := depth + 1;
      }
    }

    // map_resize to twice the capacity, unless there is no memory for it.
    method Resize(room: bool)
      requires Valid()
      modifies `buckets
      ensures Valid() && buckets == if room then Doubled(hash, old(buckets)) else old(buckets)
      ensures room && old(Placed(hash, buckets)) ==> Resized(hash, old(buckets), buckets)
    {
      hide Placed, Resized, Total, Rem, PutAll, MoveAll, Homed;
      HomedSome(hash, buckets);
      if !room {
        return;
      }
      var next: Buckets := Nothing(2 * |buckets|);
      var i := 0;
      assert buckets[0..] == buckets;
      while i < |buckets|
        invariant buckets == old(buckets) && i <= |buckets| && |next| == 2 * |buckets|
        invariant MoveAll(hash, next, buckets[i..]) == Doubled(hash, buckets)
      {
        var k := 0;
        BucketOpened(hash, next, buckets, i);
        while k < |buckets[i]|
          invariant buckets == old(buckets) && k <= |buckets[i]| && |next| == 2 * |buckets|
          invariant MoveAll(hash, PutAll(hash, next, buckets[i][k..]), buckets[i + 1..]) == Doubled(hash, buckets)
        {
          var e := buckets[i][k];
          var j := Home(hash, |next|, e.key);
          EntryOpened(hash, next, buckets[i], k);
          next := next[j := [e] + next[j]];
          k := k + 1;
        }
        BucketDone(hash, next, buckets[i]);
        i := i + 1;
      }
      BucketsDone(hash, next, buckets);
      DoubledHomed(hash, buckets);
      if Placed(hash, buckets) {
        DoubledResized(hash, buckets);
      }
      buckets := next;
    }

    // map_set. `grow` and `deepen` say whether memory could be had for a larger table each time one is
    // wanted, and `room` whether it could be had for an entry.
    method MapSet(key: string, value: nat, grow: bool, deepen: bool, room: bool)
      requires Valid()
      modifies `buckets, `size
      ensures Valid() && Now() == SetStep(hash, old(Now()), key, value, grow, deepen, room)
      ensures old(Placed(hash, buckets)) ==> SetMeans(hash, old(Now()), Now(), key, value, room)
    {
      hide Rem, Position, Placed, Total, Homed, Doubled, Resized, SetMeans;
      HomedSome(hash, buckets);
      SetOk(hash, Now(), key, value, grow, deepen, room);
      if Placed(hash, buckets) {
        SetMeaning(hash, Now(), key, value, grow, deepen, room);
      }
      var b, i, found := FindEntry(key);
      if found {
        buckets := buckets[b := buckets[b][i := buckets[b][i].(value := value)]];
        return;
      }
      if size * 10 > |buckets| * 7 {
        Resize(grow);
      }
      b := Home(hash, |buckets|, key);
      var depth := ChainDepth(b);
      if depth >= MAX_CHAIN {
        Resize(deepen);
        b := Home(hash, |buckets|, key);
      }
      if !room {
        return;
      }
      buckets := buckets[b := [Entry(key, value)] + buckets[b]];
      size := size + 1;
    }

    // map_delete looks at the whole chain.
    method MapDelete(key: string)
      requires Valid()
      modifies `buckets, `size
      ensures Valid() && Now() == DeleteStep(hash, old(Now()), key)
      ensures old(Placed(hash, buckets)) ==> DeleteMeans(hash, old(Now()), Now(), key)
      ensures old(Short(buckets)) ==> Short(buckets)
    {
      hide Rem, Placed, Total, Homed, DeleteMeans;
      HomedSome(hash, buckets);
      DeleteOk(hash, Now(), key);
      if Placed(hash, buckets) {
        DeleteMeaning(hash, Now(), key);
      }
      var b := Home(hash, |buckets|, key);
      var chain := buckets[b];
      var i := 0;
      while i < |chain|
        invariant i <= |chain| && forall j :: 0 <= j < i ==> chain[j].key != key
      {
        if chain[i].key == key {
          TotalAtLeast(buckets, b);
          buckets := buckets[b := chain[..i] + chain[i + 1..]];
          size := size - 1;
          return;
        }
        i := i + 1;
      }
    }
  }

  // A new map.
  function Fresh(capacity: nat): (r: Table)
    ensures |r.buckets| > 0
  {
    Table(seq(if capacity > 0 then capacity else 16, i => []), 0)
  }

  lemma BucketOpened(hash: string -> nat, next: Buckets, buckets: Buckets, i: nat)
    requires |next| > 0 && i < |buckets|
    ensures MoveAll(hash, next, buckets[i..]) == MoveAll(hash, PutAll(hash, next, buckets[i][0..]), buckets[i + 1..])
  {
    hide PutAll;
    assert buckets[i..][1..] == buckets[i + 1..] && buckets[i][0..] == buckets[i];
  }

  lemma EntryOpened(hash: string -> nat, next: Buckets, chain: seq<Entry>, k: nat)
    requires |next| > 0 && k < |chain|
    ensures PutAll(hash, next, chain[k..]) == PutAll(hash, Put(hash, next, chain[k]), chain[k + 1..])
  {
    hide Put;
    assert chain[k..][1..] == chain[k + 1..];
  }

  lemma BucketDone(hash: string -> nat, next: Buckets, chain: seq<Entry>)
    requires |next| > 0
    ensures PutAll(hash, next, chain[|chain|..]) == next
  {
  }

  lemma BucketsDone(hash: string -> nat, next: Buckets, buckets: Buckets)
    requires |next| > 0
    ensures MoveAll(hash, next, buckets[|buckets|..]) == next
  {
  }

  lemma {:induction false} Empty(buckets: Buckets)
    requires |buckets| > 0 && forall b :: 0 <= b < |buckets| ==> buckets[b] == []
    ensures Total(buckets) == 0
    decreases |buckets|
  {
    if |buckets| > 1 {
      Empty(buckets[1..]);
    }
  }

  lemma NothingMoved(hash: string -> nat, buckets: Buckets, next: Buckets)
    requires Placed(hash, buckets) && |next| == 2 * |buckets| && forall b :: 0 <= b < |next| ==> next[b] == []
    ensures Moving(hash, buckets, next, 0, 0)
  {
    hide Rem;
    Empty(next);
    assert Total(buckets[..0]) == 0;
  }

  lemma Replaced(hash: string -> nat, buckets: Buckets, key: string, value: nat)
    requires Placed(hash, buckets) && var chain := buckets[Home(hash, |buckets|, key)]; Position(chain, key) < |chain|
    ensures var b := Home(hash, |buckets|, key);
            var i := Position(buckets[b], key);
            var next := buckets[b := buckets[b][i := buckets[b][i].(value := value)]];
            && Placed(hash, next)
            && forall q :: Lookup(hash, next, q) == if q == key then Some(value) else Lookup(hash, buckets, q)
  {
    hide Rem;
    var b := Home(hash, |buckets|, key);
    var chain := buckets[b];
    var i := Position(chain, key);
    assert ChainOk(hash, |buckets|, chain, b);
    HeldReplace(chain, i, value);
    OneChain(hash, buckets, key, chain[i := chain[i].(value := value)]);
    PlacedUpdate(hash, buckets, b, chain[i := chain[i].(value := value)]);
  }

  lemma Removed(hash: string -> nat, buckets: Buckets, key: string, i: nat)
    requires Placed(hash, buckets)
    requires var chain := buckets[Home(hash, |buckets|, key)]; i < |chain| && chain[i].key == key
    ensures var b := Home(hash, |buckets|, key);
            var next := buckets[b := buckets[b][..i] + buckets[b][i + 1..]];
            && Placed(hash, next) && Lookup(hash, buckets, key).Some?
            && forall q :: Lookup(hash, next, q) == if q == key then None else Lookup(hash, buckets, q)
  {
    hide Rem;
    var b := Home(hash, |buckets|, key);
    var chain := buckets[b];
    assert ChainOk(hash, |buckets|, chain, b);
    HeldRemove(chain, i);
    HeldIff(chain, key, chain[i].value);
    assert chain[i] == Entry(key, chain[i].value);
    OneChain(hash, buckets, key, chain[..i] + chain[i + 1..]);
    PlacedUpdate(hash, buckets, b, chain[..i] + chain[i + 1..]);
  }

  // An entry in front of its chain is found; it is the only one of its key if there was none.
  lemma Inserted(hash: string -> nat, buckets: Buckets, key: string, value: nat)
    requires Placed(hash, buckets)
    ensures var b := Home(hash, |buckets|, key);
            var next := buckets[b := [Entry(key, value)] + buckets[b]];
            && (forall q :: Lookup(hash, next, q) == if q == key then Some(value) else Lookup(hash, buckets, q))
            && (Placed(hash, next) <==> Lookup(hash, buckets, key) == None)
  {
    hide Rem;
    var b, e := Home(hash, |buckets|, key), Entry(key, value);
    var chain := buckets[b];
    var next: Buckets := buckets[b := [e] + chain];
    assert ChainOk(hash, |buckets|, chain, b);
    HeldHead(chain, e);
    OneChain(hash, buckets, key, [e] + chain);
    var i := Position(chain, key);
    if i < |chain| {
      assert next[b][0].key == next[b][i + 1].key;
      assert !ChainOk(hash, |next|, next[b], b);
    } else {
      forall x: Entry | x.key == key ensures x !in chain {
        if x in chain {
          HeldIff(chain, key, x.value);
        }
      }
      HeadOk(hash, |buckets|, chain, b, e);
      PlacedUpdate(hash, buckets, b, [e] + chain);
    }
  }

  // What setting a key means for the finite map: the key has the value, unless the entry it needs
  // cannot be had; every other key has what it had; each key stays once exactly if the key was not behind
  // the sixteenth entry; and the size counts the entries.
  ghost predicate SetMeans(hash: string -> nat, t: Table, u: Table, key: string, value: nat, room: bool)
    requires |t.buckets| > 0 && |u.buckets| > 0
  {
    var seen, behind := Seen(hash, t.buckets, key), Behind(hash, t.buckets, key);
    && (forall q :: Lookup(hash, u.buckets, q) == if q == key && (seen || room) then Some(value) else Lookup(hash, t.buckets, q))
    && (Placed(hash, u.buckets) <==> !room || !behind)
    && u.size == t.size + if room && !seen then 1 else 0
  }

  lemma SetMeaning(hash: string -> nat, t: Table, key: string, value: nat, grow: bool, deepen: bool, room: bool)
    requires Placed(hash, t.buckets)
    ensures SetMeans(hash, t, SetStep(hash, t, key, value, grow, deepen, room), key, value, room)
  {
    hide Rem, Grown, Placed;
    SomeBuckets(hash, t.buckets);
    if Seen(hash, t.buckets, key) {
      Replaced(hash, t.buckets, key, value);
    } else {
      var next := Grown(hash, t, key, grow, deepen);
      GrownSame(hash, t, key, grow, deepen);
      Inserted(hash, next, key, value);
    }
  }

  // Growing a table changes neither what it stands for nor that each key is there once; and chains
  // get no longer.
  lemma GrownSame(hash: string -> nat, t: Table, key: string, grow: bool, deepen: bool)
    requires Placed(hash, t.buckets)
    ensures var next := Grown(hash, t, key, grow, deepen);
            && Placed(hash, next) && (forall q :: Lookup(hash, next, q) == Lookup(hash, t.buckets, q))
            && (Short(t.buckets) ==> Short(next))
  {
    hide Placed, Doubled, Rem, Short, Lookup;
    SomeBuckets(hash, t.buckets);
    var b := if t.size * 10 > |t.buckets| * 7 && grow then Doubled(hash, t.buckets) else t.buckets;
    DoubledSame(hash, t.buckets);
    DoubledSame(hash, b);
  }

  lemma DoubledSame(hash: string -> nat, buckets: Buckets)
    requires Placed(hash, buckets) && |buckets| > 0
    ensures var next := Doubled(hash, buckets);
            && Placed(hash, next) && (forall q :: Lookup(hash, next, q) == Lookup(hash, buckets, q))
            && (Short(buckets) ==> Short(next))
  {
    hide Doubled, Placed, Lookup, Short, Rem;
    DoubledResized(hash, buckets);
    assert Short(buckets) ==> Short(Doubled(hash, buckets)) by {
      if Short(buckets) {
        ResizedShort(hash, buckets, Doubled(hash, buckets));
      }
    }
  }

  // What deleting a key means: it is gone, every other key has what it had, and the size counts it.
  ghost predicate DeleteMeans(hash: string -> nat, t: Table, u: Table, key: string)
    requires |t.buckets| > 0 && |u.buckets| > 0
  {
    && Placed(hash, u.buckets)
    && (forall q :: Lookup(hash, u.buckets, q) == if q == key then None else Lookup(hash, t.buckets, q))
    && u.size + (if Lookup(hash, t.buckets, key).Some? then 1 else 0) == t.size
  }

  lemma DeleteMeaning(hash: string -> nat, t: Table, key: string)
    requires Placed(hash, t.buckets) && |t.buckets| > 0 && t.size == Total(t.buckets)
    ensures DeleteMeans(hash, t, DeleteStep(hash, t, key), key)
  {
    hide Rem, Placed, Total;
    var chain := Chain(hash, t.buckets, key);
    var i := Position(chain, key);
    TotalAtLeast(t.buckets, Home(hash, |t.buckets|, key));
    if i < |chain| {
      Removed(hash, t.buckets, key, i);
    }
  }
}
