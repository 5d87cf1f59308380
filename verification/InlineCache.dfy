/** The inline cache of src/vm/ic.c: it remembers, for up to eight maps by their address, the bucket in
    which a key was last found. The bucket may be stale; a hit is still what the map holds.
 */
module InlineCaches {
  import opened HashMaps

  const MAX_ENTRIES: nat := 8
  const UINT64: nat := 0x1_0000_0000_0000_0000
  const MULTIPLIER: nat := 0x9E37_79B9_7F4A_7C15

  datatype State = Uninitialized | Mono | Poly | Mega

  datatype Slot = Slot(shape: nat, bucket: nat)

  datatype Cache = Cache(state: State, count: nat, slots: seq<Slot>)

  const EMPTY: Cache := Cache(Uninitialized, 0, seq(MAX_ENTRIES, i => Slot(0, 0)))

  // Exclusive or of two numbers of three bits.
  function Xor3(a: nat, b: nat): (r: nat)
    requires a < 8 && b < 8
    ensures r < 8
  {
    ((a as bv3) ^ (b as bv3)) as nat
  }

  // Multiplicative hashing of the address to one of the slots.
  function Index(shape: nat): (i: nat)
    ensures i < MAX_ENTRIES
  {
    var h := shape * MULTIPLIER % UINT64;
    Xor3(h / 0x2000_0000_0000_0000, h % 8)
  }

  predicate Shaped(c: Cache) {
    |c.slots| == MAX_ENTRIES
  }

  // ic_update.
  function Update(c: Cache, shape: nat, bucket: nat): (r: Cache)
    requires Shaped(c)
    ensures Shaped(r)
  {
    if c.state.Mega? then c
    else
      var i := Index(shape);
      if c.slots[i].shape == shape then c.(slots := c.slots[i := Slot(shape, bucket)])
      else
        var n := (c.count + 1) % 256;
        if n == 1 then Cache(Mono, n, c.slots[i := Slot(shape, bucket)])
        else if n <= MAX_ENTRIES then Cache(Poly, n, c.slots[i := Slot(shape, bucket)])
        else Cache(Mega, n, c.slots)
  }

  function Updates(c: Cache, us: seq<Slot>): (r: Cache)
    requires Shaped(c)
    ensures Shaped(r)
  {
    if us == [] then c else Update(Updates(c, us[..|us| - 1]), us[|us| - 1].shape, us[|us| - 1].bucket)
  }

  // The state says how many maps have been seen: none, one, up to eight, or more.
  predicate Counted(c: Cache) {
    && c.count <= MAX_ENTRIES + 1
    && c.state == if c.count == 0 then Uninitialized else if c.count == 1 then Mono else if c.count <= MAX_ENTRIES then Poly else Mega
  }

  lemma UpdateCounted(c: Cache, shape: nat, bucket: nat)
    requires Shaped(c) && Counted(c)
    ensures Counted(Update(c, shape, bucket)) && c.count <= Update(c, shape, bucket).count <= c.count + 1
    ensures c.state.Mega? ==> Update(c, shape, bucket) == c
  {
    hide Index;
  }

  // After every sequence of updates the state is a function of the count, and once megamorphic it stays so.
  lemma {:induction false} StateOfCount(us: seq<Slot>, n: nat)
    requires n <= |us|
    ensures Counted(Updates(EMPTY, us))
    ensures Updates(EMPTY, us[..n]).state.Mega? ==> Updates(EMPTY, us) == Updates(EMPTY, us[..n])
    decreases |us|
  {
    if us != [] {
      var m := |us| - 1;
      var last := us[m];
      StateOfCount(us[..m], if n < |us| then n else m);
      UpdateCounted(Updates(EMPTY, us[..m]), last.shape, last.bucket);
      if n < |us| {
        assert us[..m][..n] == us[..n];
      } else {
        assert us[..n] == us;
      }
    }
  }

  // ic_lookup in the map that has this address now: the whole chain of the remembered bucket.
  function Hit(c: Cache, shape: nat, buckets: Buckets, key: string): Option<nat>
    requires Shaped(c)
  {
    var slot := c.slots[Index(shape)];
    if c.state.Mega? || c.state.Uninitialized? || slot.shape != shape || slot.bucket >= |buckets| then None
    else Held(buckets[slot.bucket], key)
  }

  // Whatever has happened to the map and the cache since, a hit is what the map holds; and it is what
  // the full lookup finds exactly if the key is not behind the sixteenth entry of its chain.
  lemma HitIsLookup(hash: string -> nat, c: Cache, shape: nat, buckets: Buckets, key: string)
    requires Shaped(c) && Homed(hash, buckets) && Hit(c, shape, buckets, key).Some?
    ensures Hit(c, shape, buckets, key) == Lookup(hash, buckets, key)
    ensures var chain := buckets[Home(hash, |buckets|, key)];
            Hit(c, shape, buckets, key) == Find(chain, key) <==> Position(chain, key) < MAX_CHAIN
    ensures Short(buckets) ==> Hit(c, shape, buckets, key) == Find(buckets[Home(hash, |buckets|, key)], key)
  {
    hide Rem, Index, Position;
    var b := c.slots[Index(shape)].bucket;
    var i := Position(buckets[b], key);
    assert Home(hash, |buckets|, buckets[b][i].key) == b;
    FindIff(buckets[b], key);
  }

  // --- What is remembered is hit ---

  // Maps have addresses, which are not zero.
  predicate Addresses(us: seq<Slot>) {
    forall i :: 0 <= i < |us| ==> us[i].shape != 0
  }

  lemma {:induction false} NothingYet(us: seq<Slot>)
    requires Addresses(us)
    ensures Counted(Updates(EMPTY, us)) && (Updates(EMPTY, us).state.Uninitialized? ==> us == [])
    decreases |us|
  {
    if us != [] {
      var m := |us| - 1;
      NothingYet(us[..m]);
      UpdateCounted(Updates(EMPTY, us[..m]), us[m].shape, us[m].bucket);
    }
  }

  // After any updates: a bucket that is remembered for a map, unless the cache has given up, is the one that is
  // searched for it; every key there is found, and no other.
  lemma RememberedHit(us: seq<Slot>, shape: nat, bucket: nat, buckets: Buckets, key: string)
    requires Addresses(us) && shape != 0 && bucket < |buckets|
    ensures var c := Update(Updates(EMPTY, us), shape, bucket);
            Hit(c, shape, buckets, key) == if c.state.Mega? then None else Held(buckets[bucket], key)
  {
    hide Index;
    NothingYet(us);
    UpdateCounted(Updates(EMPTY, us), shape, bucket);
    assert us == [] ==> Updates(EMPTY, us) == EMPTY;
  }

  // And so it stays until another map takes its slot, or the cache gives up.
  lemma {:induction false} StaysRemembered(c: Cache, us: seq<Slot>, shape: nat, bucket: nat)
    requires Shaped(c) && !c.state.Uninitialized? && c.slots[Index(shape)] == Slot(shape, bucket)
    requires forall i :: 0 <= i < |us| ==> Index(us[i].shape) != Index(shape)
    ensures var d := Updates(c, us); d.slots[Index(shape)] == Slot(shape, bucket) && !d.state.Uninitialized?
    decreases |us|
  {
    hide Index;
    if us != [] {
      StaysRemembered(c, us[..|us| - 1], shape, bucket);
    }
  }

  class InlineCache {
    var cache: Cache

    ghost predicate Valid()
      reads this
    {
      Shaped(cache) && Counted(cache)
    }

    constructor ()
      ensures Valid() && cache == EMPTY
    {
      cache := EMPTY;
    }

    method LookupKey(shape: nat, m: HashMap, key: string) returns (r: Option<nat>)
      requires Valid() && m.Valid()
      ensures r == Hit(cache, shape, m.buckets, key)
      ensures r.Some? ==> r == m.Get(key)
    {
      hide Index, Rem;
      if cache.state.Mega? || cache.state.Uninitialized? {
        return None;
      }
      var slot := cache.slots[Index(shape)];
      if slot.shape != shape || slot.bucket >= |m.buckets| {
        return None;
      }
      var chain := m.buckets[slot.bucket];
      var i := 0;
      while i < |chain|
        invariant i <= |chain| && forall j :: 0 <= j < i ==> chain[j].key != key
      {
        if chain[i].key == key {
          HitIsLookup(m.hash, cache, shape, m.buckets, key);
          return Some(chain[i].value);
        }
        i := i + 1;
      }
      r := None;
    }

    method Remember(shape: nat, bucket: nat)
      requires Valid()
      modifies this
      ensures Valid() && cache == Update(old(cache), shape, bucket)
    {
      hide Index;
      UpdateCounted(cache, shape, bucket);
      if cache.state.Mega? {
        return;
      }
      var i := Index(shape);
      if cache.slots[i].shape == shape {
        cache := cache.(slots := cache.slots[i := Slot(shape, bucket)]);
        return;
      }
      cache := cache.(count := (cache.count + 1) % 256);
      if cache.count == 1 {
        cache := cache.(state := Mono);
      } else if cache.count <= MAX_ENTRIES {
        cache := cache.(state := Poly);
      } else {
        cache := cache.(state := Mega);
        return;
      }
      cache := cache.(slots := cache.slots[i := Slot(shape, bucket)]);
    }
  }
}
