/**
 The in-memory cache (rszero/src/cache/memcache.rs): a map with optional expiry times and a
 capacity, used by one caller at a time. Times come from a monotone clock that each operation
 reads once. The order in which the map is walked is not fixed, so which of several candidates
 is evicted is left open: an operation carries the victim, and every admissible victim is covered.
 */
module MemCache {
  import opened Wrappers

  datatype Entry<V> = Entry(value: V, expires: Option<int>)

  type Entries<K, V> = map<K, Entry<V>>

  datatype Op<K, V> =
    | Get(key: K, now: int)
    | Set(key: K, value: V, ttl: Option<nat>, victim: Option<K>, now: int)
    | Delete(key: K, now: int)
    | Clear(now: int)

  predicate Expired<V>(e: Entry<V>, now: int) {
    e.expires.Some? && now > e.expires.value
  }

  function NewEntry<V>(value: V, ttl: Option<nat>, now: int): Entry<V> {
    Entry(value, if ttl.None? then None else Some(now + ttl.value))
  }

  // ------------------------------------------------------------- specification

  predicate NeedsRoom<K, V>(es: Entries<K, V>, capacity: nat, key: K) {
    |es| >= capacity && key !in es
  }

  /** An expired entry, or, if there is none, one that will expire soonest. */
  predicate Evictable<K, V>(es: Entries<K, V>, k: K, now: int) {
    k in es
    && (Expired(es[k], now)
        || (es[k].expires.Some?
            && (forall j :: j in es ==> !Expired(es[j], now))
            && (forall j :: j in es && es[j].expires.Some? ==> es[k].expires.value <= es[j].expires.value)))
  }

  predicate NeverExpires<K, V>(es: Entries<K, V>) {
    forall k :: k in es ==> es[k].expires.None?
  }

  /** The victim is one that the eviction may choose; there is none exactly if none is needed or none can be found. */
  predicate Admissible<K, V>(es: Entries<K, V>, capacity: nat, op: Op<K, V>) {
    op.Set? ==>
      match op.victim
      case Some(k) => NeedsRoom(es, capacity, op.key) && Evictable(es, k, op.now)
      case None => !NeedsRoom(es, capacity, op.key) || NeverExpires(es)
  }

  function Without<K, V>(es: Entries<K, V>, k: K): Entries<K, V> {
    map j | j in es && j != k :: es[j]
  }

  function Step<K, V>(es: Entries<K, V>, op: Op<K, V>): Entries<K, V> {
    match op
    case Get(key, now) => if key in es && Expired(es[key], now) then Without(es, key) else es
    case Set(key, value, ttl, victim, now) =>
      (if victim.Some? then Without(es, victim.value) else es)[key := NewEntry(value, ttl, now)]
    case Delete(key, _) => Without(es, key)
    case Clear(_) => map[]
  }

  /** What `get` answers. */
  function Found<K, V>(es: Entries<K, V>, key: K, now: int): Option<V> {
    if key in es && !Expired(es[key], now) then Some(es[key].value) else None
  }

  // --------------------------------------------------------------------- class

  /** Among the keys of entries that expire there is one that expires soonest. */
  lemma {:induction false} SoonestExists<K, V>(es: Entries<K, V>, keys: set<K>) returns (k: K)
    requires keys != {} && forall j :: j in keys ==> j in es && es[j].expires.Some?
    ensures k in keys && forall j :: j in keys ==> es[k].expires.value <= es[j].expires.value
    decreases |keys|
  {
    k :| k in keys;
    var rest := keys - {k};
    assert keys == rest + {k};
    if rest != {} {
      var m := SoonestExists(es, rest);
      if es[m].expires.value < es[k].expires.value {
        k := m;
      }
    }
  }

  class Cache<K(==), V> {
    const capacity: nat
    var entries: Entries<K, V>

    constructor (capacity: nat)
      ensures this.capacity == capacity && entries == map[]
    {
      this.capacity := capacity;
      entries := map[];
    }

    method Get(key: K, now: int) returns (r: Option<V>)
      modifies this
      ensures r == Found(old(entries), key, now) && entries == Step(old(entries), Op.Get(key, now))
    {
      if key in entries && Expired(entries[key], now) {
        entries := Without(entries, key);
        return None;
      }
      return if key in entries then Some(entries[key].value) else None;
    }

    /** The eviction of `set_with_ttl`. */
    method Evict(now: int) returns (victim: Option<K>)
      modifies this
      ensures victim.Some? ==>
                Evictable(old(entries), victim.value, now) && entries == Without(old(entries), victim.value)
      ensures victim.None? ==> NeverExpires(old(entries)) && entries == old(entries)
    {
      if exists k :: k in entries && Expired(entries[k], now) {
        var k :| k in entries && Expired(entries[k], now);
        victim := Some(k);
        entries := Without(entries, k);
      } else if exists k :: k in entries && entries[k].expires.Some? {
        ghost var expiring := set k | k in entries && entries[k].expires.Some?;
        ghost var some: K :| some in entries && entries[some].expires.Some?;
        assert some in expiring;
        ghost var soonest := SoonestExists(entries, expiring);
        assert soonest in expiring && forall j :: j in entries && entries[j].expires.Some? ==> j in expiring;
        var k :| k in entries && entries[k].expires.Some?
                 && forall j :: j in entries && entries[j].expires.Some? ==>
                      entries[k].expires.value <= entries[j].expires.value;
        victim := Some(k);
        entries := Without(entries, k);
      } else {
        victim := None;
      }
    }

    method SetWithTtl(key: K, value: V, ttl: Option<nat>, now: int) returns (victim: Option<K>)
      modifies this
      ensures Admissible(old(entries), capacity, Op.Set(key, value, ttl, victim, now))
      ensures entries == Step(old(entries), Op.Set(key, value, ttl, victim, now))
    {
      victim := None;
      if |entries| >= capacity && key !in entries {
        victim := Evict(now);
      }
      entries := entries[key := NewEntry(value, ttl, now)];
    }

    method Delete(key: K, now: int) returns (was: bool)
      modifies this
      ensures was == (key in old(entries)) && entries == Step(old(entries), Op.Delete(key, now))
    {
      was := key in entries;
      entries := Without(entries, key);
    }

    method Clear(now: int)
      modifies this
      ensures entries == Step(old(entries), Op.Clear(now))
    {
      entries := map[];
    }
  }

  // ---------------------------------------------------------------------- runs

  /** The cache after the first `n` operations. */
  function At<K, V>(ops: seq<Op<K, V>>, n: nat): Entries<K, V>
    requires n <= |ops|
  {
    if n == 0 then map[] else Step(At(ops, n - 1), ops[n - 1])
  }

  ghost predicate IsRun<K, V>(ops: seq<Op<K, V>>, capacity: nat) {
    forall i {:trigger Admissible(At(ops, i), capacity, ops[i])} ::
      0 <= i < |ops| ==> Admissible(At(ops, i), capacity, ops[i])
  }

  predicate Ordered<K, V>(ops: seq<Op<K, V>>) {
    forall i, j :: 0 <= i < j < |ops| ==> ops[i].now <= ops[j].now
  }

  /** The reference: a map without capacity that forgets nothing by itself. */
  function IdealStep<K, V>(es: Entries<K, V>, op: Op<K, V>): Entries<K, V> {
    match op
    case Get(_, _) => es
    case Set(key, value, ttl, _, now) => es[key := NewEntry(value, ttl, now)]
    case Delete(key, _) => Without(es, key)
    case Clear(_) => map[]
  }

  function Ideal<K, V>(ops: seq<Op<K, V>>, n: nat): Entries<K, V>
    requires n <= |ops|
  {
    if n == 0 then map[] else IdealStep(Ideal(ops, n - 1), ops[n - 1])
  }

  // ---------------------------------------------------------------- refinement

  /** The cache holds only what the reference holds, and lacks only entries that have an expiry time. */
  ghost predicate Refines<K, V>(es: Entries<K, V>, ideal: Entries<K, V>) {
    && (forall k :: k in es ==> k in ideal && es[k] == ideal[k])
    && (forall k :: k in ideal && ideal[k].expires.None? ==> k in es)
  }

  lemma RefinesStep<K, V>(es: Entries<K, V>, ideal: Entries<K, V>, capacity: nat, op: Op<K, V>)
    requires Refines(es, ideal) && Admissible(es, capacity, op)
    ensures Refines(Step(es, op), IdealStep(ideal, op))
  {
  }

  lemma {:induction false} RunRefines<K, V>(ops: seq<Op<K, V>>, capacity: nat, n: nat)
    requires IsRun(ops, capacity) && n <= |ops|
    ensures Refines(At(ops, n), Ideal(ops, n))
  {
    if n > 0 {
      RunRefines(ops, capacity, n - 1);
      RefinesStep(At(ops, n - 1), Ideal(ops, n - 1), capacity, ops[n - 1]);
    }
  }

  /** Operation `k` leaves what was set for the key alone. */
  predicate Leaves<K(==), V>(op: Op<K, V>, key: K) {
    match op
    case Get(_, _) => true
    case Set(k, _, _, _, _) => k != key
    case Delete(k, _) => k != key
    case Clear(_) => false
  }

  /** In the reference, an entry is that of the latest `set`, with no `delete` or `clear` since. */
  lemma {:induction false} LatestSet<K, V>(ops: seq<Op<K, V>>, n: nat, key: K) returns (i: nat)
    requires n <= |ops| && key in Ideal(ops, n)
    ensures i < n && ops[i].Set? && ops[i].key == key
    ensures Ideal(ops, n)[key] == NewEntry(ops[i].value, ops[i].ttl, ops[i].now)
    ensures forall k :: i < k < n ==> Leaves(ops[k], key)
    decreases n
  {
    var op := ops[n - 1];
    if op.Set? && op.key == key {
      i := n - 1;
    } else {
      i := LatestSet(ops, n - 1, key);
    }
  }

  /** What `get` returns is the value of the latest `set` of its key, not deleted, cleared or expired since. */
  lemma GetReturnsLatest<K, V>(ops: seq<Op<K, V>>, capacity: nat, j: nat) returns (i: nat)
    requires IsRun(ops, capacity) && j < |ops| && ops[j].Get? && Found(At(ops, j), ops[j].key, ops[j].now).Some?
    ensures i < j && ops[i].Set? && ops[i].key == ops[j].key
    ensures Found(At(ops, j), ops[j].key, ops[j].now) == Some(ops[i].value)
    ensures forall k :: i < k < j ==> Leaves(ops[k], ops[j].key)
    ensures ops[i].ttl.Some? ==> ops[j].now <= ops[i].now + ops[i].ttl.value
  {
    RunRefines(ops, capacity, j);
    i := LatestSet(ops, j, ops[j].key);
  }

  lemma {:induction false} IdealKeeps<K, V>(ops: seq<Op<K, V>>, i: nat, n: nat)
    requires i < n <= |ops| && ops[i].Set? && forall k :: i < k < n ==> Leaves(ops[k], ops[i].key)
    ensures ops[i].key in Ideal(ops, n) && Ideal(ops, n)[ops[i].key] == NewEntry(ops[i].value, ops[i].ttl, ops[i].now)
    decreases n
  {
    if i < n - 1 {
      IdealKeeps(ops, i, n - 1);
      assert Leaves(ops[n - 1], ops[i].key);
    }
  }

  /** A value set without expiry is returned until it is overwritten, deleted or cleared, at any fill. */
  lemma NoTtlSurvives<K, V>(ops: seq<Op<K, V>>, capacity: nat, i: nat, j: nat)
    requires IsRun(ops, capacity) && i < j < |ops| && ops[i].Set? && ops[i].ttl.None?
    requires ops[j].Get? && ops[j].key == ops[i].key && forall k :: i < k < j ==> Leaves(ops[k], ops[i].key)
    ensures Found(At(ops, j), ops[j].key, ops[j].now) == Some(ops[i].value)
  {
    RunRefines(ops, capacity, j);
    IdealKeeps(ops, i, j);
  }

  // ------------------------------------------------------------ below capacity

  /** What the cache lacks has expired. */
  ghost predicate LacksExpired<K, V>(es: Entries<K, V>, ideal: Entries<K, V>, now: int) {
    forall k :: k in ideal ==> k in es || Expired(ideal[k], now)
  }

  lemma {:induction false} SubmapIsSmaller<K, V>(es: Entries<K, V>, ideal: Entries<K, V>)
    requires es.Keys <= ideal.Keys
    ensures |es| <= |ideal|
  {
    SubsetIsSmaller(es.Keys, ideal.Keys);
    assert |es.Keys| == |es| && |ideal.Keys| == |ideal|;
  }

  lemma {:induction false} SubsetIsSmaller<K>(a: set<K>, b: set<K>)
    requires a <= b
    ensures |a| <= |b|
  {
    if a != {} {
      var x :| x in a;
      SubsetIsSmaller(a - {x}, b - {x});
    }
  }

  lemma LacksStep<K, V>(es: Entries<K, V>, ideal: Entries<K, V>, capacity: nat, op: Op<K, V>, before: int)
    requires Refines(es, ideal) && LacksExpired(es, ideal, before) && before <= op.now && Admissible(es, capacity, op)
    requires |IdealStep(ideal, op)| <= capacity
    ensures LacksExpired(Step(es, op), IdealStep(ideal, op), op.now)
  {
    if op.Set? && op.victim.Some? {
      var next := IdealStep(ideal, op);
      assert es[op.key := NewEntry(op.value, op.ttl, op.now)].Keys == es.Keys + {op.key};
      assert es.Keys + {op.key} <= next.Keys;
      SubmapIsSmaller(es[op.key := NewEntry(op.value, op.ttl, op.now)], next);
    }
  }

  /** The keys in use never outnumber the capacity. */
  ghost predicate Fits<K, V>(ops: seq<Op<K, V>>, capacity: nat, n: nat)
    requires n <= |ops|
  {
    n == 0 || (Fits(ops, capacity, n - 1) && |Ideal(ops, n)| <= capacity)
  }

  lemma FitsLast<K, V>(ops: seq<Op<K, V>>, capacity: nat, n: nat)
    requires 0 < n <= |ops| && Fits(ops, capacity, n)
    ensures Fits(ops, capacity, n - 1) && |IdealStep(Ideal(ops, n - 1), ops[n - 1])| <= capacity
  {
  }

  lemma {:induction false} LacksNext<K, V>(ops: seq<Op<K, V>>, capacity: nat, n: nat, before: int)
    requires IsRun(ops, capacity) && 0 < n <= |ops| && before <= ops[n - 1].now
    requires |IdealStep(Ideal(ops, n - 1), ops[n - 1])| <= capacity
    requires LacksExpired(At(ops, n - 1), Ideal(ops, n - 1), before)
    ensures LacksExpired(Step(At(ops, n - 1), ops[n - 1]), IdealStep(Ideal(ops, n - 1), ops[n - 1]), ops[n - 1].now)
  {
    RunRefines(ops, capacity, n - 1);
    assert Admissible(At(ops, n - 1), capacity, ops[n - 1]);
    LacksStep(At(ops, n - 1), Ideal(ops, n - 1), capacity, ops[n - 1], before);
  }

  lemma {:induction false} RunLacksExpired<K, V>(ops: seq<Op<K, V>>, capacity: nat, n: nat)
    requires IsRun(ops, capacity) && Ordered(ops) && 0 < n <= |ops| && Fits(ops, capacity, n)
    ensures LacksExpired(At(ops, n), Ideal(ops, n), ops[n - 1].now)
  {
    FitsLast(ops, capacity, n);
    if n == 1 {
      LacksNext(ops, capacity, 1, ops[0].now);
    } else {
      RunLacksExpired(ops, capacity, n - 1);
      LacksNext(ops, capacity, n, ops[n - 2].now);
    }
  }

  /** Below its capacity the cache answers exactly as the reference does. */
  lemma ExactBelowCapacity<K, V>(ops: seq<Op<K, V>>, capacity: nat, j: nat)
    requires IsRun(ops, capacity) && Ordered(ops) && j < |ops| && Fits(ops, capacity, j) && ops[j].Get?
    ensures Found(At(ops, j), ops[j].key, ops[j].now) == Found(Ideal(ops, j), ops[j].key, ops[j].now)
  {
    RunRefines(ops, capacity, j);
    if j > 0 {
      RunLacksExpired(ops, capacity, j);
      assert ops[j - 1].now <= ops[j].now;
    }
  }

  /** Below the capacity a value is returned to the end of its time to live, and not after. */
  lemma LivesToItsEnd<K, V>(ops: seq<Op<K, V>>, capacity: nat, i: nat, j: nat)
    requires IsRun(ops, capacity) && Ordered(ops) && i < j < |ops| && Fits(ops, capacity, j) && ops[i].Set?
    requires ops[j].Get? && ops[j].key == ops[i].key && forall k :: i < k < j ==> Leaves(ops[k], ops[i].key)
    ensures Found(At(ops, j), ops[j].key, ops[j].now)
            == if ops[i].ttl.None? || ops[j].now <= ops[i].now + ops[i].ttl.value then Some(ops[i].value) else None
  {
    ExactBelowCapacity(ops, capacity, j);
    IdealKeeps(ops, i, j);
  }

  /** At the capacity, a value that another one is due to expire before outlives a `set` of another key. */
  lemma LaterOnesStay<K, V>(ops: seq<Op<K, V>>, capacity: nat, j: nat, key: K, other: K)
    requires IsRun(ops, capacity) && j < |ops| && ops[j].Set? && ops[j].key != key
    requires key in At(ops, j) && other in At(ops, j) && At(ops, j)[other].expires.Some?
    requires At(ops, j)[key].expires.Some? ==> At(ops, j)[other].expires.value < At(ops, j)[key].expires.value
    requires !Expired(At(ops, j)[key], ops[j].now)
    ensures key in At(ops, j + 1) && At(ops, j + 1)[key] == At(ops, j)[key]
  {
    assert Admissible(At(ops, j), capacity, ops[j]);
  }

  // ---------------------------------------------------------------------- size

  function Permanent<K, V>(es: Entries<K, V>): set<K> {
    set k | k in es && es[k].expires.None?
  }

  /** The most never-expiring entries held at once, after any of the first `n` operations. */
  ghost function Peak<K, V>(ops: seq<Op<K, V>>, n: nat): nat
    requires n <= |ops|
  {
    var held := |Permanent(At(ops, n))|;
    if n == 0 then held else if Peak(ops, n - 1) >= held then Peak(ops, n - 1) else held
  }

  lemma WithoutIsSmaller<K, V>(es: Entries<K, V>, k: K)
    ensures |Without(es, k)| == if k in es then |es| - 1 else |es|
  {
    assert Without(es, k).Keys == es.Keys - {k};
    assert |Without(es, k).Keys| == |Without(es, k)| && |es.Keys| == |es|;
  }

  lemma PutIsLarger<K, V>(es: Entries<K, V>, k: K, e: Entry<V>)
    ensures |es[k := e]| == if k in es then |es| else |es| + 1
  {
    assert es[k := e].Keys == es.Keys + {k};
    assert |es[k := e].Keys| == |es[k := e]| && |es.Keys| == |es|;
  }

  /** One operation grows the cache only below its capacity, or when nothing in it expires. */
  lemma SizeStep<K, V>(es: Entries<K, V>, capacity: nat, op: Op<K, V>)
    requires Admissible(es, capacity, op)
    ensures |Step(es, op)| <= |es| || |Step(es, op)| <= capacity || |Step(es, op)| <= 1 + |Permanent(es)|
  {
    match op
    case Get(key, _) => WithoutIsSmaller(es, key);
    case Delete(key, _) => WithoutIsSmaller(es, key);
    case Clear(_) =>
    case Set(key, value, ttl, victim, now) =>
      var e := NewEntry(value, ttl, now);
      PutIsLarger(es, key, e);
      if victim.Some? {
        WithoutIsSmaller(es, victim.value);
        PutIsLarger(Without(es, victim.value), key, e);
      } else if NeedsRoom(es, capacity, key) {
        assert Permanent(es) == es.Keys;
        assert |es.Keys| == |es|;
      }
  }

  lemma PeakLast<K, V>(ops: seq<Op<K, V>>, n: nat)
    requires 0 < n <= |ops|
    ensures Peak(ops, n) >= Peak(ops, n - 1) >= |Permanent(At(ops, n - 1))|
  {
  }

  lemma SizeAt<K, V>(ops: seq<Op<K, V>>, capacity: nat, n: nat)
    requires IsRun(ops, capacity) && 0 < n <= |ops|
    ensures |At(ops, n)| <= |At(ops, n - 1)| || |At(ops, n)| <= capacity
            || |At(ops, n)| <= 1 + |Permanent(At(ops, n - 1))|
  {
    assert Admissible(At(ops, n - 1), capacity, ops[n - 1]);
    SizeStep(At(ops, n - 1), capacity, ops[n - 1]);
  }

  /** In every run the size is at most the capacity, or one more than the most never-expiring entries ever held. */
  lemma {:induction false} SizeBound<K, V>(ops: seq<Op<K, V>>, capacity: nat, n: nat)
    requires IsRun(ops, capacity) && n <= |ops|
    ensures |At(ops, n)| <= if capacity >= 1 + Peak(ops, n) then capacity else 1 + Peak(ops, n)
  {
    if n > 0 {
      SizeBound(ops, capacity, n - 1);
      PeakLast(ops, n);
      SizeAt(ops, capacity, n);
    }
  }

  /**
   The call that makes the cache outgrow its capacity: a new key, when the cache is full and nothing
   in it expires.
   */
  predicate Outgrows<K, V>(es: Entries<K, V>, capacity: nat, op: Op<K, V>) {
    op.Set? && NeedsRoom(es, capacity, op.key) && NeverExpires(es)
  }

  /** One operation on a cache within its capacity leaves it there, with that one exception. */
  lemma OutgrowsStep<K, V>(es: Entries<K, V>, capacity: nat, op: Op<K, V>)
    requires Admissible(es, capacity, op) && |es| <= capacity
    ensures |Step(es, op)| <= capacity <==> !Outgrows(es, capacity, op)
  {
    match op
    case Get(key, _) => WithoutIsSmaller(es, key);
    case Delete(key, _) => WithoutIsSmaller(es, key);
    case Clear(_) =>
    case Set(key, value, ttl, victim, now) =>
      var e := NewEntry(value, ttl, now);
      PutIsLarger(es, key, e);
      if victim.Some? {
        WithoutIsSmaller(es, victim.value);
        PutIsLarger(Without(es, victim.value), key, e);
      }
  }

  /** The same call, seen from outside: as many values without expiry are in use as the cache has room for. */
  predicate AsksTooMuch<K, V>(ideal: Entries<K, V>, capacity: nat, op: Op<K, V>) {
    op.Set? && |Permanent(ideal)| >= capacity && op.key !in Permanent(ideal)
  }

  lemma {:induction false} SameSizeSubset<K>(a: set<K>, b: set<K>)
    requires a <= b && |a| >= |b|
    ensures a == b
  {
    if x :| x in b && x !in a {
      SubsetIsSmaller(a, b - {x});
    }
  }

  lemma OutgrowsIffAsksTooMuch<K, V>(es: Entries<K, V>, ideal: Entries<K, V>, capacity: nat, op: Op<K, V>)
    requires Refines(es, ideal) && |es| <= capacity
    ensures Outgrows(es, capacity, op) <==> AsksTooMuch(ideal, capacity, op)
  {
    assert Permanent(es) == Permanent(ideal);
    assert Permanent(es) <= es.Keys && |es.Keys| == |es|;
    if NeverExpires(es) {
      assert Permanent(es) == es.Keys;
    }
    if |Permanent(es)| >= capacity {
      SameSizeSubset(Permanent(es), es.Keys);
    }
  }

  ghost predicate WithinCapacity<K, V>(ops: seq<Op<K, V>>, capacity: nat, n: nat)
    requires n <= |ops|
  {
    forall i :: 0 <= i <= n ==> |At(ops, i)| <= capacity
  }

  ghost predicate NeverAsksTooMuch<K, V>(ops: seq<Op<K, V>>, capacity: nat, n: nat)
    requires n <= |ops|
  {
    forall i :: 0 <= i < n ==> !AsksTooMuch(Ideal(ops, i), capacity, ops[i])
  }

  lemma KeptStep<K, V>(ops: seq<Op<K, V>>, capacity: nat, n: nat)
    requires IsRun(ops, capacity) && 0 < n <= |ops| && |At(ops, n - 1)| <= capacity
    ensures |At(ops, n)| <= capacity <==> !AsksTooMuch(Ideal(ops, n - 1), capacity, ops[n - 1])
  {
    var es, op := At(ops, n - 1), ops[n - 1];
    RunRefines(ops, capacity, n - 1);
    assert Admissible(es, capacity, op);
    OutgrowsStep(es, capacity, op);
    OutgrowsIffAsksTooMuch(es, Ideal(ops, n - 1), capacity, op);
  }

  lemma WithinLast<K, V>(ops: seq<Op<K, V>>, capacity: nat, n: nat)
    requires 0 < n <= |ops|
    ensures WithinCapacity(ops, capacity, n) <==> WithinCapacity(ops, capacity, n - 1) && |At(ops, n)| <= capacity
  {
  }

  lemma NeverAsksLast<K, V>(ops: seq<Op<K, V>>, capacity: nat, n: nat)
    requires 0 < n <= |ops|
    ensures NeverAsksTooMuch(ops, capacity, n) <==>
            NeverAsksTooMuch(ops, capacity, n - 1) && !AsksTooMuch(Ideal(ops, n - 1), capacity, ops[n - 1])
  {
  }

  /**
   The cache stays within its capacity exactly if no `set` brings a key without a permanent value
   while at least `capacity` values without expiry are in use. The calls alone decide that.
   */
  lemma {:induction false} CapacityKeptIff<K, V>(ops: seq<Op<K, V>>, capacity: nat, n: nat)
    requires IsRun(ops, capacity) && n <= |ops|
    ensures WithinCapacity(ops, capacity, n) <==> NeverAsksTooMuch(ops, capacity, n)
  {
    if n > 0 {
      CapacityKeptIff(ops, capacity, n - 1);
      WithinLast(ops, capacity, n);
      NeverAsksLast(ops, capacity, n);
      if |At(ops, n - 1)| <= capacity {
        KeptStep(ops, capacity, n);
      }
    }
  }

  ghost predicate OutgrowsAt<K, V>(ops: seq<Op<K, V>>, capacity: nat, i: nat)
    requires i < |ops|
  {
    Outgrows(At(ops, i), capacity, ops[i])
  }

  ghost predicate NeverOutgrows<K, V>(ops: seq<Op<K, V>>, capacity: nat, n: nat)
    requires n <= |ops|
  {
    forall i :: 0 <= i < n ==> !OutgrowsAt(ops, capacity, i)
  }

  lemma RoomStep<K, V>(ops: seq<Op<K, V>>, capacity: nat, n: nat)
    requires IsRun(ops, capacity) && 0 < n <= |ops| && |At(ops, n - 1)| <= capacity
    ensures |At(ops, n)| <= capacity <==> !OutgrowsAt(ops, capacity, n - 1)
  {
    assert Admissible(At(ops, n - 1), capacity, ops[n - 1]);
    OutgrowsStep(At(ops, n - 1), capacity, ops[n - 1]);
  }

  lemma NeverOutgrowsLast<K, V>(ops: seq<Op<K, V>>, capacity: nat, n: nat)
    requires 0 < n <= |ops|
    ensures NeverOutgrows(ops, capacity, n) <==>
            NeverOutgrows(ops, capacity, n - 1) && !OutgrowsAt(ops, capacity, n - 1)
  {
    if NeverOutgrows(ops, capacity, n - 1) && !OutgrowsAt(ops, capacity, n - 1) {
      forall i | 0 <= i < n ensures !OutgrowsAt(ops, capacity, i) {
      }
    }
  }

  /**
   The same in terms of what the cache holds: the branch of `set_with_ttl` that finds nothing to
   evict is never taken.
   */
  lemma {:induction false} CapacityKeptIffRoom<K, V>(ops: seq<Op<K, V>>, capacity: nat, n: nat)
    requires IsRun(ops, capacity) && n <= |ops|
    ensures WithinCapacity(ops, capacity, n) <==> NeverOutgrows(ops, capacity, n)
  {
    if n > 0 {
      CapacityKeptIffRoom(ops, capacity, n - 1);
      WithinLast(ops, capacity, n);
      NeverOutgrowsLast(ops, capacity, n);
      if |At(ops, n - 1)| <= capacity {
        RoomStep(ops, capacity, n);
      }
    }
  }

  /** `n` different keys, set without expiry. */
  function Fill(n: nat): (ops: seq<Op<nat, int>>)
    ensures |ops| == n && forall i :: 0 <= i < n ==> ops[i] == Set(i, 0, None, None, i)
  {
    seq(n, i requires 0 <= i < n => Set(i, 0, None, None, i))
  }

  lemma {:induction false} FillGrows(n: nat, i: nat)
    requires i <= n
    ensures NeverExpires(At(Fill(n), i)) && |At(Fill(n), i)| == i
    ensures forall k :: k in At(Fill(n), i) ==> k < i
  {
    if i > 0 {
      FillGrows(n, i - 1);
      PutIsLarger(At(Fill(n), i - 1), i - 1, NewEntry(0, None, i - 1));
    }
  }

  /** The capacity alone is no bound: without expiry times the cache grows to any size. */
  lemma CapacityIsNoBound(capacity: nat, n: nat)
    ensures IsRun(Fill(n), capacity) && |At(Fill(n), n)| == n
  {
    forall i | 0 <= i < n ensures Admissible(At(Fill(n), i), capacity, Fill(n)[i]) {
      FillGrows(n, i);
    }
    FillGrows(n, n);
  }
}
