/** The bounded cache of dated answers: the oldest entry, an undated one first, is dropped. */
module AgeCache {
  import opened Wrappers

  /** `fetchedAt` is in milliseconds; None stands for an unreadable instant. */
  datatype Entry<V> = Entry(key: string, value: V, fetchedAt: Option<int>, freshMs: int)

  /** Strictly older, an undated entry being older than any dated one. */
  predicate Older(a: Option<int>, b: Option<int>) {
    b.Some? && (a.None? || a.value < b.value)
  }

  datatype Outcome = Fresh | Stale | Miss

  datatype Read<V> = Read(outcome: Outcome, value: Option<V>, ageMs: Option<int>)

  function Find<V>(es: seq<Entry<V>>, key: string): Option<Entry<V>> {
    if es == [] then None else if es[0].key == key then Some(es[0]) else Find(es[1..], key)
  }

  function Delete<V>(es: seq<Entry<V>>, key: string): (r: seq<Entry<V>>)
    ensures |r| <= |es|
  {
    if es == [] then [] else if es[0].key == key then es[1..] else [es[0]] + Delete(es[1..], key)
  }

  function AgeOf(fetchedAt: Option<int>, now: Option<int>): Option<int> {
    if fetchedAt.None? || now.None? then None
    else Some(if now.value < fetchedAt.value then 0 else now.value - fetchedAt.value)
  }

  function ReadOf<V>(es: seq<Entry<V>>, key: string, now: Option<int>): Read<V> {
    var found := Find(es, key);
    if found.None? then Read(Miss, None, None)
    else
      var age := AgeOf(found.value.fetchedAt, now);
      if age.None? then Read(Stale, Some(found.value.value), None)
      else Read(if age.value <= found.value.freshMs then Fresh else Stale, Some(found.value.value), age)
  }

  predicate Distinct<V>(es: seq<Entry<V>>) {
    forall i, j :: 0 <= i < j < |es| ==> es[i].key != es[j].key
  }

  /** The first entry that no other is strictly older than. */
  function OldestIndex<V>(es: seq<Entry<V>>): (i: nat)
    requires es != []
    ensures i < |es|
    ensures forall j :: 0 <= j < |es| ==> !Older(es[j].fetchedAt, es[i].fetchedAt)
    ensures forall j :: 0 <= j < i ==> Older(es[i].fetchedAt, es[j].fetchedAt)
  {
    if |es| == 1 then 0
    else
      var last := |es| - 1;
      var i := OldestIndex(es[..last]);
      if Older(es[last].fetchedAt, es[i].fetchedAt) then last else i
  }

  function Removed<V>(es: seq<Entry<V>>, i: nat): seq<Entry<V>>
    requires i < |es|
  {
    es[..i] + es[i + 1..]
  }

  function Evicted<V>(es: seq<Entry<V>>, capacity: real): (r: seq<Entry<V>>)
    requires capacity >= 1.0
    ensures |r| as real <= capacity
    decreases |es|
  {
    if |es| as real <= capacity then es else Evicted(Removed(es, OldestIndex(es)), capacity)
  }

  function PutIn<V>(es: seq<Entry<V>>, e: Entry<V>, capacity: real): seq<Entry<V>>
    requires capacity >= 1.0
  {
    Evicted(Delete(es, e.key) + [e], capacity)
  }

  // ---------------------------------------------------------------------------
  // Eviction
  // ---------------------------------------------------------------------------

  /** No kept entry is strictly older than an entry that was dropped. */
  ghost predicate KeepsNewest<V>(before: seq<Entry<V>>, after: seq<Entry<V>>) {
    && (forall i :: 0 <= i < |after| ==> after[i] in before)
    && (forall i, j :: 0 <= i < |before| && before[i] !in after && 0 <= j < |after| ==>
          !Older(after[j].fetchedAt, before[i].fetchedAt))
  }

  /** Eviction drops the oldest first: it never drops an entry while keeping a strictly older one. */
  lemma {:induction false} EvictionKeepsNewest<V>(es: seq<Entry<V>>, capacity: real)
    requires capacity >= 1.0
    ensures KeepsNewest(es, Evicted(es, capacity))
    decreases |es|
  {
    if |es| as real > capacity {
      var k := OldestIndex(es);
      var rest := Removed(es, k);
      EvictionKeepsNewest(rest, capacity);
      var after := Evicted(rest, capacity);
      forall i, j | 0 <= i < |es| && es[i] !in after && 0 <= j < |after|
        ensures !Older(after[j].fetchedAt, es[i].fetchedAt)
      {
        assert after[j] in rest && after[j] in es;
        if i != k {
          assert es[i] in rest;
        }
      }
    }
  }

  /** In a full cache of dated answers, an answer that cannot be dated is not kept at all. */
  lemma UndatedPutIsDropped<V>(es: seq<Entry<V>>, e: Entry<V>, capacity: real)
    requires capacity >= 1.0 && e.fetchedAt.None?
    requires
      var rest := Delete(es, e.key);
      && |rest| as real <= capacity < |rest| as real + 1.0
      && forall i :: 0 <= i < |rest| ==> rest[i].fetchedAt.Some?
    ensures PutIn(es, e, capacity) == Delete(es, e.key)
  {
    hide Delete;
    var rest := Delete(es, e.key);
    var mid := rest + [e];
    var k := OldestIndex(mid);
    assert mid[|rest|] == e;
    assert !Older(mid[|rest|].fetchedAt, mid[k].fetchedAt);
    assert k == |rest|;
    assert Removed(mid, k) == rest;
    assert Evicted(rest, capacity) == rest;
    assert |mid| == |rest| + 1;
  }

  lemma {:induction false} DeleteHas<V>(es: seq<Entry<V>>, key: string)
    requires Distinct(es)
    ensures Distinct(Delete(es, key))
    ensures forall i :: 0 <= i < |Delete(es, key)| ==> Delete(es, key)[i] in es && Delete(es, key)[i].key != key
  {
    if es != [] {
      var first, rest := es[0], es[1..];
      assert es == [first] + rest;
      if first.key == key {
        forall i | 0 <= i < |rest| ensures rest[i] in es && rest[i].key != key {
          assert rest[i] == es[i + 1];
        }
      } else {
        DeleteHas(rest, key);
        ConsDistinct(first, rest, Delete(rest, key));
      }
    }
  }

  lemma ConsDistinct<V>(first: Entry<V>, rest: seq<Entry<V>>, some: seq<Entry<V>>)
    requires Distinct([first] + rest) && Distinct(some) && forall i :: 0 <= i < |some| ==> some[i] in rest
    ensures Distinct([first] + some)
  {
    var es := [first] + rest;
    forall i | 0 <= i < |some| ensures some[i].key != first.key {
      assert some[i] in rest;
      var j :| 0 <= j < |rest| && rest[j] == some[i];
      assert es[j + 1] == some[i] && es[0] == first;
    }
  }

  lemma {:induction false} EvictedDistinct<V>(es: seq<Entry<V>>, capacity: real)
    requires capacity >= 1.0 && Distinct(es)
    ensures Distinct(Evicted(es, capacity))
    decreases |es|
  {
    if |es| as real > capacity {
      EvictedDistinct(Removed(es, OldestIndex(es)), capacity);
    }
  }

  // ---------------------------------------------------------------------------
  // The cache object
  // ---------------------------------------------------------------------------

  class Cache<V> {
    const capacity: real
    const defaultFreshMs: int
    var store: seq<Entry<V>>

    ghost predicate Valid()
      reads this
    {
      capacity >= 1.0 && Distinct(store) && |store| as real <= capacity
    }

    constructor (capacity: real, freshMs: int)
      ensures Valid() && store == []
      ensures this.capacity == (if capacity < 1.0 then 1.0 else capacity) && defaultFreshMs == freshMs
    {
      this.capacity, defaultFreshMs, store := if capacity < 1.0 then 1.0 else capacity, freshMs, [];
    }

    /** The scan for the oldest entry, and the loop around it. */
    method EvictOldest()
      requires capacity >= 1.0
      modifies this
      ensures store == Evicted(old(store), capacity)
    {
      while |store| as real > capacity
        invariant Evicted(store, capacity) == Evicted(old(store), capacity)
        decreases |store|
      {
        var oldest := FindOldest();
        store := store[..oldest] + store[oldest + 1..];
      }
    }

    method FindOldest() returns (oldest: nat)
      requires store != []
      ensures oldest < |store| && oldest == OldestIndex(store)
    {
      oldest := 0;
      assert store[..1] == [store[0]];
      for i := 1 to |store|
        invariant oldest < i && oldest == OldestIndex(store[..i])
      {
        assert store[..i + 1][..i] == store[..i];
        if Older(store[i].fetchedAt, store[oldest].fetchedAt) { oldest := i; }
      }
      assert store[..|store|] == store;
    }

    method Put(key: string, value: V, fetchedAt: Option<int>, freshMs: Option<int>)
      requires Valid()
      modifies this
      ensures Valid()
      ensures
        var window := if freshMs.Some? then freshMs.value else defaultFreshMs;
        store == PutIn(old(store), Entry(key, value, fetchedAt, window), capacity)
    {
      store := Delete(store, key);
      var window := if freshMs.Some? then freshMs.value else defaultFreshMs;
      store := store + [Entry(key, value, fetchedAt, window)];
      DeleteHas(old(store), key);
      EvictedDistinct(store, capacity);
      EvictOldest();
    }

    /** Always answers: a value with its age, or a miss. */
    method ReadKey(key: string, now: Option<int>) returns (r: Read<V>)
      requires Valid()
      ensures r == ReadOf(store, key, now)
      ensures r.outcome.Miss? <==> r.value.None?
      ensures r.outcome.Fresh? ==> r.ageMs.Some? && now.Some?
    {
      r := ReadOf(store, key, now);
    }

    method Forget(key: string) returns (held: bool)
      requires Valid()
      modifies this
      ensures Valid() && store == Delete(old(store), key) && held == Find(old(store), key).Some?
    {
      held := Find(store, key).Some?;
      DeleteHas(store, key);
      store := Delete(store, key);
    }
  }

  // ---------------------------------------------------------------------------
  // Runs against an unbounded map
  // ---------------------------------------------------------------------------

  datatype Op<V> = PutOp(entry: Entry<V>) | ForgetOp(key: string)

  /** The bounded entries beside the map that forgets nothing by itself. */
  datatype State<V> = State(entries: seq<Entry<V>>, ref: map<string, Entry<V>>)

  function Apply<V>(s: State<V>, op: Op<V>, capacity: real): State<V>
    requires capacity >= 1.0
  {
    match op
    case PutOp(e) => State(PutIn(s.entries, e, capacity), s.ref[e.key := e])
    case ForgetOp(key) => State(Delete(s.entries, key), s.ref - {key})
  }

  function Exec<V>(ops: seq<Op<V>>, capacity: real): State<V>
    requires capacity >= 1.0
  {
    if ops == [] then State([], map[]) else Apply(Exec(ops[..|ops| - 1], capacity), ops[|ops| - 1], capacity)
  }

  predicate Agrees<V(==)>(es: seq<Entry<V>>, ref: map<string, Entry<V>>) {
    forall i :: 0 <= i < |es| ==> es[i].key in ref && ref[es[i].key] == es[i]
  }

  ghost predicate Inv<V>(s: State<V>, capacity: real) {
    Distinct(s.entries) && |s.entries| as real <= capacity && Agrees(s.entries, s.ref)
  }

  lemma PutAgrees<V>(s: State<V>, e: Entry<V>, capacity: real)
    requires capacity >= 1.0 && Distinct(s.entries) && Agrees(s.entries, s.ref)
    ensures Agrees(PutIn(s.entries, e, capacity), s.ref[e.key := e]) && Distinct(PutIn(s.entries, e, capacity))
  {
    hide Evicted, Older, Delete;
    var mid := Delete(s.entries, e.key) + [e];
    DeleteHas(s.entries, e.key);
    EvictionKeepsNewest(mid, capacity);
    EvictedDistinct(mid, capacity);
    assert Agrees(mid, s.ref[e.key := e]);
    var after := Evicted(mid, capacity);
    forall i | 0 <= i < |after|
      ensures after[i].key in s.ref[e.key := e] && s.ref[e.key := e][after[i].key] == after[i]
    {
      assert after[i] in mid;
    }
  }

  lemma ApplyKeepsInv<V>(s: State<V>, op: Op<V>, capacity: real)
    requires capacity >= 1.0 && Inv(s, capacity)
    ensures Inv(Apply(s, op, capacity), capacity)
  {
    hide Delete, Evicted;
    match op {
      case PutOp(e) => PutAgrees(s, e, capacity);
      case ForgetOp(key) => DeleteHas(s.entries, key);
    }
  }

  lemma {:induction false} ExecKeepsInv<V>(ops: seq<Op<V>>, capacity: real)
    requires capacity >= 1.0
    ensures Inv(Exec(ops, capacity), capacity)
  {
    hide Apply;
    if ops != [] {
      ExecKeepsInv(ops[..|ops| - 1], capacity);
      ApplyKeepsInv(Exec(ops[..|ops| - 1], capacity), ops[|ops| - 1], capacity);
    }
  }

  lemma {:induction false} FindIn<V>(es: seq<Entry<V>>, key: string)
    ensures Find(es, key).Some? ==> Find(es, key).value in es && Find(es, key).value.key == key
  {
    if es != [] { FindIn(es[1..], key); }
  }

  /** The entry a run put last for a key and did not forget. */
  function LastPut<V>(ops: seq<Op<V>>, key: string): Option<Entry<V>> {
    if ops == [] then None
    else
      match ops[|ops| - 1]
      case PutOp(e) => if e.key == key then Some(e) else LastPut(ops[..|ops| - 1], key)
      case ForgetOp(k) => if k == key then None else LastPut(ops[..|ops| - 1], key)
  }

  lemma {:induction false} ReferenceIs<V>(ops: seq<Op<V>>, capacity: real, key: string)
    requires capacity >= 1.0
    ensures LastPut(ops, key) == if key in Exec(ops, capacity).ref then Some(Exec(ops, capacity).ref[key]) else None
  {
    hide PutIn, Delete;
    if ops != [] { ReferenceIs(ops[..|ops| - 1], capacity, key); }
  }

  lemma {:induction false} FindIff<V>(es: seq<Entry<V>>, i: nat)
    requires Distinct(es) && i < |es|
    ensures Find(es, es[i].key) == Some(es[i])
  {
    if i > 0 { FindIff(es[1..], i - 1); }
  }

  /** A read of a held entry tells its value, its age unless an instant is unreadable, and whether it is fresh. */
  lemma ReadOfHeld<V>(es: seq<Entry<V>>, i: nat, now: Option<int>)
    requires Distinct(es) && i < |es|
    ensures
      var e, r := es[i], ReadOf(es, es[i].key, now);
      && r.value == Some(e.value)
      && (r.ageMs.None? <==> now.None? || e.fetchedAt.None?)
      && (r.ageMs.Some? ==>
            r.ageMs.value == if now.value > e.fetchedAt.value then now.value - e.fetchedAt.value else 0)
      && r.outcome == if r.ageMs.Some? && !(r.ageMs.value > e.freshMs) then Fresh else Stale
  {
    FindIff(es, i);
  }

  /** A read misses exactly the keys that are not held. */
  lemma MissIff<V>(es: seq<Entry<V>>, key: string, now: Option<int>)
    requires Distinct(es)
    ensures ReadOf(es, key, now) == Read(Miss, None, None) <==> forall i :: 0 <= i < |es| ==> es[i].key != key
    ensures ReadOf(es, key, now).outcome.Miss? <==> forall i :: 0 <= i < |es| ==> es[i].key != key
  {
    hide AgeOf;
    FindIn(es, key);
    if Find(es, key).None? {
      forall i | 0 <= i < |es| ensures es[i].key != key {
        FindIff(es, i);
      }
    } else {
      var i :| 0 <= i < |es| && es[i] == Find(es, key).value;
    }
  }

  lemma {:induction false} DeleteKeeps<V>(es: seq<Entry<V>>, key: string, other: string)
    ensures other != key ==> Find(Delete(es, key), other) == Find(es, other)
    ensures Distinct(es) ==> Find(Delete(es, key), key).None?
    ensures Find(es, key).Some? ==> |Delete(es, key)| == |es| - 1
    ensures Find(es, key).None? ==> Delete(es, key) == es
  {
    if es != [] {
      if es[0].key != key {
        DeleteKeeps(es[1..], key, other);
        assert [es[0]] + es[1..] == es;
      } else if Distinct(es) {
        FindIn(es[1..], key);
      }
    }
  }

  lemma {:induction false} FindLast<V>(es: seq<Entry<V>>, e: Entry<V>, key: string)
    ensures Find(es + [e], key) == if Find(es, key).Some? then Find(es, key) else if e.key == key then Some(e) else None
  {
    if es != [] {
      assert (es + [e])[1..] == es[1..] + [e];
      FindLast(es[1..], e, key);
    }
  }

  /** With room for it an answer is kept under its key, and every other key answers as before. */
  lemma PutWithRoom<V>(es: seq<Entry<V>>, e: Entry<V>, capacity: real, key: string)
    requires capacity >= 1.0 && Distinct(es)
    requires |es| as real + (if Find(es, e.key).Some? then 0.0 else 1.0) <= capacity
    ensures Find(PutIn(es, e, capacity), key) == if key == e.key then Some(e) else Find(es, key)
    ensures Find(Delete(es, e.key), key) == if key == e.key then None else Find(es, key)
  {
    hide Find, Delete;
    DeleteKeeps(es, e.key, key);
    FindLast(Delete(es, e.key), e, key);
  }

  /** Eviction drops no more than it must. */
  lemma {:induction false} EvictsNoMore<V>(es: seq<Entry<V>>, capacity: real)
    requires capacity >= 1.0
    ensures Evicted(es, capacity) == es || |Evicted(es, capacity)| as real + 1.0 > capacity
    decreases |es|
  {
    if |es| as real > capacity {
      EvictsNoMore(Removed(es, OldestIndex(es)), capacity);
    }
  }

  /** After any run a hit answers the last entry put for its key, and the size stays within capacity. */
  lemma HitsAreTheLastPut<V>(ops: seq<Op<V>>, capacity: real, key: string, now: Option<int>)
    requires capacity >= 1.0
    ensures
      var s := Exec(ops, capacity);
      && |s.entries| as real <= capacity
      && Distinct(s.entries)
      && (Find(s.entries, key).Some? ==> Find(s.entries, key) == LastPut(ops, key))
      && (!ReadOf(s.entries, key, now).outcome.Miss? ==>
            LastPut(ops, key).Some? && ReadOf(s.entries, key, now).value == Some(LastPut(ops, key).value.value))
  {
    hide Exec, LastPut, AgeOf;
    ReferenceIs(ops, capacity, key);
    ExecKeepsInv(ops, capacity);
    FindIn(Exec(ops, capacity).entries, key);
  }
}
