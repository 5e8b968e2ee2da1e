/** The bounded validator store: a map in recency order, least recently touched first. */
module EtagStore {
  import opened Wrappers

  datatype Entry<V> = Entry(key: string, value: V)

  function Find<V>(es: seq<Entry<V>>, key: string): Option<V> {
    if es == [] then None else if es[0].key == key then Some(es[0].value) else Find(es[1..], key)
  }

  /** The entries without one key, as a map's `delete` leaves them. */
  function Delete<V>(es: seq<Entry<V>>, key: string): (r: seq<Entry<V>>)
    ensures |r| <= |es|
  {
    if es == [] then [] else if es[0].key == key then es[1..] else [es[0]] + Delete(es[1..], key)
  }

  function LastOf<T>(s: seq<T>, n: nat): seq<T> {
    if |s| <= n then s else s[|s| - n..]
  }

  function Bound(capacity: real): (n: nat)
    ensures n >= 1
  {
    if capacity.Floor < 1 then 1 else capacity.Floor
  }

  function Touched<V>(es: seq<Entry<V>>, key: string, value: V): seq<Entry<V>> {
    Delete(es, key) + [Entry(key, value)]
  }

  class Store<V(==)> {
    const bound: nat
    var entries: seq<Entry<V>>

    constructor (capacity: real)
      ensures bound == Bound(capacity) && entries == []
    {
      bound, entries := Bound(capacity), [];
    }

    /** A hit moves to the recent end; a miss changes nothing. */
    method Get(key: string) returns (held: Option<V>)
      modifies this
      ensures held == Find(old(entries), key)
      ensures entries == if held.None? then old(entries) else Touched(old(entries), key, held.value)
    {
      held := Find(entries, key);
      if held.Some? {
        entries := Delete(entries, key);
        entries := entries + [Entry(key, held.value)];
      }
    }

    method Set(key: string, value: V)
      modifies this
      ensures entries == LastOf(Touched(old(entries), key, value), bound)
    {
      entries := Delete(entries, key);
      entries := entries + [Entry(key, value)];
      ghost var all := entries;
      while |entries| > bound
        invariant |entries| <= |all| && entries == all[|all| - |entries|..]
        invariant |entries| >= bound || entries == all
      {
        entries := entries[1..];
      }
    }
  }

  // ---------------------------------------------------------------------------
  // Runs against an unbounded map and a log of touches
  // ---------------------------------------------------------------------------

  datatype Op<V> = GetOp(key: string) | SetOp(key: string, value: V)

  /** The bounded entries, every value ever set, and the keys in the order they were touched. */
  datatype State<V> = State(entries: seq<Entry<V>>, ref: map<string, V>, log: seq<string>)

  function Apply<V>(s: State<V>, op: Op<V>, bound: nat): State<V> {
    match op
    case GetOp(key) =>
      var held := Find(s.entries, key);
      if held.None? then s else State(Touched(s.entries, key, held.value), s.ref, s.log + [key])
    case SetOp(key, value) =>
      State(LastOf(Touched(s.entries, key, value), bound), s.ref[key := value], s.log + [key])
  }

  function Exec<V>(ops: seq<Op<V>>, bound: nat): State<V> {
    if ops == [] then State([], map[], []) else Apply(Exec(ops[..|ops| - 1], bound), ops[|ops| - 1], bound)
  }

  function Without(keys: seq<string>, key: string): seq<string> {
    if keys == [] then [] else if keys[0] == key then keys[1..] else [keys[0]] + Without(keys[1..], key)
  }

  /** The keys of a log in the order of their last mention. */
  function ByLastTouch(log: seq<string>): seq<string> {
    if log == [] then [] else Without(ByLastTouch(log[..|log| - 1]), log[|log| - 1]) + [log[|log| - 1]]
  }

  function Keys<V>(es: seq<Entry<V>>): seq<string> {
    seq(|es|, i requires 0 <= i < |es| => es[i].key)
  }

  predicate Distinct(keys: seq<string>) {
    forall i, j :: 0 <= i < j < |keys| ==> keys[i] != keys[j]
  }

  lemma {:induction false} KeysDelete<V>(es: seq<Entry<V>>, key: string)
    ensures Keys(Delete(es, key)) == Without(Keys(es), key)
  {
    hide Keys;
    if es == [] {
      KeysLength(es);
    } else {
      KeysCons(es[0], es[1..]);
      assert [es[0]] + es[1..] == es;
      if es[0].key != key {
        KeysDelete(es[1..], key);
        KeysCons(es[0], Delete(es[1..], key));
      }
    }
  }

  lemma KeysCons<V>(e: Entry<V>, es: seq<Entry<V>>)
    ensures Keys([e] + es) == [e.key] + Keys(es)
    ensures Keys([e] + es)[1..] == Keys(es)
  {
  }

  lemma KeysTouched<V>(es: seq<Entry<V>>, key: string, value: V)
    ensures Keys(Touched(es, key, value)) == Without(Keys(es), key) + [key]
  {
    KeysDelete(es, key);
    assert Keys(Touched(es, key, value)) == Keys(Delete(es, key)) + [key];
  }

  lemma KeysLast<V>(es: seq<Entry<V>>, n: nat)
    ensures Keys(LastOf(es, n)) == LastOf(Keys(es), n)
  {
  }

  lemma {:induction false} WithoutHas(keys: seq<string>, key: string)
    requires Distinct(keys)
    ensures Distinct(Without(keys, key)) && key !in Without(keys, key)
    ensures forall k :: k in Without(keys, key) <==> k in keys && k != key
    ensures key !in keys ==> Without(keys, key) == keys
    ensures key in keys ==> |Without(keys, key)| == |keys| - 1
  {
    if keys != [] {
      assert keys == [keys[0]] + keys[1..];
      assert keys[0] !in keys[1..];
      WithoutHas(keys[1..], key);
    }
  }

  lemma {:induction false} ByLastTouchDistinct(log: seq<string>)
    ensures Distinct(ByLastTouch(log))
  {
    if log != [] {
      ByLastTouchDistinct(log[..|log| - 1]);
      WithoutHas(ByLastTouch(log[..|log| - 1]), log[|log| - 1]);
    }
  }

  /** Removing a key from a concatenation touches the side that holds it first, */
  lemma {:induction false} WithoutFront(a: seq<string>, b: seq<string>, key: string)
    requires key in a
    ensures Without(a + b, key) == Without(a, key) + b
  {
    hide Without;
    var x, rest := a[0], a[1..];
    assert a == [x] + rest;
    Rejoined(x, rest, b);
    WithoutFirst(x, rest, key);
    WithoutFirst(x, rest + b, key);
    if x != key {
      WithoutFront(rest, b, key);
      Rejoined(x, Without(rest, key), b);
    }
  }

  /** and that side only. */
  lemma {:induction false} WithoutBack(a: seq<string>, b: seq<string>, key: string)
    requires key !in a
    ensures Without(a + b, key) == a + Without(b, key)
  {
    hide Without;
    if a == [] {
      assert a + b == b && a + Without(b, key) == Without(b, key);
    } else {
      var x, rest := a[0], a[1..];
      assert a == [x] + rest;
      Rejoined(x, rest, b);
      WithoutFirst(x, rest + b, key);
      WithoutBack(rest, b, key);
      Rejoined(x, rest, Without(b, key));
    }
  }

  lemma Rejoined(x: string, a: seq<string>, b: seq<string>)
    ensures [x] + a + b == [x] + (a + b)
  {
  }

  lemma WithoutFirst(x: string, rest: seq<string>, key: string)
    ensures Without([x] + rest, key) == if x == key then rest else [x] + Without(rest, key)
  {
    assert ([x] + rest)[1..] == rest;
  }

  lemma TouchSplit(front: seq<string>, back: seq<string>, key: string, n: nat)
    requires Distinct(back) && |back| == n && (key in front ==> key !in back)
    ensures LastOf(Without(back, key) + [key], n) == LastOf(Without(front + back, key) + [key], n)
    ensures key in back ==> |Without(back, key) + [key]| <= n
  {
    hide LastOf, Without, Distinct;
    WithoutHas(back, key);
    if key in front { WithoutFront(front, back, key); } else { WithoutBack(front, back, key); }
    var rest := if key in front then Without(front, key) else front;
    LastOfFront(rest, Without(back, key) + [key], n);
    assert Without(front + back, key) + [key] == rest + (Without(back, key) + [key]);
  }

  /** One touch keeps the held keys the last ones of the touch order. */
  lemma TouchKeepsLast(all: seq<string>, key: string, n: nat)
    requires Distinct(all) && n >= 1
    ensures LastOf(Without(LastOf(all, n), key) + [key], n) == LastOf(Without(all, key) + [key], n)
    ensures key in LastOf(all, n) ==> |Without(LastOf(all, n), key) + [key]| <= n
  {
    hide Without;
    if |all| > n {
      var front, back := all[..|all| - n], all[|all| - n..];
      assert all == front + back;
      assert LastOf(all, n) == back;
      SplitDistinct(front, back, key);
      TouchSplit(front, back, key, n);
    } else {
      WithoutHas(all, key);
    }
  }

  lemma SplitDistinct(front: seq<string>, back: seq<string>, key: string)
    requires Distinct(front + back)
    ensures Distinct(back) && (key in front ==> key !in back)
  {
    var all := front + back;
    forall i, j | 0 <= i < j < |back| ensures back[i] != back[j] {
      assert all[|front| + i] == back[i] && all[|front| + j] == back[j];
    }
    forall i, j | 0 <= i < |front| && 0 <= j < |back| ensures front[i] != back[j] {
      assert all[i] == front[i] && all[|front| + j] == back[j];
    }
  }

  /** Anything in front of at least n elements does not change the last n. */
  lemma LastOfFront(front: seq<string>, back: seq<string>, n: nat)
    requires |back| >= n
    ensures LastOf(front + back, n) == LastOf(back, n)
  {
  }

  ghost predicate Inv<V>(s: State<V>, bound: nat) {
    && Keys(s.entries) == LastOf(ByLastTouch(s.log), bound)
    && |s.entries| <= bound
    && forall i :: 0 <= i < |s.entries| ==> s.entries[i].key in s.ref && s.ref[s.entries[i].key] == s.entries[i].value
  }

  lemma {:induction false} FindFinds<V>(es: seq<Entry<V>>, key: string)
    ensures Find(es, key).Some? <==> key in Keys(es)
    ensures Find(es, key).Some? ==> exists i :: 0 <= i < |es| && es[i] == Entry(key, Find(es, key).value)
  {
    if es != [] {
      FindFinds(es[1..], key);
      assert Keys(es) == [es[0].key] + Keys(es[1..]);
      if es[0].key != key && Find(es[1..], key).Some? {
        var i :| 0 <= i < |es[1..]| && es[1..][i] == Entry(key, Find(es[1..], key).value);
        assert es[i + 1] == es[1..][i];
      }
    }
  }

  lemma {:induction false} DeleteFrom<V>(es: seq<Entry<V>>, key: string)
    ensures forall i :: 0 <= i < |Delete(es, key)| ==> Delete(es, key)[i] in es
  {
    if es != [] && es[0].key != key { DeleteFrom(es[1..], key); }
  }

  predicate Agrees<V(==)>(es: seq<Entry<V>>, ref: map<string, V>) {
    forall i :: 0 <= i < |es| ==> es[i].key in ref && ref[es[i].key] == es[i].value
  }

  lemma TouchedAgrees<V>(es: seq<Entry<V>>, ref: map<string, V>, key: string, value: V)
    requires Agrees(es, ref) && Distinct(Keys(es))
    ensures Agrees(Touched(es, key, value), ref[key := value])
  {
    var rest := Delete(es, key);
    DeleteFrom(es, key);
    KeysDelete(es, key);
    WithoutHas(Keys(es), key);
    forall i | 0 <= i < |rest| ensures rest[i].key in ref && ref[rest[i].key] == rest[i].value && rest[i].key != key {
      assert rest[i] in es;
      assert Keys(rest)[i] == rest[i].key;
    }
  }

  lemma DistinctLast(all: seq<string>, n: nat)
    requires Distinct(all)
    ensures Distinct(LastOf(all, n))
  {
  }

  lemma ApplyKeepsInv<V>(s: State<V>, op: Op<V>, bound: nat)
    requires Inv(s, bound) && bound >= 1
    ensures Inv(Apply(s, op, bound), bound)
  {
    hide Keys, LastOf, ByLastTouch, Delete, Without, Find;
    var all := ByLastTouch(s.log);
    ByLastTouchDistinct(s.log);
    DistinctLast(all, bound);
    match op {
      case GetOp(key) => ApplyGet(s, key, bound);
      case SetOp(key, value) => ApplySet(s, key, value, bound);
    }
  }

  lemma LogGrows(log: seq<string>, key: string)
    ensures ByLastTouch(log + [key]) == Without(ByLastTouch(log), key) + [key]
  {
    assert (log + [key])[..|log|] == log;
  }

  lemma ApplyGet<V>(s: State<V>, key: string, bound: nat)
    requires Inv(s, bound) && bound >= 1 && Distinct(ByLastTouch(s.log)) && Distinct(Keys(s.entries))
    ensures Inv(Apply(s, GetOp(key), bound), bound)
  {
    hide Keys, LastOf, ByLastTouch, Delete, Without, Find;
    var held := Find(s.entries, key);
    FindFinds(s.entries, key);
    if held.Some? {
      var all := ByLastTouch(s.log);
      var es := Touched(s.entries, key, held.value);
      LogGrows(s.log, key);
      KeysTouched(s.entries, key, held.value);
      TouchKeepsLast(all, key, bound);
      KeysLength(s.entries);
      KeysLength(es);
      ShortIsLast(Keys(es), bound);
      assert Agrees(s.entries, s.ref);
      TouchedAgrees(s.entries, s.ref, key, held.value);
      var i :| 0 <= i < |s.entries| && s.entries[i] == Entry(key, held.value);
      assert s.ref[key := held.value] == s.ref;
    }
  }

  lemma KeysLength<V>(es: seq<Entry<V>>)
    ensures |Keys(es)| == |es|
  {
  }

  lemma ShortIsLast(keys: seq<string>, n: nat)
    ensures |keys| <= n ==> LastOf(keys, n) == keys
    ensures |LastOf(keys, n)| <= n
  {
  }

  lemma ApplySet<V>(s: State<V>, key: string, value: V, bound: nat)
    requires Inv(s, bound) && bound >= 1 && Distinct(ByLastTouch(s.log)) && Distinct(Keys(s.entries))
    ensures Inv(Apply(s, SetOp(key, value), bound), bound)
  {
    hide Keys, LastOf, ByLastTouch, Delete, Without, Find;
    var all := ByLastTouch(s.log);
    var es := Touched(s.entries, key, value);
    LogGrows(s.log, key);
    KeysTouched(s.entries, key, value);
    KeysLast(es, bound);
    TouchKeepsLast(all, key, bound);
    KeysLength(LastOf(es, bound));
    ShortIsLast(Keys(es), bound);
    assert Agrees(s.entries, s.ref);
    TouchedAgrees(s.entries, s.ref, key, value);
    LastAgrees(es, s.ref[key := value], bound);
  }

  lemma LastAgrees<V>(es: seq<Entry<V>>, ref: map<string, V>, n: nat)
    requires Agrees(es, ref)
    ensures Agrees(LastOf(es, n), ref)
  {
  }

  lemma {:induction false} ExecKeepsInv<V>(ops: seq<Op<V>>, bound: nat)
    requires bound >= 1
    ensures Inv(Exec(ops, bound), bound)
  {
    hide Apply, Inv;
    if ops == [] {
      StartHolds<V>(bound);
    } else {
      ExecKeepsInv(ops[..|ops| - 1], bound);
      ApplyKeepsInv(Exec(ops[..|ops| - 1], bound), ops[|ops| - 1], bound);
    }
  }

  lemma StartHolds<V>(bound: nat)
    ensures Inv<V>(State([], map[], []), bound)
  {
  }

  /** A capacity is rounded down, to one at least. */
  lemma BoundIs(capacity: real)
    ensures
      if capacity < 2.0 then Bound(capacity) == 1
      else Bound(capacity) as real <= capacity < Bound(capacity) as real + 1.0
  {
  }

  /** The touches of a run: a set always is one, a get is one if its key is among the last `bound` touched. */
  function Touches<V>(ops: seq<Op<V>>, bound: nat): seq<string> {
    if ops == [] then []
    else
      var before := Touches(ops[..|ops| - 1], bound);
      match ops[|ops| - 1]
      case GetOp(key) => if key in LastOf(ByLastTouch(before), bound) then before + [key] else before
      case SetOp(key, _) => before + [key]
  }

  /** The value a run sets last for a key. */
  function LastSet<V>(ops: seq<Op<V>>, key: string): Option<V> {
    if ops == [] then None
    else
      match ops[|ops| - 1]
      case SetOp(k, value) => if k == key then Some(value) else LastSet(ops[..|ops| - 1], key)
      case GetOp(_) => LastSet(ops[..|ops| - 1], key)
  }

  lemma {:induction false} ReferenceIs<V>(ops: seq<Op<V>>, bound: nat, key: string)
    requires bound >= 1
    ensures Exec(ops, bound).log == Touches(ops, bound)
    ensures LastSet(ops, key) == if key in Exec(ops, bound).ref then Some(Exec(ops, bound).ref[key]) else None
  {
    hide Touched, LastOf, ByLastTouch, Keys, Find;
    if ops != [] {
      var init, op := ops[..|ops| - 1], ops[|ops| - 1];
      ReferenceIs(init, bound, key);
      ExecKeepsInv(init, bound);
      if op.GetOp? { FindFinds(Exec(init, bound).entries, op.key); }
    }
  }

  /**
   After any run the store holds exactly the `bound` most recently touched keys,
   in that order, and a hit answers the last value set for its key.
   */
  lemma HoldsMostRecent<V>(ops: seq<Op<V>>, bound: nat, key: string)
    requires bound >= 1
    ensures
      var s := Exec(ops, bound);
      var recent := LastOf(ByLastTouch(Touches(ops, bound)), bound);
      && Keys(s.entries) == recent
      && |s.entries| <= bound
      && Find(s.entries, key) == if key in recent then LastSet(ops, key) else None
  {
    hide Exec, Keys, LastOf, ByLastTouch, Find, Touches, LastSet;
    ExecKeepsInv(ops, bound);
    ReferenceIs(ops, bound, key);
    FindFinds(Exec(ops, bound).entries, key);
  }
}
