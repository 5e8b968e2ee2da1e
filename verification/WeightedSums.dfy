/** Sums over sequences and stable insertion sorting, as the event query uses them. */
module WeightedSums {
  function Sum<T>(xs: seq<T>, weight: T -> nat): nat {
    if xs == [] then 0 else Sum(xs[..|xs| - 1], weight) + weight(xs[|xs| - 1])
  }

  lemma {:induction false} SumAppend<T>(xs: seq<T>, ys: seq<T>, weight: T -> nat)
    ensures Sum(xs + ys, weight) == Sum(xs, weight) + Sum(ys, weight)
  {
    if ys == [] {
      assert xs + ys == xs;
    } else {
      assert (xs + ys)[..|xs + ys| - 1] == xs + ys[..|ys| - 1];
      SumAppend(xs, ys[..|ys| - 1], weight);
    }
  }

  lemma {:induction false} SumPointwise<T>(xs: seq<T>, w: T -> nat, u: T -> nat, v: T -> nat)
    requires forall i :: 0 <= i < |xs| ==> w(xs[i]) == u(xs[i]) + v(xs[i])
    ensures Sum(xs, w) == Sum(xs, u) + Sum(xs, v)
  {
    if xs != [] { SumPointwise(xs[..|xs| - 1], w, u, v); }
  }

  lemma {:induction false} SumSame<T>(xs: seq<T>, w: T -> nat, u: T -> nat)
    requires forall i :: 0 <= i < |xs| ==> w(xs[i]) == u(xs[i])
    ensures Sum(xs, w) == Sum(xs, u)
  {
    if xs != [] { SumSame(xs[..|xs| - 1], w, u); }
  }

  /** A sum of zeros and ones reaches the length exactly when every weight is one. */
  lemma {:induction false} SumOfOnes<T>(xs: seq<T>, w: T -> nat)
    requires forall i :: 0 <= i < |xs| ==> w(xs[i]) <= 1
    ensures Sum(xs, w) <= |xs|
    ensures Sum(xs, w) == |xs| <==> forall i :: 0 <= i < |xs| ==> w(xs[i]) == 1
  {
    if xs != [] { SumOfOnes(xs[..|xs| - 1], w); }
  }

  function Insert<T>(xs: seq<T>, x: T, before: (T, T) -> bool): seq<T> {
    if xs == [] then [x]
    else if before(x, xs[0]) then [x] + xs
    else [xs[0]] + Insert(xs[1..], x, before)
  }

  /** A stable sort: an element moves left only past those it sorts before. */
  function Sorted<T>(xs: seq<T>, before: (T, T) -> bool): seq<T> {
    if xs == [] then [] else Insert(Sorted(xs[..|xs| - 1], before), xs[|xs| - 1], before)
  }

  lemma {:induction false} InsertSum<T>(xs: seq<T>, x: T, before: (T, T) -> bool, weight: T -> nat)
    ensures Sum(Insert(xs, x, before), weight) == Sum(xs, weight) + weight(x)
    ensures |Insert(xs, x, before)| == |xs| + 1
  {
    if xs == [] {
      assert [x][..0] == [];
    } else if before(x, xs[0]) {
      SumAppend([x], xs, weight);
      assert [x][..0] == [];
    } else {
      InsertSum(xs[1..], x, before, weight);
      SumAppend([xs[0]], Insert(xs[1..], x, before), weight);
      SumAppend([xs[0]], xs[1..], weight);
      assert [xs[0]] + xs[1..] == xs;
    }
  }

  /** Sorting permutes: no weighing of the elements tells the two apart. */
  lemma {:induction false} SortKeepsSums<T>(xs: seq<T>, before: (T, T) -> bool, weight: T -> nat)
    ensures Sum(Sorted(xs, before), weight) == Sum(xs, weight)
    ensures |Sorted(xs, before)| == |xs|
  {
    if xs != [] {
      SortKeepsSums(xs[..|xs| - 1], before, weight);
      InsertSum(Sorted(xs[..|xs| - 1], before), xs[|xs| - 1], before, weight);
    }
  }

  predicate AtLeast<T>(xs: seq<T>, rank: T -> int, low: int) {
    forall i :: 0 <= i < |xs| ==> low <= rank(xs[i])
  }

  predicate Ordered<T>(xs: seq<T>, rank: T -> int) {
    forall i, j :: 0 <= i < j < |xs| ==> rank(xs[i]) <= rank(xs[j])
  }

  /** `before` never contradicts the rank. */
  ghost predicate Respects<T(!new)>(before: (T, T) -> bool, rank: T -> int) {
    forall x, y :: if before(x, y) then rank(x) <= rank(y) else rank(y) <= rank(x)
  }

  lemma {:induction false} InsertAtLeast<T>(xs: seq<T>, x: T, before: (T, T) -> bool, rank: T -> int, low: int)
    requires AtLeast(xs, rank, low) && low <= rank(x)
    ensures AtLeast(Insert(xs, x, before), rank, low)
  {
    if xs != [] && !before(x, xs[0]) { InsertAtLeast(xs[1..], x, before, rank, low); }
  }

  lemma {:induction false} InsertOrdered<T(!new)>(xs: seq<T>, x: T, before: (T, T) -> bool, rank: T -> int)
    requires Respects(before, rank) && Ordered(xs, rank)
    ensures Ordered(Insert(xs, x, before), rank)
  {
    if xs != [] && !before(x, xs[0]) {
      InsertOrdered(xs[1..], x, before, rank);
      InsertAtLeast(xs[1..], x, before, rank, rank(xs[0]));
    }
  }

  lemma {:induction false} SortOrders<T(!new)>(xs: seq<T>, before: (T, T) -> bool, rank: T -> int)
    requires Respects(before, rank)
    ensures Ordered(Sorted(xs, before), rank)
  {
    if xs != [] {
      SortOrders(xs[..|xs| - 1], before, rank);
      InsertOrdered(Sorted(xs[..|xs| - 1], before), xs[|xs| - 1], before, rank);
    }
  }

  /** The elements of one rank, in their order. */
  function Pick<T>(xs: seq<T>, rank: T -> int, k: int): seq<T> {
    if xs == [] then [] else (if rank(xs[0]) == k then [xs[0]] else []) + Pick(xs[1..], rank, k)
  }

  lemma {:induction false} PickNone<T>(xs: seq<T>, rank: T -> int, k: int)
    requires forall i :: 0 <= i < |xs| ==> rank(xs[i]) != k
    ensures Pick(xs, rank, k) == []
  {
    if xs != [] { PickNone(xs[1..], rank, k); }
  }

  lemma {:induction false} PickLast<T>(xs: seq<T>, x: T, rank: T -> int, k: int)
    ensures Pick(xs + [x], rank, k) == Pick(xs, rank, k) + if rank(x) == k then [x] else []
  {
    if xs == [] {
      assert [] + [x] == [x] && [x][1..] == [];
    } else {
      var rest := xs[1..];
      PickLast(rest, x, rank, k);
      hide Pick;
      assert xs == [xs[0]] + rest;
      assert xs + [x] == [xs[0]] + (rest + [x]);
      PickFirst(xs[0], rest, rank, k);
      PickFirst(xs[0], rest + [x], rank, k);
    }
  }

  lemma {:induction false} InsertIsStable<T(!new)>(xs: seq<T>, x: T, before: (T, T) -> bool, rank: T -> int, k: int)
    requires Ordered(xs, rank) && forall a, b :: before(a, b) <==> rank(a) < rank(b)
    ensures Pick(Insert(xs, x, before), rank, k) == Pick(xs, rank, k) + if rank(x) == k then [x] else []
  {
    hide Pick;
    if xs == [] {
      PickLast(xs, x, rank, k);
      assert xs + [x] == [x];
    } else if before(x, xs[0]) {
      PickFirst(x, xs, rank, k);
      if rank(x) == k {
        PickNone(xs, rank, k);
        assert [x] + [] == [] + [x];
      } else {
        assert Pick(xs, rank, k) + [] == [] + Pick(xs, rank, k);
      }
    } else {
      var y, rest := xs[0], xs[1..];
      InsertIsStable(rest, x, before, rank, k);
      PickFirst(y, Insert(rest, x, before), rank, k);
      PickFirst(y, rest, rank, k);
      assert xs == [y] + rest;
    }
  }

  lemma PickFirst<T>(x: T, xs: seq<T>, rank: T -> int, k: int)
    ensures Pick([x] + xs, rank, k) == (if rank(x) == k then [x] else []) + Pick(xs, rank, k)
  {
    assert ([x] + xs)[1..] == xs;
  }

  /** Elements of equal rank keep their order. */
  lemma {:induction false} SortIsStable<T(!new)>(xs: seq<T>, before: (T, T) -> bool, rank: T -> int, k: int)
    requires forall a, b :: before(a, b) <==> rank(a) < rank(b)
    ensures Pick(Sorted(xs, before), rank, k) == Pick(xs, rank, k)
  {
    if xs != [] {
      var init, x := xs[..|xs| - 1], xs[|xs| - 1];
      SortIsStable(init, before, rank, k);
      SortOrders(init, before, rank);
      InsertIsStable(Sorted(init, before), x, before, rank, k);
      PickLast(init, x, rank, k);
      assert init + [x] == xs;
    }
  }

  /** `before` is asymmetric and transitive. */
  ghost predicate Strict<T(!new)>(before: (T, T) -> bool) {
    && (forall x, y :: before(x, y) ==> !before(y, x))
    && (forall x, y, z :: before(x, y) && before(y, z) ==> before(x, z))
  }

  predicate NoneBefore<T>(xs: seq<T>, x: T, before: (T, T) -> bool) {
    forall i :: 0 <= i < |xs| ==> !before(xs[i], x)
  }

  ghost predicate InOrder<T>(xs: seq<T>, before: (T, T) -> bool) {
    forall i, j :: 0 <= i < j < |xs| ==> !before(xs[j], xs[i])
  }

  lemma {:induction false} InsertNoneBefore<T>(xs: seq<T>, x: T, y: T, before: (T, T) -> bool)
    requires NoneBefore(xs, y, before) && !before(x, y)
    ensures NoneBefore(Insert(xs, x, before), y, before)
  {
    if xs != [] && !before(x, xs[0]) { InsertNoneBefore(xs[1..], x, y, before); }
  }

  lemma {:induction false} InsertInOrder<T(!new)>(xs: seq<T>, x: T, before: (T, T) -> bool)
    requires Strict(before) && InOrder(xs, before)
    ensures InOrder(Insert(xs, x, before), before)
  {
    if xs != [] && !before(x, xs[0]) {
      InsertInOrder(xs[1..], x, before);
      InsertNoneBefore(xs[1..], x, xs[0], before);
    }
  }

  /** No element of the result comes before one in front of it. */
  lemma {:induction false} SortIsInOrder<T(!new)>(xs: seq<T>, before: (T, T) -> bool)
    requires Strict(before)
    ensures InOrder(Sorted(xs, before), before)
  {
    if xs != [] {
      SortIsInOrder(xs[..|xs| - 1], before);
      InsertInOrder(Sorted(xs[..|xs| - 1], before), xs[|xs| - 1], before);
    }
  }
}
