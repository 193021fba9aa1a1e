/** Python's `max`, stable descending `sorted` and `heapq.nlargest`, with their exact order of equals. */
module Ordering {

  /** `x` goes behind every element that does not score less. */
  function Insert<T>(sorted: seq<T>, x: T, key: T -> real): seq<T> {
    if sorted != [] && key(sorted[|sorted| - 1]) < key(x) then
      Insert(sorted[..|sorted| - 1], x, key) + [sorted[|sorted| - 1]]
    else
      sorted + [x]
  }

  /** `sorted(xs, key=key, reverse=True)`. */
  function SortDesc<T>(xs: seq<T>, key: T -> real): seq<T> {
    if xs == [] then [] else Insert(SortDesc(xs[..|xs| - 1], key), xs[|xs| - 1], key)
  }

  /** `heapq.nlargest(n, xs, key=key)`, which is also `sorted(...)[:n]`. */
  function Largest<T>(n: nat, xs: seq<T>, key: T -> real): seq<T> {
    var sorted := SortDesc(xs, key);
    if n < |sorted| then sorted[..n] else sorted
  }

  /** `max(xs, key=key)`: the first of the elements with the highest key. */
  function FirstMax<T>(xs: seq<T>, key: T -> real): (best: T)
    requires xs != []
    ensures best in xs
  {
    if |xs| == 1 then xs[0]
    else
      var best := FirstMax(xs[..|xs| - 1], key);
      if key(xs[|xs| - 1]) > key(best) then xs[|xs| - 1] else best
  }

  predicate Descending<T>(xs: seq<T>, key: T -> real) {
    forall i, j | 0 <= i < j < |xs| :: key(xs[i]) >= key(xs[j])
  }

  /** The elements with key `k`, in order. */
  function WithKey<T>(xs: seq<T>, key: T -> real, k: real): seq<T> {
    if xs == [] then []
    else
      WithKey(xs[..|xs| - 1], key, k) + (if key(xs[|xs| - 1]) == k then [xs[|xs| - 1]] else [])
  }

  lemma {:induction false} InsertIsPermutation<T>(sorted: seq<T>, x: T, key: T -> real)
    ensures multiset(Insert(sorted, x, key)) == multiset(sorted) + multiset{x}
    ensures |Insert(sorted, x, key)| == |sorted| + 1
  {
    if sorted != [] && key(sorted[|sorted| - 1]) < key(x) {
      InsertIsPermutation(sorted[..|sorted| - 1], x, key);
      assert sorted == sorted[..|sorted| - 1] + [sorted[|sorted| - 1]];
    }
  }

  lemma {:induction false} InsertKeepsOrder<T>(sorted: seq<T>, x: T, key: T -> real)
    requires Descending(sorted, key)
    ensures Descending(Insert(sorted, x, key), key)
    ensures Insert(sorted, x, key) != []
    ensures Insert(sorted, x, key)[0] == if sorted == [] || key(sorted[0]) < key(x) then x else sorted[0]
  {
    if sorted != [] && key(sorted[|sorted| - 1]) < key(x) {
      var init, last := sorted[..|sorted| - 1], sorted[|sorted| - 1];
      InsertKeepsOrder(init, x, key);
      InsertIsPermutation(init, x, key);
      var r := Insert(init, x, key);
      forall i | 0 <= i < |r|
        ensures key(r[i]) >= key(last)
      {
        assert r[i] in multiset(r);
        assert r[i] in init || r[i] == x;
      }
    }
  }

  lemma {:induction false} InsertIsStable<T>(sorted: seq<T>, x: T, key: T -> real, k: real)
    requires Descending(sorted, key)
    ensures WithKey(Insert(sorted, x, key), key, k)
            == WithKey(sorted, key, k) + (if key(x) == k then [x] else [])
  {
    if sorted != [] && key(sorted[|sorted| - 1]) < key(x) {
      var init, last := sorted[..|sorted| - 1], sorted[|sorted| - 1];
      InsertIsStable(init, x, key, k);
      assert Insert(sorted, x, key)[..|Insert(sorted, x, key)| - 1] == Insert(init, x, key);
      if key(x) == k {
        assert key(last) != k;
      }
    } else {
      assert Insert(sorted, x, key)[..|sorted|] == sorted;
    }
  }

  lemma {:induction false} SortIsPermutation<T>(xs: seq<T>, key: T -> real)
    ensures multiset(SortDesc(xs, key)) == multiset(xs)
    ensures |SortDesc(xs, key)| == |xs|
  {
    if xs != [] {
      SortIsPermutation(xs[..|xs| - 1], key);
      InsertIsPermutation(SortDesc(xs[..|xs| - 1], key), xs[|xs| - 1], key);
      assert xs == xs[..|xs| - 1] + [xs[|xs| - 1]];
    }
  }

  /** Sorting gives descending order and puts the first maximum first. */
  lemma {:induction false} SortIsDescending<T>(xs: seq<T>, key: T -> real)
    ensures Descending(SortDesc(xs, key), key)
    ensures xs != [] ==> SortDesc(xs, key) != [] && SortDesc(xs, key)[0] == FirstMax(xs, key)
  {
    if xs != [] {
      var init := xs[..|xs| - 1];
      SortIsDescending(init, key);
      SortIsPermutation(init, key);
      InsertKeepsOrder(SortDesc(init, key), xs[|xs| - 1], key);
    }
  }

  /** Equals keep their old order. */
  lemma {:induction false} SortIsStable<T>(xs: seq<T>, key: T -> real, k: real)
    ensures WithKey(SortDesc(xs, key), key, k) == WithKey(xs, key, k)
  {
    if xs != [] {
      var init := xs[..|xs| - 1];
      SortIsDescending(init, key);
      SortIsStable(init, key, k);
      InsertIsStable(SortDesc(init, key), xs[|xs| - 1], key, k);
    }
  }

  /** `max` returns the first element that no element exceeds. */
  lemma {:induction false} FirstMaxIsFirst<T>(xs: seq<T>, key: T -> real) returns (i: nat)
    requires xs != []
    ensures i < |xs| && xs[i] == FirstMax(xs, key)
    ensures forall j | 0 <= j < |xs| :: key(xs[j]) <= key(xs[i])
    ensures forall j | 0 <= j < i :: key(xs[j]) < key(xs[i])
  {
    if |xs| == 1 {
      i := 0;
    } else {
      i := FirstMaxIsFirst(xs[..|xs| - 1], key);
      if key(xs[|xs| - 1]) > key(xs[i]) {
        i := |xs| - 1;
      }
    }
  }

  /** An element that beats none of the others is sorted last when it was last. */
  lemma {:induction false} LeastStaysLast<T>(xs: seq<T>, x: T, key: T -> real)
    requires forall y | y in xs :: key(x) <= key(y)
    ensures SortDesc(xs + [x], key) == SortDesc(xs, key) + [x]
  {
    var sorted := SortDesc(xs, key);
    SortIsPermutation(xs, key);
    assert (xs + [x])[..|xs|] == xs;
    if sorted != [] {
      assert sorted[|sorted| - 1] in multiset(sorted);
      assert sorted[|sorted| - 1] in xs;
    }
  }

  lemma LargestIsPrefix<T>(n: nat, xs: seq<T>, key: T -> real)
    ensures Largest(n, xs, key) <= SortDesc(xs, key)
    ensures |Largest(n, xs, key)| == (if n < |xs| then n else |xs|)
    ensures forall x | x in xs :: x in SortDesc(xs, key)
    ensures forall x | x in Largest(n, xs, key) :: x in xs
    ensures |xs| <= n ==> multiset(Largest(n, xs, key)) == multiset(xs)
  {
    SortIsPermutation(xs, key);
    var sorted := SortDesc(xs, key);
    forall x | x in xs
      ensures x in sorted
    {
      assert x in multiset(sorted);
    }
    forall x | x in sorted
      ensures x in xs
    {
      assert x in multiset(xs);
    }
  }

  /**
   * Keeping the `n` largest keeps a prefix of the stable sort: nothing that is cut beats anything kept,
   * nothing is cut when there is room, and the first maximum is kept first.
   */
  lemma LargestIsExact<T>(n: nat, xs: seq<T>, key: T -> real)
    ensures Descending(Largest(n, xs, key), key)
    ensures |Largest(n, xs, key)| == (if n < |xs| then n else |xs|)
    ensures forall x | x in Largest(n, xs, key) :: x in xs
    ensures forall x, y | x in xs && x !in Largest(n, xs, key) && y in Largest(n, xs, key) :: key(x) <= key(y)
    ensures |xs| <= n ==> multiset(Largest(n, xs, key)) == multiset(xs)
    ensures n >= 1 && xs != [] ==> Largest(n, xs, key)[0] == FirstMax(xs, key)
  {
    LargestIsPrefix(n, xs, key);
    SortIsDescending(xs, key);
    var sorted, top := SortDesc(xs, key), Largest(n, xs, key);
    forall x, y | x in xs && x !in top && y in top
      ensures key(x) <= key(y)
    {
      var i :| 0 <= i < |sorted| && sorted[i] == x;
      var j :| 0 <= j < |top| && top[j] == y;
      assert sorted[j] == y;
      assert i >= |top| by {
        assert forall k | 0 <= k < |top| :: top[k] == sorted[k];
      }
    }
  }

  /** The first of the kept elements is the first maximum. */
  lemma {:induction false} FirstOfLargest<T>(n: nat, xs: seq<T>, key: T -> real) returns (i: nat)
    requires n >= 1 && xs != []
    ensures i < |xs| && Largest(n, xs, key) != [] && Largest(n, xs, key)[0] == xs[i]
    ensures forall j | 0 <= j < |xs| :: key(xs[j]) <= key(xs[i])
    ensures forall j | 0 <= j < i :: key(xs[j]) < key(xs[i])
  {
    LargestIsPrefix(n, xs, key);
    SortIsDescending(xs, key);
    i := FirstMaxIsFirst(xs, key);
  }

  /** An element that beats none of the others, listed after them, is kept exactly if there is room for all. */
  lemma {:induction false} LeastIsKeptIfRoom<T>(n: nat, xs: seq<T>, x: T, key: T -> real)
    requires x !in xs && forall y | y in xs :: key(x) <= key(y)
    ensures x in Largest(n, xs + [x], key) <==> |xs| < n
    ensures |xs| < n ==> Largest(n, xs + [x], key) == SortDesc(xs, key) + [x]
    ensures forall y | y in Largest(n, xs + [x], key) :: y == x || y in xs
  {
    hide Insert;
    LeastStaysLast(xs, x, key);
    SortIsPermutation(xs, key);
    var sorted := SortDesc(xs, key);
    forall y | y in sorted
      ensures y in xs
    {
      assert y in multiset(sorted);
    }
    assert |SortDesc(xs + [x], key)| == |xs| + 1;
    if |xs| >= n {
      assert Largest(n, xs + [x], key) == sorted[..n];
      assert forall y | y in sorted[..n] :: y in sorted;
    } else {
      assert Largest(n, xs + [x], key) == sorted + [x];
    }
  }
}
