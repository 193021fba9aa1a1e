/** Where an element ends up when a list is sorted, and hence whether it is among the largest. */
module Placement {
  import opened Domain
  import opened Ordering

  /** How many elements have at least this key. */
  function AtLeast<T>(xs: seq<T>, key: T -> real, k: real): nat {
    if xs == [] then 0
    else AtLeast(xs[..|xs| - 1], key, k) + (if key(xs[|xs| - 1]) >= k then 1 else 0)
  }

  /** How many elements have a higher key. */
  function Above<T>(xs: seq<T>, key: T -> real, k: real): nat {
    if xs == [] then 0
    else Above(xs[..|xs| - 1], key, k) + (if key(xs[|xs| - 1]) > k then 1 else 0)
  }

  /** How many elements come before the `p`-th: those with a higher key, and earlier ones with the same. */
  function Place<T>(xs: seq<T>, key: T -> real, p: nat): nat
    requires p < |xs|
  {
    AtLeast(xs[..p], key, key(xs[p])) + Above(xs[p + 1..], key, key(xs[p]))
  }

  /** In a descending list those with at least a key come first. */
  lemma {:induction false} AtLeastIsPrefix<T>(sorted: seq<T>, key: T -> real, k: real)
    requires Descending(sorted, key)
    ensures AtLeast(sorted, key, k) <= |sorted|
    ensures forall i | 0 <= i < |sorted| :: i < AtLeast(sorted, key, k) <==> key(sorted[i]) >= k
  {
    if sorted != [] {
      AtLeastIsPrefix(sorted[..|sorted| - 1], key, k);
    }
  }

  function InsertedAt<T>(xs: seq<T>, q: nat, x: T): seq<T>
    requires q <= |xs|
  {
    xs[..q] + [x] + xs[q..]
  }

  lemma InsertedSnoc<T>(xs: seq<T>, last: T, q: nat, x: T)
    requires q <= |xs|
    ensures InsertedAt(xs + [last], q, x) == InsertedAt(xs, q, x) + [last]
    ensures InsertedAt(xs, |xs|, x) == xs + [x]
  {
  }

  lemma {:induction false} InsertPlaces<T>(sorted: seq<T>, x: T, key: T -> real)
    requires Descending(sorted, key)
    ensures var q := AtLeast(sorted, key, key(x));
            q <= |sorted| && Insert(sorted, x, key) == InsertedAt(sorted, q, x)
  {
    hide InsertedAt;
    AtLeastIsPrefix(sorted, key, key(x));
    if sorted != [] && key(sorted[|sorted| - 1]) < key(x) {
      var init, last := sorted[..|sorted| - 1], sorted[|sorted| - 1];
      InsertPlaces(init, x, key);
      assert sorted == init + [last];
      InsertedSnoc(init, last, AtLeast(init, key, key(x)), x);
    } else if sorted == [] {
      InsertedSnoc(sorted, x, 0, x);
    } else {
      assert AtLeast(sorted, key, key(x)) == |sorted|;
      InsertedSnoc(sorted, x, |sorted|, x);
    }
  }

  lemma {:induction false} InsertCounts<T>(sorted: seq<T>, x: T, key: T -> real, k: real)
    ensures AtLeast(Insert(sorted, x, key), key, k) == AtLeast(sorted, key, k) + (if key(x) >= k then 1 else 0)
  {
    var r := Insert(sorted, x, key);
    if sorted != [] && key(sorted[|sorted| - 1]) < key(x) {
      InsertCounts(sorted[..|sorted| - 1], x, key, k);
      assert r[..|r| - 1] == Insert(sorted[..|sorted| - 1], x, key);
    } else {
      assert r[..|r| - 1] == sorted;
    }
  }

  lemma {:induction false} SortCounts<T>(xs: seq<T>, key: T -> real, k: real)
    ensures AtLeast(SortDesc(xs, key), key, k) == AtLeast(xs, key, k)
  {
    if xs != [] {
      SortCounts(xs[..|xs| - 1], key, k);
      InsertCounts(SortDesc(xs[..|xs| - 1], key), xs[|xs| - 1], key, k);
    }
  }

  lemma InsertedElements<T>(xs: seq<T>, q: nat, x: T, r: nat)
    requires q <= |xs| && r < |xs|
    ensures |InsertedAt(xs, q, x)| == |xs| + 1 && InsertedAt(xs, q, x)[q] == x
    ensures InsertedAt(xs, q, x)[if r < q then r else r + 1] == xs[r]
  {
  }

  lemma InsertedDistinct<T>(xs: seq<T>, q: nat, x: T)
    requires q <= |xs| && Distinct(xs) && x !in xs
    ensures Distinct(InsertedAt(xs, q, x))
  {
    var ys := InsertedAt(xs, q, x);
    assert forall i | 0 <= i < |ys| :: ys[i] == if i < q then xs[i] else if i == q then x else xs[i - 1];
  }

  lemma {:induction false} PlaceOfEarlier<T>(init: seq<T>, last: T, key: T -> real, p: nat)
    requires p < |init|
    ensures Place(init + [last], key, p) == Place(init, key, p) + (if key(last) > key(init[p]) then 1 else 0)
  {
    var xs := init + [last];
    var after := xs[p + 1..];
    assert xs[..p] == init[..p] && after[..|after| - 1] == init[p + 1..] && after[|after| - 1] == last;
  }

  /** Sorting moves the `p`-th element exactly behind those that come before it. */
  lemma {:induction false} PlaceInSorted<T>(xs: seq<T>, key: T -> real, p: nat)
    requires p < |xs|
    ensures Place(xs, key, p) < |SortDesc(xs, key)| && SortDesc(xs, key)[Place(xs, key, p)] == xs[p]
  {
    hide Insert, AtLeast, Above, Place, InsertedAt;
    var n := |xs| - 1;
    var init, last := xs[..n], xs[n];
    var sorted := SortDesc(init, key);
    var q := AtLeast(sorted, key, key(last));
    assert xs == init + [last];
    SortIsDescending(init, key);
    AtLeastIsPrefix(sorted, key, key(last));
    InsertPlaces(sorted, last, key);
    if p < n {
      PlaceInSorted(init, key, p);
      PlaceOfEarlier(init, last, key, p);
      InsertedElements(sorted, q, last, Place(init, key, p));
    } else {
      SortCounts(init, key, key(last));
      LastPlace(init, last, key);
      assert InsertedAt(sorted, q, last)[q] == last by {
        InsertedLast(sorted, q, last);
      }
    }
  }

  lemma InsertedLast<T>(xs: seq<T>, q: nat, x: T)
    requires q <= |xs|
    ensures |InsertedAt(xs, q, x)| == |xs| + 1 && InsertedAt(xs, q, x)[q] == x
  {
  }

  lemma LastPlace<T>(init: seq<T>, last: T, key: T -> real)
    ensures Place(init + [last], key, |init|) == AtLeast(init, key, key(last))
  {
    assert (init + [last])[..|init|] == init && (init + [last])[|init| + 1..] == [];
  }

  lemma {:induction false} SortOfDistinct<T>(xs: seq<T>, key: T -> real)
    requires Distinct(xs)
    ensures Distinct(SortDesc(xs, key))
  {
    hide Insert, AtLeast, InsertedAt;
    if xs != [] {
      var init, last := xs[..|xs| - 1], xs[|xs| - 1];
      var sorted := SortDesc(init, key);
      SortOfDistinct(init, key);
      SortIsDescending(init, key);
      InsertPlaces(sorted, last, key);
      LargestIsPrefix(|init|, init, key);
      assert last !in init;
      SortedElements(init, key);
      InsertedDistinct(sorted, AtLeast(sorted, key, key(last)), last);
    }
  }

  lemma SortedElements<T>(xs: seq<T>, key: T -> real)
    ensures forall x | x in SortDesc(xs, key) :: x in xs
  {
    SortIsPermutation(xs, key);
    forall x | x in SortDesc(xs, key)
      ensures x in xs
    {
      assert x in multiset(xs);
    }
  }

  /** Among different elements the `p`-th is one of the `n` largest if and only if fewer than `n` come before it. */
  lemma {:induction false} LargestByPlace<T>(n: nat, xs: seq<T>, key: T -> real, p: nat)
    requires Distinct(xs) && p < |xs|
    ensures xs[p] in Largest(n, xs, key) <==> Place(xs, key, p) < n
  {
    hide SortDesc, Place;
    var sorted, top, q := SortDesc(xs, key), Largest(n, xs, key), Place(xs, key, p);
    PlaceInSorted(xs, key, p);
    SortOfDistinct(xs, key);
    SortIsPermutation(xs, key);
    assert forall i | 0 <= i < |top| :: top[i] == sorted[i];
    if i :| 0 <= i < |top| && top[i] == xs[p] {
      assert sorted[i] == sorted[q];
    }
  }

  lemma {:induction false} AtLeastAppend<T>(xs: seq<T>, ys: seq<T>, key: T -> real, k: real)
    ensures AtLeast(xs + ys, key, k) == AtLeast(xs, key, k) + AtLeast(ys, key, k)
  {
    if ys == [] {
      assert xs + ys == xs;
    } else {
      AtLeastAppend(xs, ys[..|ys| - 1], key, k);
      assert (xs + ys)[..|xs + ys| - 1] == xs + ys[..|ys| - 1];
    }
  }

  lemma {:induction false} AboveAppend<T>(xs: seq<T>, ys: seq<T>, key: T -> real, k: real)
    ensures Above(xs + ys, key, k) == Above(xs, key, k) + Above(ys, key, k)
  {
    if ys == [] {
      assert xs + ys == xs;
    } else {
      AboveAppend(xs, ys[..|ys| - 1], key, k);
      assert (xs + ys)[..|xs + ys| - 1] == xs + ys[..|ys| - 1];
    }
  }

  lemma {:induction false} AboveIsAtLeast<T>(xs: seq<T>, key: T -> real, k: real)
    ensures Above(xs, key, k) <= AtLeast(xs, key, k)
  {
    if xs != [] {
      AboveIsAtLeast(xs[..|xs| - 1], key, k);
    }
  }

  lemma OneAtLeast<T>(x: T, key: T -> real)
    ensures AtLeast([x], key, key(x)) == 1
  {
    assert [x][..0] == [];
  }

  /** Of two elements with one key the earlier comes first. */
  lemma {:induction false} EarlierTieFirst<T>(xs: seq<T>, key: T -> real, p: nat, q: nat)
    requires p < q < |xs| && key(xs[p]) == key(xs[q])
    ensures Place(xs, key, p) < Place(xs, key, q)
  {
    hide AtLeast, Above;
    var k, between := key(xs[p]), xs[p + 1..q];
    AtLeastAppend(xs[..p], [xs[p]], key, k);
    AtLeastAppend(xs[..p] + [xs[p]], between, key, k);
    assert xs[..q] == xs[..p] + [xs[p]] + between;
    OneAtLeast(xs[p], key);
    AboveIsAtLeast(between, key, k);
    AboveAppend(between, xs[q..], key, k);
    assert xs[p + 1..] == between + xs[q..];
    AboveAppend([xs[q]], xs[q + 1..], key, k);
    assert xs[q..] == [xs[q]] + xs[q + 1..];
    NoneAbove([xs[q]], key, k);
  }

  /** Of two elements the one with the higher key comes first. */
  lemma {:induction false} HigherFirst<T>(xs: seq<T>, key: T -> real, p: nat, q: nat)
    requires p < |xs| && q < |xs| && key(xs[p]) > key(xs[q])
    ensures Place(xs, key, p) < Place(xs, key, q)
  {
    hide Place, SortDesc;
    PlaceInSorted(xs, key, p);
    PlaceInSorted(xs, key, q);
    SortIsDescending(xs, key);
  }

  lemma {:induction false} NoneAbove<T>(xs: seq<T>, key: T -> real, k: real)
    requires forall x | x in xs :: key(x) <= k
    ensures Above(xs, key, k) == 0
  {
    if xs != [] {
      NoneAbove(xs[..|xs| - 1], key, k);
    }
  }

  /** Position `p` comes before position `q`: it has the higher key, or the same and is listed earlier. */
  predicate ComesFirst<T>(xs: seq<T>, key: T -> real, p: nat, q: nat)
    requires p < |xs| && q < |xs|
  {
    key(xs[p]) > key(xs[q]) || (key(xs[p]) == key(xs[q]) && p < q)
  }

  predicate Occurs(at: seq<nat>, p: nat) {
    exists k :: 0 <= k < |at| && at[k] == p
  }

  /** `at` lists positions of `xs`, each before the next and all of them before every other position. */
  ghost predicate ListsFirst<T>(xs: seq<T>, key: T -> real, at: seq<nat>) {
    && (forall k | 0 <= k < |at| :: at[k] < |xs|)
    && (forall j, k | 0 <= j < k < |at| :: ComesFirst(xs, key, at[j], at[k]))
    && (forall k, p: nat | 0 <= k < |at| && p < |xs| && !Occurs(at, p) :: ComesFirst(xs, key, at[k], p))
  }

  /** `kept` holds the elements of `xs` at these positions. */
  ghost predicate PicksAt<T>(kept: seq<T>, xs: seq<T>, at: seq<nat>) {
    && |kept| == |at|
    && forall k | 0 <= k < |at| :: at[k] < |xs| && kept[k] == xs[at[k]]
  }

  /** `kept` are the `n` elements with the highest keys, or all if there are fewer, best first and equals in order. */
  ghost predicate AreTop<T(!new)>(kept: seq<T>, xs: seq<T>, n: nat, key: T -> real) {
    && |kept| == (if n < |xs| then n else |xs|)
    && exists at :: ListsFirst(xs, key, at) && PicksAt(kept, xs, at)
  }

  /** All positions of `xs` in the order of the sorted list. */
  ghost predicate SortsAt<T>(sorted: seq<T>, xs: seq<T>, key: T -> real, at: seq<nat>) {
    && PicksAt(sorted, xs, at)
    && (forall j, k | 0 <= j < k < |at| :: ComesFirst(xs, key, at[j], at[k]))
    && forall p: nat | p < |xs| :: Occurs(at, p)
  }

  lemma {:induction false} SortedPositions<T>(xs: seq<T>, key: T -> real) returns (at: seq<nat>)
    ensures SortsAt(SortDesc(xs, key), xs, key, at)
  {
    at := [];
    if xs != [] {
      hide Insert, AtLeast, InsertedAt, SortsAt;
      var n := |xs| - 1;
      var init, last := xs[..n], xs[n];
      var sorted := SortDesc(init, key);
      var q := AtLeast(sorted, key, key(last));
      var before := SortedPositions(init, key);
      SortIsDescending(init, key);
      AtLeastIsPrefix(sorted, key, key(last));
      InsertPlaces(sorted, last, key);
      at := LastComesAt(init, last, key, sorted, before, q);
      assert xs == init + [last];
    }
  }

  lemma InsertedAre<T>(xs: seq<T>, q: nat, x: T, all: seq<T>)
    requires q <= |xs| && all == InsertedAt(xs, q, x)
    ensures |all| == |xs| + 1 && all[q] == x
    ensures forall k | 0 <= k < q :: all[k] == xs[k]
    ensures forall k | q < k < |all| :: all[k] == xs[k - 1]
  {
  }

  lemma LastComesAt<T>(init: seq<T>, last: T, key: T -> real, sorted: seq<T>, before: seq<nat>, q: nat)
    returns (at: seq<nat>)
    requires SortsAt(sorted, init, key, before) && q <= |sorted|
    requires forall i | 0 <= i < |sorted| :: i < q <==> key(sorted[i]) >= key(last)
    ensures SortsAt(InsertedAt(sorted, q, last), init + [last], key, at)
  {
    hide InsertedAt;
    at := InsertedAt<nat>(before, q, |init|);
    InsertedAre<nat>(before, q, |init|, at);
    InsertedAre(sorted, q, last, InsertedAt(sorted, q, last));
    EachPositionOccurs(before, q, |init|);
    LastIsInOrder(init, last, key, before, q, at);
  }

  lemma EachPositionOccurs(before: seq<nat>, q: nat, n: nat)
    requires q <= |before| && forall p: nat | p < n :: Occurs(before, p)
    ensures forall p: nat | p <= n :: Occurs(InsertedAt<nat>(before, q, n), p)
  {
    hide InsertedAt;
    var at := InsertedAt<nat>(before, q, n);
    InsertedAre<nat>(before, q, n, at);
    forall p: nat | p <= n
      ensures Occurs(at, p)
    {
      if p < n {
        assert Occurs(before, p);
        var k :| 0 <= k < |before| && before[k] == p;
        assert at[if k < q then k else k + 1] == p;
      } else {
        assert at[q] == p;
      }
    }
  }

  lemma LastIsInOrder<T>(init: seq<T>, last: T, key: T -> real, before: seq<nat>, q: nat, at: seq<nat>)
    requires q <= |before| && at == InsertedAt<nat>(before, q, |init|)
    requires forall k | 0 <= k < |before| :: before[k] < |init|
    requires forall j, k | 0 <= j < k < |before| :: ComesFirst(init, key, before[j], before[k])
    requires forall k | 0 <= k < |before| :: k < q <==> key(init[before[k]]) >= key(last)
    ensures forall k | 0 <= k < |at| :: at[k] < |init + [last]|
    ensures forall j, k | 0 <= j < k < |at| :: ComesFirst(init + [last], key, at[j], at[k])
  {
    hide InsertedAt;
    var xs := init + [last];
    InsertedAre<nat>(before, q, |init|, at);
    assert forall k | 0 <= k < |at| :: at[k] < |xs|;
    forall j, k | 0 <= j < k < |at|
      ensures ComesFirst(xs, key, at[j], at[k])
    {
      var j', k' := if j < q then j else j - 1, if k < q then k else k - 1;
      if j != q && k != q {
        assert ComesFirst(init, key, before[j'], before[k']);
      } else if j == q {
        assert at[k] == before[k'];
      } else {
        assert at[j] == before[j'];
      }
    }
  }

  /** The largest elements are the top ones, with equals in their order. */
  lemma LargestAreTop<T(!new)>(n: nat, xs: seq<T>, key: T -> real)
    ensures AreTop(Largest(n, xs, key), xs, n, key)
  {
    hide SortDesc, ComesFirst;
    var all := SortedPositions(xs, key);
    LargestIsPrefix(n, xs, key);
    SortIsPermutation(xs, key);
    var at := if n < |xs| then all[..n] else all;
    forall k, p: nat | 0 <= k < |at| && p < |xs| && !Occurs(at, p)
      ensures ComesFirst(xs, key, at[k], p)
    {
      assert Occurs(all, p);
      var j :| 0 <= j < |all| && all[j] == p;
      assert forall i | 0 <= i < |at| :: at[i] == all[i] != p;
      assert ComesFirst(xs, key, all[k], all[j]);
    }
    assert ListsFirst(xs, key, at) && PicksAt(Largest(n, xs, key), xs, at);
  }

  /** There is only one list of top elements. */
  lemma {:induction false} TopIsUnique<T(!new)>(a: seq<T>, b: seq<T>, xs: seq<T>, n: nat, key: T -> real)
    requires AreTop(a, xs, n, key) && AreTop(b, xs, n, key)
    ensures a == b
  {
    hide ListsFirst;
    var at :| ListsFirst(xs, key, at) && PicksAt(a, xs, at);
    var bt :| ListsFirst(xs, key, bt) && PicksAt(b, xs, bt);
    SamePositions(xs, key, at, bt, |at|);
    assert at == at[..|at|] && bt == bt[..|at|];
  }

  lemma {:induction false} SamePositions<T>(xs: seq<T>, key: T -> real, at: seq<nat>, bt: seq<nat>, n: nat)
    requires ListsFirst(xs, key, at) && ListsFirst(xs, key, bt) && n <= |at| == |bt|
    ensures at[..n] == bt[..n]
  {
    if n > 0 {
      SamePositions(xs, key, at, bt, n - 1);
      assert forall j | 0 <= j < n - 1 :: at[j] == at[..n - 1][j] && bt[j] == bt[..n - 1][j];
      NextIsFirst(xs, key, at, bt, n - 1);
      NextIsFirst(xs, key, bt, at, n - 1);
    }
  }

  lemma {:induction false} NextIsFirst<T>(xs: seq<T>, key: T -> real, at: seq<nat>, bt: seq<nat>, k: nat)
    requires ListsFirst(xs, key, at) && ListsFirst(xs, key, bt) && k < |at| == |bt|
    requires forall j | 0 <= j < k :: at[j] == bt[j]
    ensures at[k] < |xs| && bt[k] < |xs| && (at[k] == bt[k] || ComesFirst(xs, key, at[k], bt[k]))
  {
    if Occurs(at, bt[k]) {
      var j :| 0 <= j < |at| && at[j] == bt[k];
      assert j < k ==> ComesFirst(xs, key, bt[j], bt[k]);
    }
  }

  /** What being the top elements means for the elements themselves. */
  lemma {:induction false} TopIsBest<T(!new)>(kept: seq<T>, xs: seq<T>, n: nat, key: T -> real)
    requires AreTop(kept, xs, n, key)
    ensures multiset(kept) <= multiset(xs) && Descending(kept, key)
    ensures forall x, y | x in multiset(xs) - multiset(kept) && y in kept :: key(x) <= key(y)
  {
    hide AreTop, SortDesc;
    LargestAreTop(n, xs, key);
    TopIsUnique(kept, Largest(n, xs, key), xs, n, key);
    LargestIsPrefix(n, xs, key);
    SortIsDescending(xs, key);
    SortIsPermutation(xs, key);
    PrefixIsBest(kept, SortDesc(xs, key), key);
  }

  lemma RestOfMultiset<T>(kept: seq<T>, rest: seq<T>)
    ensures multiset(kept) <= multiset(kept + rest)
    ensures forall x | x in multiset(kept + rest) - multiset(kept) :: x in rest
  {
    assert multiset(kept + rest) - multiset(kept) == multiset(rest);
  }

  lemma PrefixIsBest<T>(kept: seq<T>, sorted: seq<T>, key: T -> real)
    requires kept <= sorted && Descending(sorted, key)
    ensures multiset(kept) <= multiset(sorted) && Descending(kept, key)
    ensures forall x, y | x in multiset(sorted) - multiset(kept) && y in kept :: key(x) <= key(y)
  {
    var rest := sorted[|kept|..];
    RestOfMultiset(kept, rest);
    assert sorted == kept + rest;
    forall x, y | x in multiset(sorted) - multiset(kept) && y in kept
      ensures key(x) <= key(y)
    {
      var i :| 0 <= i < |rest| && rest[i] == x;
      var j :| 0 <= j < |kept| && kept[j] == y;
      assert sorted[j] == y && sorted[|kept| + i] == x;
    }
  }
}
