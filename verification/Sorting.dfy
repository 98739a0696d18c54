/** A stable sort by a numeric key: what `sort_by_key` of the Rust library promises, and that
    this promise leaves only one result. */
module Sorting {
  /** Puts `x` before every element whose key is at least its own. */
  function Place<T>(x: T, sorted: seq<T>, key: T -> real): seq<T> {
    if sorted == [] then [x]
    else if key(x) <= key(sorted[0]) then [x] + sorted
    else [sorted[0]] + Place(x, sorted[1..], key)
  }

  function StableSort<T>(xs: seq<T>, key: T -> real): seq<T> {
    if xs == [] then [] else Place(xs[0], StableSort(xs[1..], key), key)
  }

  ghost predicate Sorted<T>(xs: seq<T>, key: T -> real) {
    xs == [] || (AtLeast(xs[1..], key, key(xs[0])) && Sorted(xs[1..], key))
  }

  ghost predicate AtLeast<T>(xs: seq<T>, key: T -> real, k: real) {
    forall i | 0 <= i < |xs| :: k <= key(xs[i])
  }

  /** The elements with one key, in their order. */
  function WithKey<T>(xs: seq<T>, key: T -> real, k: real): seq<T> {
    if xs == [] then []
    else if key(xs[0]) == k then [xs[0]] + WithKey(xs[1..], key, k)
    else WithKey(xs[1..], key, k)
  }

  lemma {:induction false} PlaceKeepsBound<T>(x: T, sorted: seq<T>, key: T -> real, k: real)
    requires AtLeast(sorted, key, k) && k <= key(x)
    ensures AtLeast(Place(x, sorted, key), key, k)
  {
    if sorted != [] && key(x) > key(sorted[0]) {
      PlaceKeepsBound(x, sorted[1..], key, k);
    }
  }

  lemma {:induction false} PlaceSorts<T>(x: T, sorted: seq<T>, key: T -> real)
    requires Sorted(sorted, key)
    ensures Sorted(Place(x, sorted, key), key)
  {
    if sorted != [] {
      if key(x) <= key(sorted[0]) {
        assert ([x] + sorted)[1..] == sorted;
      } else {
        PlaceSorts(x, sorted[1..], key);
        PlaceKeepsBound(x, sorted[1..], key, key(sorted[0]));
        assert ([sorted[0]] + Place(x, sorted[1..], key))[1..] == Place(x, sorted[1..], key);
      }
    }
  }

  lemma {:induction false} SortSorts<T>(xs: seq<T>, key: T -> real)
    ensures Sorted(StableSort(xs, key), key)
  {
    if xs != [] {
      SortSorts(xs[1..], key);
      PlaceSorts(xs[0], StableSort(xs[1..], key), key);
    }
  }

  lemma {:induction false} PlacePermutes<T>(x: T, sorted: seq<T>, key: T -> real)
    ensures multiset(Place(x, sorted, key)) == multiset{x} + multiset(sorted)
  {
    if sorted != [] {
      assert sorted == [sorted[0]] + sorted[1..];
      PlacePermutes(x, sorted[1..], key);
    }
  }

  lemma {:induction false} SortPermutes<T>(xs: seq<T>, key: T -> real)
    ensures multiset(StableSort(xs, key)) == multiset(xs)
  {
    if xs != [] {
      assert xs == [xs[0]] + xs[1..];
      SortPermutes(xs[1..], key);
      PlacePermutes(xs[0], StableSort(xs[1..], key), key);
    }
  }

  lemma {:induction false} PlaceIsStable<T>(x: T, sorted: seq<T>, key: T -> real, k: real)
    ensures WithKey(Place(x, sorted, key), key, k)
      == if key(x) == k then [x] + WithKey(sorted, key, k) else WithKey(sorted, key, k)
  {
    if sorted != [] {
      if key(x) <= key(sorted[0]) {
        assert ([x] + sorted)[1..] == sorted;
      } else {
        PlaceIsStable(x, sorted[1..], key, k);
        assert ([sorted[0]] + Place(x, sorted[1..], key))[1..] == Place(x, sorted[1..], key);
      }
    }
  }

  /** Elements with the same key keep their order. */
  lemma {:induction false} SortIsStable<T>(xs: seq<T>, key: T -> real, k: real)
    ensures WithKey(StableSort(xs, key), key, k) == WithKey(xs, key, k)
  {
    if xs != [] {
      SortIsStable(xs[1..], key, k);
      PlaceIsStable(xs[0], StableSort(xs[1..], key), key, k);
    }
  }

  /** Two lists that hold, for every key, the same elements with it in the same order. */
  ghost predicate SameByKey<T>(a: seq<T>, b: seq<T>, key: T -> real) {
    forall k :: WithKey(a, key, k) == WithKey(b, key, k)
  }

  lemma {:induction false} BoundEmptiesSmallKeys<T>(xs: seq<T>, key: T -> real, k: real, bound: real)
    requires AtLeast(xs, key, bound) && k < bound
    ensures WithKey(xs, key, k) == []
  {
    if xs != [] {
      assert forall i | 0 <= i < |xs[1..]| :: xs[1..][i] == xs[i + 1];
      BoundEmptiesSmallKeys(xs[1..], key, k, bound);
    }
  }

  lemma {:induction false} HeadIsLeast<T>(a: seq<T>, b: seq<T>, key: T -> real)
    requires Sorted(b, key) && SameByKey(a, b, key) && a != []
    ensures b != [] && key(b[0]) <= key(a[0])
  {
    assert WithKey(a, key, key(a[0])) != [];
    assert WithKey(b, key, key(a[0])) != [];
    if key(a[0]) < key(b[0]) {
      BoundEmptiesSmallKeys(b, key, key(a[0]), key(b[0]));
      assert false;
    }
  }

  lemma SameHead<T>(a: seq<T>, b: seq<T>, key: T -> real)
    requires Sorted(a, key) && Sorted(b, key) && SameByKey(a, b, key) && a != []
    ensures b != [] && a[0] == b[0]
  {
    HeadIsLeast(a, b, key);
    HeadIsLeast(b, a, key);
    assert WithKey(a, key, key(a[0])) == WithKey(b, key, key(a[0]));
  }

  lemma SameTails<T>(a: seq<T>, b: seq<T>, key: T -> real)
    requires SameByKey(a, b, key) && a != [] && b != [] && a[0] == b[0]
    ensures SameByKey(a[1..], b[1..], key)
  {
    forall k
      ensures WithKey(a[1..], key, k) == WithKey(b[1..], key, k)
    {
      assert WithKey(a, key, k) == WithKey(b, key, k);
      if key(a[0]) == k {
        assert WithKey(a, key, k)[1..] == WithKey(a[1..], key, k);
        assert WithKey(b, key, k)[1..] == WithKey(b[1..], key, k);
      }
    }
  }

  /** A sorted and stable arrangement is unique. */
  lemma {:induction false} SortedIsUnique<T>(a: seq<T>, b: seq<T>, key: T -> real)
    requires Sorted(a, key) && Sorted(b, key) && SameByKey(a, b, key)
    ensures a == b
  {
    if a == [] {
      if b != [] {
        HeadIsLeast(b, a, key);
        assert false;
      }
    } else {
      SameHead(a, b, key);
      SameTails(a, b, key);
      SortedIsUnique(a[1..], b[1..], key);
      assert a == [a[0]] + a[1..] && b == [b[0]] + b[1..];
    }
  }

  /** Every sorted and stable arrangement of a list is the one `StableSort` gives. */
  lemma StableSortIsUnique<T>(xs: seq<T>, ys: seq<T>, key: T -> real)
    requires Sorted(ys, key) && SameByKey(ys, xs, key)
    ensures ys == StableSort(xs, key)
  {
    SortSorts(xs, key);
    forall k
      ensures WithKey(ys, key, k) == WithKey(StableSort(xs, key), key, k)
    {
      SortIsStable(xs, key, k);
      assert WithKey(ys, key, k) == WithKey(xs, key, k);
    }
    SortedIsUnique(ys, StableSort(xs, key), key);
  }

  lemma {:induction false} WithKeyAppend<T>(a: seq<T>, b: seq<T>, key: T -> real, k: real)
    ensures WithKey(a + b, key, k) == WithKey(a, key, k) + WithKey(b, key, k)
  {
    if a == [] {
      assert a + b == b;
    } else {
      assert (a + b)[1..] == a[1..] + b;
      WithKeyAppend(a[1..], b, key, k);
    }
  }

  /** Sorting again after an addition sorts everything that was ever added. */
  lemma SortAfterPush<T>(xs: seq<T>, x: T, key: T -> real)
    ensures StableSort(StableSort(xs, key) + [x], key) == StableSort(xs + [x], key)
  {
    var pushed := StableSort(xs, key) + [x];
    SortSorts(pushed, key);
    forall k
      ensures WithKey(StableSort(pushed, key), key, k) == WithKey(xs + [x], key, k)
    {
      SortIsStable(pushed, key, k);
      SortIsStable(xs, key, k);
      WithKeyAppend(StableSort(xs, key), [x], key, k);
      WithKeyAppend(xs, [x], key, k);
    }
    StableSortIsUnique(xs + [x], StableSort(pushed, key), key);
  }

  function Filter<T>(xs: seq<T>, keep: T -> bool): seq<T> {
    if xs == [] then []
    else if keep(xs[0]) then [xs[0]] + Filter(xs[1..], keep)
    else Filter(xs[1..], keep)
  }

  lemma {:induction false} FilterKeepsBound<T>(xs: seq<T>, keep: T -> bool, key: T -> real, k: real)
    requires AtLeast(xs, key, k)
    ensures AtLeast(Filter(xs, keep), key, k)
  {
    if xs != [] {
      FilterKeepsBound(xs[1..], keep, key, k);
    }
  }

  lemma {:induction false} FilterKeepsSorted<T>(xs: seq<T>, keep: T -> bool, key: T -> real)
    requires Sorted(xs, key)
    ensures Sorted(Filter(xs, keep), key)
  {
    if xs != [] {
      FilterKeepsSorted(xs[1..], keep, key);
      FilterKeepsBound(xs[1..], keep, key, key(xs[0]));
      assert ([xs[0]] + Filter(xs[1..], keep))[1..] == Filter(xs[1..], keep);
    }
  }

  lemma {:induction false} FilterWithKey<T>(xs: seq<T>, keep: T -> bool, key: T -> real, k: real)
    ensures WithKey(Filter(xs, keep), key, k) == Filter(WithKey(xs, key, k), keep)
  {
    if xs != [] {
      FilterWithKey(xs[1..], keep, key, k);
      var rest := Filter(xs[1..], keep);
      assert ([xs[0]] + rest)[1..] == rest;
      var same := WithKey(xs[1..], key, k);
      assert ([xs[0]] + same)[1..] == same;
    }
  }

  /** Sorting and filtering commute, and a filtered sorted list needs no more sorting. */
  lemma SortOfFilter<T>(xs: seq<T>, keep: T -> bool, key: T -> real)
    ensures StableSort(Filter(StableSort(xs, key), keep), key) == StableSort(Filter(xs, keep), key)
    ensures Filter(StableSort(xs, key), keep) == StableSort(Filter(xs, keep), key)
  {
    var filtered := Filter(StableSort(xs, key), keep);
    SortSorts(xs, key);
    FilterKeepsSorted(StableSort(xs, key), keep, key);
    forall k
      ensures WithKey(filtered, key, k) == WithKey(Filter(xs, keep), key, k)
    {
      SortIsStable(xs, key, k);
      FilterWithKey(StableSort(xs, key), keep, key, k);
      FilterWithKey(xs, keep, key, k);
    }
    StableSortIsUnique(Filter(xs, keep), filtered, key);
    StableSortIsUnique(filtered, filtered, key);
  }

  ghost predicate DistinctKeys<T>(xs: seq<T>, key: T -> real) {
    xs == [] || (WithKey(xs[1..], key, key(xs[0])) == [] && DistinctKeys(xs[1..], key))
  }

  lemma {:induction false} InWithKey<T>(xs: seq<T>, key: T -> real, k: real)
    ensures forall x :: x in WithKey(xs, key, k) <==> x in xs && key(x) == k
  {
    if xs != [] {
      InWithKey(xs[1..], key, k);
    }
  }

  lemma {:induction false} NoneWithKey<T>(xs: seq<T>, key: T -> real, k: real)
    requires forall x | x in xs :: key(x) != k
    ensures WithKey(xs, key, k) == []
  {
    if xs != [] {
      NoneWithKey(xs[1..], key, k);
    }
  }

  lemma {:induction false} OnlyWithKey<T>(xs: seq<T>, key: T -> real, x: T)
    requires DistinctKeys(xs, key) && x in xs
    ensures WithKey(xs, key, key(x)) == [x]
  {
    InWithKey(xs[1..], key, key(xs[0]));
    if x != xs[0] {
      assert x in xs[1..];
      assert x !in WithKey(xs[1..], key, key(xs[0]));
      OnlyWithKey(xs[1..], key, x);
    }
  }

  lemma SameMembers<T>(a: seq<T>, b: seq<T>)
    requires multiset(a) == multiset(b)
    ensures forall x :: x in a <==> x in b
  {
    assert forall x :: x in a <==> x in multiset(a);
    assert forall x :: x in b <==> x in multiset(b);
  }

  lemma SameWithKey<T>(a: seq<T>, b: seq<T>, key: T -> real, k: real)
    requires multiset(a) == multiset(b) && DistinctKeys(a, key) && DistinctKeys(b, key)
    ensures WithKey(a, key, k) == WithKey(b, key, k)
  {
    SameMembers(a, b);
    if x :| x in a && key(x) == k {
      OnlyWithKey(a, key, x);
      OnlyWithKey(b, key, x);
    } else {
      NoneWithKey(a, key, k);
      NoneWithKey(b, key, k);
    }
  }

  /** With distinct keys the order before sorting does not matter. */
  lemma SortOfPermutation<T>(a: seq<T>, b: seq<T>, key: T -> real)
    requires multiset(a) == multiset(b) && DistinctKeys(a, key) && DistinctKeys(b, key)
    ensures StableSort(a, key) == StableSort(b, key)
  {
    SortSorts(a, key);
    forall k
      ensures WithKey(StableSort(a, key), key, k) == WithKey(b, key, k)
    {
      SortIsStable(a, key, k);
      SameWithKey(a, b, key, k);
    }
    StableSortIsUnique(b, StableSort(a, key), key);
  }

  lemma FilterOne<T>(x: T, keep: T -> bool)
    requires keep(x)
    ensures Filter([x], keep) == [x]
  {
    assert [x][1..] == [];
  }

  lemma {:induction false} FilterAppend<T>(a: seq<T>, b: seq<T>, keep: T -> bool)
    ensures Filter(a + b, keep) == Filter(a, keep) + Filter(b, keep)
  {
    if a == [] {
      assert a + b == b;
    } else {
      assert (a + b)[1..] == a[1..] + b;
      FilterAppend(a[1..], b, keep);
    }
  }

  lemma {:induction false} FilterMembers<T>(xs: seq<T>, keep: T -> bool)
    ensures forall x :: x in Filter(xs, keep) <==> x in xs && keep(x)
  {
    if xs != [] {
      FilterMembers(xs[1..], keep);
    }
  }

  /** The earliest of the elements with the least key comes first. */
  lemma {:induction false} HeadOfSort<T>(before: seq<T>, x: T, after: seq<T>, key: T -> real)
    requires forall y | y in before :: key(x) < key(y)
    requires forall y | y in after :: key(x) <= key(y)
    ensures StableSort(before + [x] + after, key) != [] && StableSort(before + [x] + after, key)[0] == x
    decreases |before|
  {
    var xs := before + [x] + after;
    if before == [] {
      assert xs[0] == x && xs[1..] == after;
      var rest := StableSort(after, key);
      SortPermutes(after, key);
      SameMembers(rest, after);
      assert rest != [] ==> rest[0] in rest;
      assert StableSort(xs, key) == Place(x, rest, key);
    } else {
      assert xs[0] == before[0] && xs[1..] == before[1..] + [x] + after;
      HeadOfSort(before[1..], x, after, key);
    }
  }
}
