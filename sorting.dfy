/** Ordering by an integer key, standing in for Go's sort.Ints and for
    sort.Slice with a less-than on one integer field. Go does not promise a
    stable order; for distinct keys every sorted permutation is the same. */
module Sorting {

  predicate SortedBy<T>(xs: seq<T>, key: T -> int) {
    forall i, j :: 0 <= i < j < |xs| ==> key(xs[i]) <= key(xs[j])
  }

  /** `x` placed before the first element with a key at least its own. */
  function InsertBy<T>(x: T, ys: seq<T>, key: T -> int): (zs: seq<T>)
    requires SortedBy(ys, key)
    ensures SortedBy(zs, key)
    ensures multiset(zs) == multiset(ys) + multiset{x}
  {
    if ys == [] then [x]
    else if key(x) <= key(ys[0]) then [x] + ys
    else
      var rest := InsertBy(x, ys[1..], key);
      assert ys == [ys[0]] + ys[1..];
      LowerBoundKept(key(ys[0]), ys[1..], x, rest, key);
      SortedCons(ys[0], rest, key);
      [ys[0]] + rest
  }

  /** A lower bound on every key of `ys` and on `x` bounds every key of a
      list holding the same elements as `ys` and `x`. */
  lemma LowerBoundKept<T>(lo: int, ys: seq<T>, x: T, rest: seq<T>, key: T -> int)
    requires forall k :: 0 <= k < |ys| ==> lo <= key(ys[k])
    requires lo <= key(x)
    requires multiset(rest) == multiset(ys) + multiset{x}
    ensures forall k :: 0 <= k < |rest| ==> lo <= key(rest[k])
  {
    forall k | 0 <= k < |rest| ensures lo <= key(rest[k]) {
      var z := rest[k];
      assert z in multiset(rest);
      if z != x {
        assert z in multiset(ys);
        var m :| 0 <= m < |ys| && ys[m] == z;
      }
    }
  }

  lemma SortedCons<T>(y: T, rest: seq<T>, key: T -> int)
    requires SortedBy(rest, key)
    requires forall k :: 0 <= k < |rest| ==> key(y) <= key(rest[k])
    ensures SortedBy([y] + rest, key)
  {
    var zs := [y] + rest;
    forall i, j | 0 <= i < j < |zs| ensures key(zs[i]) <= key(zs[j]) {
      assert zs[j] == rest[j - 1];
      if i > 0 {
        assert zs[i] == rest[i - 1];
      }
    }
  }

  /** The elements of `xs` in ascending key order. */
  function SortBy<T>(xs: seq<T>, key: T -> int): (ys: seq<T>)
    ensures SortedBy(ys, key)
    ensures multiset(ys) == multiset(xs)
    ensures |ys| == |xs|
  {
    if xs == [] then []
    else
      assert xs == [xs[0]] + xs[1..];
      InsertBy(xs[0], SortBy(xs[1..], key), key)
  }

  /** Sorting a list already in key order leaves it as it is. */
  lemma {:induction false} SortByOfSorted<T>(xs: seq<T>, key: T -> int)
    requires SortedBy(xs, key)
    ensures SortBy(xs, key) == xs
  {
    if xs != [] {
      assert SortedBy(xs[1..], key);
      SortByOfSorted(xs[1..], key);
      assert xs == [xs[0]] + xs[1..];
      InsertSmallest(xs[0], xs[1..], key);
    }
  }

  /** Inserting an element no greater than the first puts it in front. */
  lemma InsertSmallest<T>(x: T, ys: seq<T>, key: T -> int)
    requires SortedBy([x] + ys, key)
    ensures SortedBy(ys, key) && InsertBy(x, ys, key) == [x] + ys
  {
    assert SortedBy(ys, key) by {
      forall i, j | 0 <= i < j < |ys| ensures key(ys[i]) <= key(ys[j]) {
        assert ([x] + ys)[i + 1] == ys[i] && ([x] + ys)[j + 1] == ys[j];
      }
    }
    if ys != [] {
      assert ([x] + ys)[0] == x && ([x] + ys)[1] == ys[0];
      assert key(x) <= key(ys[0]);
    }
  }

  /** The key sort.Ints orders by. */
  function IntKey(i: int): int { i }
}
