/** Python's `sorted(rows, key=..., reverse=...)`: a stable sort by a key.
    `reverse=True` keeps stability, so it is the same stable sort under the
    reversed order on keys (`Greater` for numbers). */
module Sorting {
  import opened Sequences
  import opened Text

  /** The comparison on keys is a strict order. */
  ghost predicate StrictOrder<K(!new)>(less: (K, K) -> bool) {
    && (forall a :: !less(a, a))
    && (forall a, b, c :: less(a, b) && less(b, c) ==> less(a, c))
  }

  /** No element is followed by one whose key is strictly smaller. */
  ghost predicate SortedBy<T, K>(s: seq<T>, key: T -> K, less: (K, K) -> bool) {
    forall i, j :: 0 <= i < j < |s| ==> !less(key(s[j]), key(s[i]))
  }

  function WithKey<T, K(==)>(key: T -> K, k: K): T -> bool {
    x => key(x) == k
  }

  /** Stability: for every key, the elements with that key come in the same
      order in `r` as in `s`. */
  ghost predicate StableFor<T, K(!new)>(r: seq<T>, s: seq<T>, key: T -> K) {
    forall k :: Filter(r, WithKey(key, k)) == Filter(s, WithKey(key, k))
  }

  /** Puts `x` before the first element whose key is strictly greater. */
  function Insert<T, K>(x: T, s: seq<T>, key: T -> K, less: (K, K) -> bool): (r: seq<T>)
    ensures multiset(r) == multiset(s) + multiset{x}
  {
    if s == [] then [x]
    else if less(key(x), key(s[0])) then [x] + s
    else
      assert s == [s[0]] + s[1..];
      [s[0]] + Insert(x, s[1..], key, less)
  }

  /** Insertion sort: each element, taken in input order, goes after every
      element already placed whose key is not greater than its own. */
  function SortBy<T, K>(s: seq<T>, key: T -> K, less: (K, K) -> bool): (r: seq<T>)
    ensures multiset(r) == multiset(s)
  {
    if s == [] then []
    else
      assert s == s[..|s| - 1] + [s[|s| - 1]];
      Insert(s[|s| - 1], SortBy(s[..|s| - 1], key, less), key, less)
  }

  lemma {:induction false} InsertSorted<T, K(!new)>(x: T, s: seq<T>, key: T -> K, less: (K, K) -> bool)
    requires StrictOrder(less) && SortedBy(s, key, less)
    ensures SortedBy(Insert(x, s, key, less), key, less)
  {
    if s != [] && !less(key(x), key(s[0])) {
      InsertSorted(x, s[1..], key, less);
      var r := Insert(x, s, key, less);
      forall j | 0 < j < |r| ensures !less(key(r[j]), key(r[0])) {
        assert r[j] in multiset(s[1..]) + multiset{x};
      }
    }
  }

  /** The result is in order of the keys. */
  lemma {:induction false} SortBySorted<T, K(!new)>(s: seq<T>, key: T -> K, less: (K, K) -> bool)
    requires StrictOrder(less)
    ensures SortedBy(SortBy(s, key, less), key, less)
  {
    if s != [] {
      SortBySorted(s[..|s| - 1], key, less);
      InsertSorted(s[|s| - 1], SortBy(s[..|s| - 1], key, less), key, less);
    }
  }

  /** In a sorted sequence, nothing has a key strictly below the first key. */
  lemma NoneBelowHead<T, K(!new)>(s: seq<T>, key: T -> K, less: (K, K) -> bool, k: K)
    requires StrictOrder(less) && SortedBy(s, key, less)
    requires s != [] && less(k, key(s[0]))
    ensures Filter(s, WithKey(key, k)) == []
  {
  }

  lemma {:induction false} InsertStable<T, K(!new)>(x: T, s: seq<T>, key: T -> K, less: (K, K) -> bool, k: K)
    requires StrictOrder(less) && SortedBy(s, key, less)
    ensures Filter(Insert(x, s, key, less), WithKey(key, k))
            == Filter(s, WithKey(key, k)) + Filter([x], WithKey(key, k))
  {
    var p := WithKey(key, k);
    if s == [] {
      assert [] + [x] == [x];
    } else if less(key(x), key(s[0])) {
      assert Insert(x, s, key, less) == [x] + s;
      FilterAppend([x], s, p);
      if key(x) == k {
        NoneBelowHead(s, key, less, k);
      }
    } else {
      var rest := Insert(x, s[1..], key, less);
      assert Insert(x, s, key, less) == [s[0]] + rest;
      assert s == [s[0]] + s[1..];
      InsertStable(x, s[1..], key, less, k);
      FilterAppend([s[0]], rest, p);
      FilterAppend([s[0]], s[1..], p);
    }
  }

  /** Ties keep their input order. */
  lemma {:induction false} SortByStable<T, K(!new)>(s: seq<T>, key: T -> K, less: (K, K) -> bool)
    requires StrictOrder(less)
    ensures StableFor(SortBy(s, key, less), s, key)
  {
    if s != [] {
      var init, last := s[..|s| - 1], s[|s| - 1];
      SortByStable(init, key, less);
      SortBySorted(init, key, less);
      assert s == init + [last];
      forall k ensures Filter(SortBy(s, key, less), WithKey(key, k)) == Filter(s, WithKey(key, k)) {
        InsertStable(last, SortBy(init, key, less), key, less, k);
        FilterAppend(init, [last], WithKey(key, k));
      }
    }
  }

  lemma {:induction false} InsertSum<T, K>(x: T, s: seq<T>, key: T -> K, less: (K, K) -> bool, f: T -> int)
    ensures SumBy(Insert(x, s, key, less), f) == SumBy(s, f) + f(x)
  {
    if s == [] {
      assert SumBy([x], f) == SumBy([], f) + f(x);
    } else if less(key(x), key(s[0])) {
      SumByAppend([x], s, f);
      assert SumBy([x], f) == SumBy([], f) + f(x);
    } else {
      assert s == [s[0]] + s[1..];
      InsertSum(x, s[1..], key, less, f);
      SumByAppend([s[0]], Insert(x, s[1..], key, less), f);
      SumByAppend([s[0]], s[1..], f);
    }
  }

  /** Sorting does not change a sum over the rows. */
  lemma {:induction false} SortBySum<T, K>(s: seq<T>, key: T -> K, less: (K, K) -> bool, f: T -> int)
    ensures SumBy(SortBy(s, key, less), f) == SumBy(s, f)
  {
    if s != [] {
      SortBySum(s[..|s| - 1], key, less, f);
      InsertSum(s[|s| - 1], SortBy(s[..|s| - 1], key, less), key, less, f);
    }
  }

  lemma {:induction false} InsertDistinct<T, K, U>(x: T, s: seq<T>, key: T -> K, less: (K, K) -> bool, id: T -> U)
    requires DistinctBy(s, id)
    requires forall i :: 0 <= i < |s| ==> id(s[i]) != id(x)
    ensures DistinctBy(Insert(x, s, key, less), id)
  {
    if s != [] && !less(key(x), key(s[0])) {
      InsertDistinct(x, s[1..], key, less, id);
      var r := Insert(x, s, key, less);
      forall j | 0 < j < |r| ensures id(r[j]) != id(r[0]) {
        assert r[j] in multiset(s[1..]) + multiset{x};
      }
    }
  }

  /** Sorting keeps ids unique. */
  lemma {:induction false} SortByDistinct<T, K, U>(s: seq<T>, key: T -> K, less: (K, K) -> bool, id: T -> U)
    requires DistinctBy(s, id)
    ensures DistinctBy(SortBy(s, key, less), id)
  {
    if s != [] {
      var init, last := s[..|s| - 1], s[|s| - 1];
      var sorted := SortBy(init, key, less);
      SortByDistinct(init, key, less, id);
      forall i | 0 <= i < |sorted| ensures id(sorted[i]) != id(last) {
        assert sorted[i] in multiset(init);
      }
      InsertDistinct(last, sorted, key, less, id);
    }
  }

  /** `reverse=True` on numeric keys. */
  predicate Greater(a: int, b: int) {
    a > b
  }

  lemma GreaterIsStrictOrder()
    ensures StrictOrder(Greater)
  {
  }

  /** Python's `<` on `str` is a strict order that ranks any two different
      strings. */
  lemma StrLessIsStrictOrder()
    ensures StrictOrder(StrLess)
    ensures forall a, b :: a != b ==> StrLess(a, b) || StrLess(b, a)
  {
    forall a, b | a != b ensures StrLess(a, b) || StrLess(b, a) {
      StrLessTotal(a, b);
    }
    forall a ensures !StrLess(a, a) {
      StrLessIrreflexive(a);
    }
    forall a, b, c | StrLess(a, b) && StrLess(b, c) ensures StrLess(a, c) {
      StrLessTransitive(a, b, c);
    }
  }
}
