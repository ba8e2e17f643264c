/** Sequence operations that the endpoint loops are built from: keeping
    the elements that pass a test, counting, first occurrences (the key
    order of a Python dict built by a loop), collecting rows from a loop
    that may raise, summing, and Python's slice `s[start:stop]`. */
module Sequences {
  import opened Outcomes

  /** The elements of `s` that pass `p`, in their order in `s`. */
  function Filter<T>(s: seq<T>, p: T -> bool): (r: seq<T>)
    ensures |r| <= |s|
  {
    if s == [] then []
    else
      var r := Filter(s[..|s| - 1], p);
      if p(s[|s| - 1]) then r + [s[|s| - 1]] else r
  }

  /** Exactly the elements that pass the test are kept. */
  lemma {:induction false} FilterSpec<T>(s: seq<T>, p: T -> bool)
    ensures forall i :: 0 <= i < |Filter(s, p)| ==> Filter(s, p)[i] in s && p(Filter(s, p)[i])
    ensures forall i :: 0 <= i < |s| && p(s[i]) ==> s[i] in Filter(s, p)
  {
    if s != [] {
      var init := s[..|s| - 1];
      FilterSpec(init, p);
      assert s == init + [s[|s| - 1]];
    }
  }

  lemma {:induction false} FilterAppend<T>(s: seq<T>, t: seq<T>, p: T -> bool)
    ensures Filter(s + t, p) == Filter(s, p) + Filter(t, p)
  {
    if t == [] {
      assert s + t == s;
    } else {
      assert (s + t)[..|s + t| - 1] == s + t[..|t| - 1];
      FilterAppend(s, t[..|t| - 1], p);
    }
  }

  /** Two tests that agree on every element of `s` keep the same elements. */
  lemma {:induction false} FilterCongruent<T>(s: seq<T>, p: T -> bool, q: T -> bool)
    requires forall x :: x in s ==> p(x) == q(x)
    ensures Filter(s, p) == Filter(s, q)
  {
    if s != [] {
      FilterCongruent(s[..|s| - 1], p, q);
    }
  }

  lemma {:induction false} FilterAll<T>(s: seq<T>, p: T -> bool)
    requires forall i :: 0 <= i < |s| ==> p(s[i])
    ensures Filter(s, p) == s
  {
    if s != [] {
      FilterAll(s[..|s| - 1], p);
    }
  }

  lemma FilterNone<T>(s: seq<T>, p: T -> bool)
    requires forall i :: 0 <= i < |s| ==> !p(s[i])
    ensures Filter(s, p) == []
  {
  }

  /** The first `k` elements of `s` pass `p`: what a loop that checks
      each element in turn has established after `k` rounds. */
  predicate AllUpTo<T>(s: seq<T>, p: T -> bool, k: nat)
    requires k <= |s|
  {
    k == 0 || (AllUpTo(s, p, k - 1) && p(s[k - 1]))
  }

  lemma {:induction false} AllUpToAll<T>(s: seq<T>, p: T -> bool, k: nat)
    requires k <= |s|
    ensures AllUpTo(s, p, k) <==> forall j :: 0 <= j < k ==> p(s[j])
  {
    if k > 0 {
      AllUpToAll(s, p, k - 1);
    }
  }

  /** How many elements of `s` pass `p`. */
  function Count<T>(s: seq<T>, p: T -> bool): nat {
    |Filter(s, p)|
  }

  lemma CountAppend<T>(s: seq<T>, t: seq<T>, p: T -> bool)
    ensures Count(s + t, p) == Count(s, p) + Count(t, p)
  {
    FilterAppend(s, t, p);
  }

  /** An element that passes the test is counted at least once. */
  lemma CountPositive<T>(s: seq<T>, p: T -> bool, x: T)
    requires x in s && p(x)
    ensures Count(s, p) >= 1
  {
    FilterSpec(s, p);
    assert x in Filter(s, p);
  }

  predicate Distinct<T(==)>(s: seq<T>) {
    forall i, j :: 0 <= i < j < |s| ==> s[i] != s[j]
  }

  /** No two elements share an id. */
  predicate DistinctBy<T, U(==)>(s: seq<T>, id: T -> U) {
    forall i, j :: 0 <= i < j < |s| ==> id(s[i]) != id(s[j])
  }

  /** The elements of `s` in order of first occurrence, each once: the keys
      of a dict filled by a loop over `s`. */
  function Dedup<T(==)>(s: seq<T>): (r: seq<T>)
    ensures forall i :: 0 <= i < |r| ==> r[i] in s
    ensures forall i :: 0 <= i < |s| ==> s[i] in r
    ensures Distinct(r)
  {
    if s == [] then []
    else
      var r := Dedup(s[..|s| - 1]);
      assert s == s[..|s| - 1] + [s[|s| - 1]];
      if s[|s| - 1] in r then r else r + [s[|s| - 1]]
  }

  /** One pass of an endpoint's loop over one record: the record is
      skipped, contributes a row, or raises. */
  datatype Step<T> = Skip | Keep(value: T) | Crash

  function IsKept<A, B>(step: A -> Step<B>): A -> bool {
    a => step(a).Keep?
  }

  /** The records that contribute a row, in table order. */
  function Kept<A, B>(s: seq<A>, step: A -> Step<B>): seq<A> {
    Filter(s, IsKept(step))
  }

  /** The last record contributes to the kept records exactly when it is
      kept. */
  lemma KeptSnoc<A, B>(s: seq<A>, step: A -> Step<B>)
    requires s != []
    ensures Kept(s, step) == Kept(s[..|s| - 1], step) + if step(s[|s| - 1]).Keep? then [s[|s| - 1]] else []
  {
    var init, last := s[..|s| - 1], s[|s| - 1];
    assert s == init + [last];
    FilterAppend(init, [last], IsKept(step));
    assert Filter([last], IsKept(step)) == if step(last).Keep? then [last] else [];
  }

  /** A loop `for a in s: ... out.append(row)` that may raise: it raises
      if some record raises; otherwise it yields the row of each record
      that contributes one, in order (CollectSpec). */
  function Collect<A, B>(s: seq<A>, step: A -> Step<B>): Option<seq<B>> {
    if s == [] then Some([])
    else
      match Collect(s[..|s| - 1], step)
      case None => None
      case Some(rows) =>
        match step(s[|s| - 1])
        case Skip => Some(rows)
        case Keep(b) => Some(rows + [b])
        case Crash => None
  }

  /** The loop raises exactly when some record raises; otherwise its rows
      are, position by position, the rows of the kept records. */
  lemma {:induction false} CollectSpec<A, B>(s: seq<A>, step: A -> Step<B>)
    ensures Collect(s, step).None? <==> exists i :: 0 <= i < |s| && step(s[i]).Crash?
    ensures Collect(s, step).Some? ==> |Collect(s, step).value| == |Kept(s, step)|
    ensures Collect(s, step).Some? ==>
              forall j :: 0 <= j < |Collect(s, step).value| ==>
                step(Kept(s, step)[j]) == Keep(Collect(s, step).value[j])
  {
    if s != [] {
      var init, last := s[..|s| - 1], s[|s| - 1];
      CollectSpec(init, step);
      KeptSnoc(s, step);
      assert forall i :: 0 <= i < |init| ==> s[i] == init[i];
    }
  }

  /** One more round of the loop: what the record at `i` contributes. */
  lemma CollectSnoc<A, B>(s: seq<A>, step: A -> Step<B>, i: nat)
    requires i < |s|
    ensures Collect(s[..i + 1], step) ==
            match Collect(s[..i], step)
            case None => None
            case Some(rows) =>
              match step(s[i])
              case Skip => Some(rows)
              case Keep(b) => Some(rows + [b])
              case Crash => None
  {
    assert s[..i + 1][..i] == s[..i];
  }

  /** The loop raises exactly when some record raises. */
  lemma CollectCrash<A, B>(s: seq<A>, step: A -> Step<B>)
    ensures Collect(s, step).None? <==> exists i :: 0 <= i < |s| && step(s[i]).Crash?
  {
    CollectSpec(s, step);
  }

  /** When no record raises, each record that the step keeps has its row in
      the result. */
  lemma CollectHasRow<A, B>(s: seq<A>, step: A -> Step<B>, a: A)
    requires Collect(s, step).Some?
    requires a in s && step(a).Keep?
    ensures step(a).value in Collect(s, step).value
  {
    CollectSpec(s, step);
    FilterSpec(s, IsKept(step));
    var k := Kept(s, step);
    assert a in k;
    var j :| 0 <= j < |k| && k[j] == a;
    assert step(k[j]) == Keep(Collect(s, step).value[j]);
  }

  /** Every row in the result comes from a record of `s` that the step
      keeps. */
  lemma CollectRowFrom<A, B>(s: seq<A>, step: A -> Step<B>, j: nat)
    requires Collect(s, step).Some? && j < |Collect(s, step).value|
    ensures exists a :: a in s && step(a) == Keep(Collect(s, step).value[j])
  {
    CollectSpec(s, step);
    FilterSpec(s, IsKept(step));
    var k := Kept(s, step);
    assert k[j] in k;
  }

  /** The sum of `f` over `s`. */
  function SumBy<T>(s: seq<T>, f: T -> int): int {
    if s == [] then 0 else SumBy(s[..|s| - 1], f) + f(s[|s| - 1])
  }

  lemma {:induction false} SumByAppend<T>(s: seq<T>, t: seq<T>, f: T -> int)
    ensures SumBy(s + t, f) == SumBy(s, f) + SumBy(t, f)
  {
    if t == [] {
      assert s + t == s;
    } else {
      assert (s + t)[..|s + t| - 1] == s + t[..|t| - 1];
      SumByAppend(s, t[..|t| - 1], f);
    }
  }

  /** Python's normalisation of one slice bound against a length `n`:
      negative bounds count from the end, and both are clamped to
      `0..n`. */
  function SliceBound(i: int, n: nat): (r: nat)
    ensures r <= n
    ensures 0 <= i <= n ==> r == i
    ensures i > n ==> r == n
    ensures i < 0 ==> r == if i + n < 0 then 0 else i + n
  {
    if i < 0 then (if i + n < 0 then 0 else i + n)
    else if i > n then n
    else i
  }

  /** The listings' default page: `limit=50`, `offset=0`. */
  const DefaultLimit := 50
  const DefaultOffset := 0

  /** Python's `s[start:stop]`. */
  function Slice<T>(s: seq<T>, start: int, stop: int): seq<T> {
    var a, b := SliceBound(start, |s|), SliceBound(stop, |s|);
    if a < b then s[a..b] else []
  }

  function Min(a: int, b: int): int {
    if a <= b then a else b
  }

  /** A page `s[offset:offset + limit]` with non-negative bounds is the
      contiguous window that starts at `offset`: at most `limit` long, and
      empty once `offset` reaches the end. */
  lemma SliceWindow<T>(s: seq<T>, offset: int, limit: int)
    requires offset >= 0 && limit >= 0
    ensures Slice(s, offset, offset + limit) == s[Min(offset, |s|)..Min(offset + limit, |s|)]
    ensures |Slice(s, offset, offset + limit)| <= limit
    ensures offset >= |s| ==> Slice(s, offset, offset + limit) == []
  {
  }

  /** Pages of one listing fit together: rows `a..` of the page of size
      `a + b` at `offset` are the page of size `b` at `offset + a`. */
  lemma PaginationLaw<T>(s: seq<T>, offset: int, a: int, b: int)
    requires offset >= 0 && a >= 0 && b >= 0
    ensures var page := Slice(s, offset, offset + (a + b));
            page[Min(a, |page|)..] == Slice(s, offset + a, offset + a + b)
  {
    SliceWindow(s, offset, a + b);
    SliceWindow(s, offset + a, b);
  }
}
