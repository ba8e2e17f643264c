/** The dicts the aggregating endpoints fill in a loop over a table: a
    record either has a key (the partner of a conversation, the speaker of
    a line of the movie) or is passed over, and the dict keeps its keys in
    the order they first turn up. Such a dict is its key order together
    with a map. */
module Grouping {
  import opened Outcomes
  import opened Sequences

  /** The records filed under `k`. */
  function HasKey<T, K(==)>(key: T -> Option<K>, k: K): T -> bool {
    x => key(x) == Some(k)
  }

  /** The records that are filed at all. */
  function Keyed<T, K>(key: T -> Option<K>): T -> bool {
    x => key(x).Some?
  }

  /** The keys of the filed records, in table order, with repeats. */
  function Keys<T, K>(s: seq<T>, key: T -> Option<K>): seq<K> {
    if s == [] then []
    else
      match key(s[|s| - 1])
      case None => Keys(s[..|s| - 1], key)
      case Some(k) => Keys(s[..|s| - 1], key) + [k]
  }

  /** A key occurs among the keys exactly when some record is filed under
      it. */
  lemma {:induction false} KeysHaveRecords<T, K>(s: seq<T>, key: T -> Option<K>, k: K)
    ensures k in Keys(s, key) <==> Filter(s, HasKey(key, k)) != []
  {
    if s != [] {
      KeysHaveRecords(s[..|s| - 1], key, k);
    }
  }

  /** A key occurs among the keys exactly when some record is filed under
      it, stated on the records themselves. */
  lemma {:induction false} KeysMembers<T, K>(s: seq<T>, key: T -> Option<K>, k: K)
    ensures k in Keys(s, key) <==> exists x :: x in s && key(x) == Some(k)
  {
    if s != [] {
      var init := s[..|s| - 1];
      KeysMembers(init, key, k);
      assert s == init + [s[|s| - 1]];
    }
  }

  /** `d[k].append(x)` when `k` is a key of `d`, `d[k] = [x]` otherwise,
      for every filed record `x` in turn. */
  function OrderedGroups<T, K(==)>(s: seq<T>, key: T -> Option<K>): (seq<K>, map<K, seq<T>>) {
    if s == [] then ([], map[])
    else
      var (order, groups) := OrderedGroups(s[..|s| - 1], key);
      var x := s[|s| - 1];
      match key(x)
      case None => (order, groups)
      case Some(k) =>
        if k in groups then (order, groups[k := groups[k] + [x]]) else (order + [k], groups[k := [x]])
  }

  /** The dict of lists holds, under each key in first-occurrence order,
      the records filed under it in table order, and no other key. */
  lemma {:induction false} OrderedGroupsSpec<T, K>(s: seq<T>, key: T -> Option<K>)
    ensures var (order, groups) := OrderedGroups(s, key);
            && order == Dedup(Keys(s, key))
            && (forall k :: k in groups <==> k in order)
            && (forall k :: k in groups ==> groups[k] == Filter(s, HasKey(key, k)))
  {
    if s != [] {
      var init, x := s[..|s| - 1], s[|s| - 1];
      OrderedGroupsSpec(init, key);
      var (order, groups) := OrderedGroups(init, key);
      var groups' := OrderedGroups(s, key).1;
      var ks := Keys(init, key);
      if key(x).Some? {
        var p := key(x).value;
        assert (ks + [p])[..|ks|] == ks;
        assert Keys(s, key) == ks + [p];
        assert p in groups <==> p in Dedup(ks);
      }
      forall k | k in groups' ensures groups'[k] == Filter(s, HasKey(key, k)) {
        if key(x) == Some(k) {
          KeysHaveRecords(init, key, k);
          assert groups'[k] == (if k in groups then groups[k] else []) + [x];
        } else {
          assert groups'[k] == groups[k];
        }
      }
    }
  }

  /** `d[k] += 1` when `k` is a key of `d`, `d[k] = 1` otherwise, for every
      filed record in turn. */
  function OrderedTally<T, K(==)>(s: seq<T>, key: T -> Option<K>): (seq<K>, map<K, nat>) {
    if s == [] then ([], map[])
    else
      var (order, counts) := OrderedTally(s[..|s| - 1], key);
      match key(s[|s| - 1])
      case None => (order, counts)
      case Some(k) =>
        if k in counts then (order, counts[k := counts[k] + 1]) else (order + [k], counts[k := 1])
  }

  /** The counting dict holds, under each key in first-occurrence order,
      the number of records filed under it, and no other key. */
  lemma {:induction false} OrderedTallySpec<T, K>(s: seq<T>, key: T -> Option<K>)
    ensures var (order, counts) := OrderedTally(s, key);
            && order == Dedup(Keys(s, key))
            && (forall k :: k in counts <==> k in order)
            && (forall k :: k in counts ==> counts[k] == Count(s, HasKey(key, k)))
  {
    if s != [] {
      var init, x := s[..|s| - 1], s[|s| - 1];
      OrderedTallySpec(init, key);
      var (order, counts) := OrderedTally(init, key);
      var counts' := OrderedTally(s, key).1;
      var ks := Keys(init, key);
      if key(x).Some? {
        var p := key(x).value;
        assert (ks + [p])[..|ks|] == ks;
        assert Keys(s, key) == ks + [p];
        assert p in counts <==> p in Dedup(ks);
      }
      forall k | k in counts' ensures counts'[k] == Count(s, HasKey(key, k)) {
        assert Count(s, HasKey(key, k)) == Count(init, HasKey(key, k)) + if key(x) == Some(k) then 1 else 0;
        if key(x) == Some(k) {
          KeysHaveRecords(init, key, k);
          assert counts'[k] == (if k in counts then counts[k] else 0) + 1;
        } else {
          assert counts'[k] == counts[k];
        }
      }
    }
  }

  /** The sum of `f` over the records filed under a key. */
  function GroupTotal<T, K(==)>(s: seq<T>, key: T -> Option<K>, f: T -> int): K -> int {
    k => SumBy(Filter(s, HasKey(key, k)), f)
  }

  lemma SumBySnoc<T>(s: seq<T>, x: T, f: T -> int)
    ensures SumBy(s + [x], f) == SumBy(s, f) + f(x)
  {
    assert (s + [x])[..|s|] == s;
  }

  lemma {:induction false} SumByCongruent<T>(s: seq<T>, f: T -> int, g: T -> int)
    requires forall i :: 0 <= i < |s| ==> f(s[i]) == g(s[i])
    ensures SumBy(s, f) == SumBy(s, g)
  {
    if s != [] {
      SumByCongruent(s[..|s| - 1], f, g);
    }
  }

  /** Two sequences that agree position by position under `f` and `g` have
      the same sum. */
  lemma {:induction false} SumByPointwise<A, B>(s: seq<A>, t: seq<B>, f: A -> int, g: B -> int)
    requires |s| == |t|
    requires forall i :: 0 <= i < |s| ==> f(s[i]) == g(t[i])
    ensures SumBy(s, f) == SumBy(t, g)
  {
    if s != [] {
      SumByPointwise(s[..|s| - 1], t[..|t| - 1], f, g);
    }
  }

  /** Raising one term of a sum over distinct keys raises the sum by as
      much. */
  lemma {:induction false} SumByBump<K>(ks: seq<K>, g: K -> int, h: K -> int, p: K, d: int)
    requires Distinct(ks) && p in ks
    requires forall i :: 0 <= i < |ks| ==> h(ks[i]) == g(ks[i]) + if ks[i] == p then d else 0
    ensures SumBy(ks, h) == SumBy(ks, g) + d
  {
    var init := ks[..|ks| - 1];
    if ks[|ks| - 1] == p {
      assert p !in init by {
        forall i | 0 <= i < |init| ensures init[i] != p {
          assert init[i] == ks[i];
        }
      }
      SumByCongruent(init, h, g);
    } else {
      assert p in init by {
        var i :| 0 <= i < |ks| && ks[i] == p;
        assert init[i] == p;
      }
      SumByBump(init, g, h, p, d);
    }
  }

  /** One more record adds its value to its own group's total only. */
  lemma GroupTotalSnoc<T, K>(s: seq<T>, key: T -> Option<K>, f: T -> int, k: K)
    requires s != []
    ensures GroupTotal(s, key, f)(k) ==
            GroupTotal(s[..|s| - 1], key, f)(k) + if key(s[|s| - 1]) == Some(k) then f(s[|s| - 1]) else 0
  {
    var init, x := s[..|s| - 1], s[|s| - 1];
    if key(x) == Some(k) {
      SumBySnoc(Filter(init, HasKey(key, k)), x, f);
    }
  }

  /** Adding one element to a sequence adds it to the first occurrences
      unless it occurs already. */
  lemma DedupSnoc<T>(s: seq<T>, x: T)
    ensures Dedup(s + [x]) == if x in s then Dedup(s) else Dedup(s) + [x]
  {
    assert (s + [x])[..|s|] == s;
  }

  /** One more record changes each group's total by its value in its own
      group only. */
  lemma GroupTotalsSnoc<T, K>(s: seq<T>, key: T -> Option<K>, f: T -> int, d: seq<K>)
    requires s != []
    ensures forall i :: 0 <= i < |d| ==>
              GroupTotal(s, key, f)(d[i]) ==
              GroupTotal(s[..|s| - 1], key, f)(d[i]) + if key(s[|s| - 1]) == Some(d[i]) then f(s[|s| - 1]) else 0
  {
    forall i | 0 <= i < |d|
      ensures GroupTotal(s, key, f)(d[i]) ==
              GroupTotal(s[..|s| - 1], key, f)(d[i]) + if key(s[|s| - 1]) == Some(d[i]) then f(s[|s| - 1]) else 0
    {
      GroupTotalSnoc(s, key, f, d[i]);
    }
  }

  /** A key with no records so far opens a group whose total is the new
      record's value. */
  lemma NewGroupTotal<T, K>(s: seq<T>, key: T -> Option<K>, f: T -> int, p: K)
    requires s != [] && key(s[|s| - 1]) == Some(p) && p !in Keys(s[..|s| - 1], key)
    ensures GroupTotal(s, key, f)(p) == f(s[|s| - 1])
  {
    KeysHaveRecords(s[..|s| - 1], key, p);
    GroupTotalSnoc(s, key, f, p);
  }

  /** A record filed nowhere leaves the grouped sum as it was. */
  lemma GroupSumSkip<T, K>(s: seq<T>, key: T -> Option<K>, f: T -> int)
    requires s != [] && key(s[|s| - 1]).None?
    ensures SumBy(Dedup(Keys(s, key)), GroupTotal(s, key, f)) ==
            SumBy(Dedup(Keys(s[..|s| - 1], key)), GroupTotal(s[..|s| - 1], key, f))
  {
    var d := Dedup(Keys(s[..|s| - 1], key));
    assert Keys(s, key) == Keys(s[..|s| - 1], key);
    GroupTotalsSnoc(s, key, f, d);
    SumByCongruent(d, GroupTotal(s, key, f), GroupTotal(s[..|s| - 1], key, f));
  }

  /** A record filed under a key seen before adds its value to that
      group's total. */
  lemma GroupSumOld<T, K>(s: seq<T>, key: T -> Option<K>, f: T -> int, p: K)
    requires s != [] && key(s[|s| - 1]) == Some(p) && p in Keys(s[..|s| - 1], key)
    ensures SumBy(Dedup(Keys(s, key)), GroupTotal(s, key, f)) ==
            SumBy(Dedup(Keys(s[..|s| - 1], key)), GroupTotal(s[..|s| - 1], key, f)) + f(s[|s| - 1])
  {
    var ks := Keys(s[..|s| - 1], key);
    var d := Dedup(ks);
    assert Keys(s, key) == ks + [p];
    DedupSnoc(ks, p);
    GroupTotalsSnoc(s, key, f, d);
    SumByBump(d, GroupTotal(s[..|s| - 1], key, f), GroupTotal(s, key, f), p, f(s[|s| - 1]));
  }

  /** A record filed under a new key opens a group at the end whose total
      is its value. */
  lemma GroupSumNew<T, K>(s: seq<T>, key: T -> Option<K>, f: T -> int, p: K)
    requires s != [] && key(s[|s| - 1]) == Some(p) && p !in Keys(s[..|s| - 1], key)
    ensures SumBy(Dedup(Keys(s, key)), GroupTotal(s, key, f)) ==
            SumBy(Dedup(Keys(s[..|s| - 1], key)), GroupTotal(s[..|s| - 1], key, f)) + f(s[|s| - 1])
  {
    var ks := Keys(s[..|s| - 1], key);
    var d := Dedup(ks);
    var gs := GroupTotal(s, key, f);
    assert Keys(s, key) == ks + [p];
    DedupSnoc(ks, p);
    var gi := GroupTotal(s[..|s| - 1], key, f);
    forall i | 0 <= i < |d| ensures gs(d[i]) == gi(d[i]) {
      assert d[i] in ks;
      GroupTotalSnoc(s, key, f, d[i]);
    }
    SumByCongruent(d, gs, gi);
    SumBySnoc(d, p, gs);
    NewGroupTotal(s, key, f, p);
  }

  /** Summing `f` group by group, over the keys in first-occurrence order,
      is summing it over every filed record: no filed record is counted
      twice or missed. */
  lemma {:induction false} GroupSum<T, K>(s: seq<T>, key: T -> Option<K>, f: T -> int)
    ensures SumBy(Dedup(Keys(s, key)), GroupTotal(s, key, f)) == SumBy(Filter(s, Keyed(key)), f)
  {
    if s != [] {
      var init, x := s[..|s| - 1], s[|s| - 1];
      GroupSum(init, key, f);
      match key(x)
      case None =>
        GroupSumSkip(s, key, f);
      case Some(p) =>
        SumBySnoc(Filter(init, Keyed(key)), x, f);
        if p in Keys(init, key) {
          GroupSumOld(s, key, f, p);
        } else {
          GroupSumNew(s, key, f, p);
        }
    }
  }
}
