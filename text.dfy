/** The pieces of Python's `str` that the endpoints use: ASCII upper-casing,
    `find` (and the `find(...) > -1` containment test built on it), and the
    lexicographic order that `sorted` applies to string keys. */
module Text {

  /** `str.upper()` on one character, ASCII only. */
  function UpperChar(c: char): char {
    if 'a' <= c <= 'z' then (c as int - 32) as char else c
  }

  predicate IsLowerAscii(c: char) {
    'a' <= c <= 'z'
  }

  /** `str.upper()`, ASCII only: every lowercase ASCII letter becomes its
      capital, every other character stays where it is. */
  function Upper(s: string): (r: string)
    ensures |r| == |s|
    ensures forall i :: 0 <= i < |r| ==> !IsLowerAscii(r[i])
    ensures forall i :: 0 <= i < |s| && !IsLowerAscii(s[i]) ==> r[i] == s[i]
    ensures forall i :: 0 <= i < |s| && IsLowerAscii(s[i]) ==> 'A' <= r[i] <= 'Z' && r[i] as int + 32 == s[i] as int
  {
    seq(|s|, i requires 0 <= i < |s| => UpperChar(s[i]))
  }

  /** Upper-casing twice is upper-casing once. */
  lemma UpperIdempotent(s: string)
    ensures Upper(Upper(s)) == Upper(s)
  {
  }

  /** `s.find(t)`: the lowest index at which `t` occurs in `s`, or -1. */
  function FindIndex(s: string, t: string): (r: int)
    ensures -1 <= r <= |s|
    ensures r >= 0 ==> t <= s[r..]
    ensures forall i :: 0 <= i <= |s| && (r < 0 || i < r) ==> !(t <= s[i..])
  {
    if t <= s then 0
    else if s == [] then -1
    else
      var k := FindIndex(s[1..], t);
      assert forall i :: 1 <= i <= |s| ==> s[1..][i - 1..] == s[i..];
      if k < 0 then -1 else k + 1
  }

  /** The endpoints' filter test `s.find(t) > -1`. */
  predicate Contains(s: string, t: string) {
    FindIndex(s, t) > -1
  }

  /** `Contains` is substring containment, both ways. */
  lemma ContainsIff(s: string, t: string)
    ensures Contains(s, t) <==> exists i :: 0 <= i <= |s| && t <= s[i..]
  {
  }

  /** An empty filter matches every string. */
  lemma ContainsEmpty(s: string)
    ensures Contains(s, "")
  {
    assert "" <= s[0..];
  }

  /** Python's `<` on `str`: lexicographic by code point, a proper prefix
      being smaller. */
  predicate StrLess(a: string, b: string) {
    if a == [] then b != []
    else if b == [] then false
    else if a[0] != b[0] then a[0] < b[0]
    else StrLess(a[1..], b[1..])
  }

  lemma {:induction false} StrLessIrreflexive(a: string)
    ensures !StrLess(a, a)
  {
    if a != [] {
      StrLessIrreflexive(a[1..]);
    }
  }

  lemma {:induction false} StrLessTransitive(a: string, b: string, c: string)
    requires StrLess(a, b) && StrLess(b, c)
    ensures StrLess(a, c)
  {
    if a != [] && b != [] && c != [] && a[0] == b[0] && b[0] == c[0] {
      StrLessTransitive(a[1..], b[1..], c[1..]);
    }
  }

  lemma {:induction false} StrLessTotal(a: string, b: string)
    requires a != b
    ensures StrLess(a, b) || StrLess(b, a)
  {
    if a != [] && b != [] && a[0] == b[0] {
      assert a == [a[0]] + a[1..] && b == [b[0]] + b[1..];
      StrLessTotal(a[1..], b[1..]);
    }
  }
}
