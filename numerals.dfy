/** Decimal numerals: the `int(...)` and `str(...)` conversions the writer
    uses to turn the last stored id into the next one. */
module Numerals {

  predicate IsDigit(c: char) {
    '0' <= c <= '9'
  }

  /** A stored id: a non-empty string of ASCII digits (what `int(...)`
      accepts without error in the loaded tables). */
  predicate IsDigits(s: string) {
    |s| > 0 && forall i :: 0 <= i < |s| ==> IsDigit(s[i])
  }

  function DigitChar(d: nat): (c: char)
    requires d < 10
    ensures IsDigit(c) && DigitValue(c) == d
  {
    ('0' as int + d) as char
  }

  function DigitValue(c: char): (d: nat)
    requires IsDigit(c)
    ensures d < 10
  {
    c as int - '0' as int
  }

  /** `int(s)` for a string of digits (leading zeros allowed). */
  function ParseDecimal(s: string): nat
    requires forall i :: 0 <= i < |s| ==> IsDigit(s[i])
  {
    if s == [] then 0
    else 10 * ParseDecimal(s[..|s| - 1]) + DigitValue(s[|s| - 1])
  }

  /** `str(n)` for a natural number: its digits, most significant first,
      without leading zeros. */
  function ToDecimal(n: nat): string {
    if n < 10 then [DigitChar(n)] else ToDecimal(n / 10) + [DigitChar(n % 10)]
  }

  /** `int(str(n)) == n`: the numeral of `n` is a digit string that reads
      back as `n`. */
  lemma {:induction false} ToDecimalParses(n: nat)
    ensures IsDigits(ToDecimal(n)) && ParseDecimal(ToDecimal(n)) == n
  {
    if n >= 10 {
      ToDecimalParses(n / 10);
      var r := ToDecimal(n);
      assert r[..|r| - 1] == ToDecimal(n / 10);
    }
  }

  /** `str(i)` for any Python int: a minus sign before the digits of a
      negative number. */
  function IntStr(i: int): string {
    var digits := ToDecimal(if i < 0 then -i else i);
    if i < 0 then "-" + digits else digits
  }

  /** A negative number's `str` starts with the sign, a natural's with a
      digit. */
  lemma SignedDiffer(a: int, b: int)
    requires a < 0 <= b
    ensures IntStr(a) != IntStr(b)
  {
    ToDecimalParses(b);
    assert IntStr(a)[0] == '-';
    assert IsDigit(IntStr(b)[0]);
  }

  /** Two ints have the same `str` exactly when they are equal. */
  lemma IntStrInjective(a: int, b: int)
    ensures IntStr(a) == IntStr(b) <==> a == b
  {
    if a < 0 <= b {
      SignedDiffer(a, b);
    } else if b < 0 <= a {
      SignedDiffer(b, a);
    } else if IntStr(a) == IntStr(b) {
      var da, db := ToDecimal(if a < 0 then -a else a), ToDecimal(if b < 0 then -b else b);
      ToDecimalParses(if a < 0 then -a else a);
      ToDecimalParses(if b < 0 then -b else b);
      if a < 0 {
        assert da == IntStr(a)[1..] == IntStr(b)[1..] == db;
      }
    }
  }
}
