/** Decimal rendering of integers, as Python's `str` and f-strings print them. */
module Numerals {

  function DigitChar(d: nat): (c: char)
    requires d < 10
    ensures '0' <= c <= '9'
  {
    ('0' as int + d) as char
  }

  /** The decimal digits of `n`, most significant first, without leading zeros. */
  function Digits(n: nat): (s: string)
    ensures |s| >= 1
    ensures forall i :: 0 <= i < |s| ==> '0' <= s[i] <= '9'
    ensures s[0] == '0' ==> n == 0
    decreases n
  {
    if n < 10 then [DigitChar(n)] else Digits(n / 10) + [DigitChar(n % 10)]
  }

  /** `str(i)` for a Python int. */
  function Decimal(i: int): (s: string)
    ensures |s| >= 1
    ensures (s[0] == '-') <==> i < 0
  {
    if i < 0 then "-" + Digits(-i) else Digits(i)
  }

  // ----- Reading the text back -----

  predicate AllDigits(s: string)
  {
    forall i :: 0 <= i < |s| ==> '0' <= s[i] <= '9'
  }

  /** The number a string of decimal digits denotes. */
  function Value(s: string): nat
    requires AllDigits(s)
    decreases |s|
  {
    if |s| == 0 then 0 else Value(s[..|s| - 1]) * 10 + (s[|s| - 1] as int - '0' as int)
  }

  /** The digits of `n` denote `n`. */
  lemma {:induction false} DigitsDenote(n: nat)
    ensures Value(Digits(n)) == n
    decreases n
  {
    var s := Digits(n);
    if n >= 10 {
      assert s[..|s| - 1] == Digits(n / 10);
      DigitsDenote(n / 10);
    }
  }

  /** Distinct naturals have distinct digit strings. */
  lemma DigitsInjective(m: nat, n: nat)
    requires Digits(m) == Digits(n)
    ensures m == n
  {
    DigitsDenote(m);
    DigitsDenote(n);
  }

  /** Distinct integers print differently, so the reply texts that embed
      them tell the arguments apart. */
  lemma DecimalInjective(i: int, j: int)
    requires Decimal(i) == Decimal(j)
    ensures i == j
  {
    assert (i < 0) == (j < 0);
    if i < 0 {
      var a, b := Digits(-i), Digits(-j);
      assert a == ("-" + a)[1..] && b == ("-" + b)[1..];
      DigitsInjective(-i, -j);
    } else {
      DigitsInjective(i, j);
    }
  }

  /** `str(i)` holds digits and at most a leading minus, never `sep` for a
      separator that is neither. */
  lemma DecimalNoSeparator(i: int)
    ensures forall k :: 0 <= k < |Decimal(i)| ==> Decimal(i)[k] == '-' || '0' <= Decimal(i)[k] <= '9'
  {
    if i < 0 {
      var d := Digits(-i);
      assert forall k :: 1 <= k < |"-" + d| ==> ("-" + d)[k] == d[k - 1];
    }
  }

  /** The position of the first `sep` in `w`. */
  function FirstIndex(w: string, sep: char): (k: nat)
    requires sep in w
    ensures k < |w| && w[k] == sep
    ensures forall j :: 0 <= j < k ==> w[j] != sep
  {
    if w[0] == sep then 0 else 1 + FirstIndex(w[1..], sep)
  }

  /** Behind a head free of `sep`, the first `sep` ends the head. */
  lemma SeparatorPosition(x: string, sep: char, y: string)
    requires forall k :: 0 <= k < |x| ==> x[k] != sep
    ensures sep in x + [sep] + y && FirstIndex(x + [sep] + y, sep) == |x|
  {
    var w := x + [sep] + y;
    assert w[|x|] == sep;
  }

  /** A separator that neither head contains splits a text uniquely. */
  lemma SplitAt(x1: string, x2: string, sep: char, y1: string, y2: string)
    requires forall k :: 0 <= k < |x1| ==> x1[k] != sep
    requires forall k :: 0 <= k < |x2| ==> x2[k] != sep
    requires x1 + [sep] + y1 == x2 + [sep] + y2
    ensures x1 == x2 && y1 == y2
  {
    var w := x1 + [sep] + y1;
    SeparatorPosition(x1, sep, y1);
    SeparatorPosition(x2, sep, y2);
    assert x1 == w[..|x1|] && x2 == (x2 + [sep] + y2)[..|x2|];
    assert y1 == w[|x1| + 1..] && y2 == (x2 + [sep] + y2)[|x2| + 1..];
  }

  lemma StripPrefix(p: string, a: string, b: string)
    requires p + a == p + b
    ensures a == b
  {
    assert a == (p + a)[|p|..] && b == (p + b)[|p|..];
  }

  lemma StripSuffix(a: string, b: string, q: string)
    requires a + q == b + q
    ensures a == b
  {
    assert a == (a + q)[..|a|] && b == (b + q)[..|b|];
  }
}
