/** Python's `sorted` on a list of numbers, as the `median` statistic uses it:
    an insertion sort over exact reals, and the fact that a sorted arrangement
    of a multiset is unique. */
module Sorting {

  predicate Sorted(s: seq<real>)
  {
    forall i, j :: 0 <= i < j < |s| ==> s[i] <= s[j]
  }

  /** `x` inserted into the sorted sequence `s` at its place. */
  function Insert(x: real, s: seq<real>): (r: seq<real>)
    requires Sorted(s)
    ensures Sorted(r)
    ensures multiset(r) == multiset(s) + multiset{x}
    decreases |s|
  {
    if |s| == 0 then [x]
    else if x <= s[0] then [x] + s
    else
      var rest := Insert(x, s[1..]);
      assert s == [s[0]] + s[1..];
      TailAtLeastHead(s);
      AtLeast(s[0], rest, multiset(s[1..]) + multiset{x});
      [s[0]] + rest
  }

  /** In a sorted sequence every later element is at least the first. */
  lemma TailAtLeastHead(s: seq<real>)
    requires Sorted(s) && |s| > 0
    ensures forall v :: v in multiset(s[1..]) ==> s[0] <= v
  {
    forall v | v in multiset(s[1..])
      ensures s[0] <= v
    {
      var i :| 0 <= i < |s[1..]| && s[1..][i] == v;
      assert s[i + 1] == v;
    }
  }

  /** A lower bound of a multiset bounds every element of a sequence holding
      it; so the bound may be put in front of a sorted sequence. */
  lemma AtLeast(y: real, t: seq<real>, m: multiset<real>)
    requires multiset(t) == m && forall v :: v in m ==> y <= v
    ensures forall k :: 0 <= k < |t| ==> y <= t[k]
    ensures Sorted(t) ==> Sorted([y] + t)
  {
    forall k | 0 <= k < |t|
      ensures y <= t[k]
    {
      assert t[k] in multiset(t);
    }
  }

  /** `sorted(s)`: the ascending arrangement of the elements of `s`. */
  function Sort(s: seq<real>): (r: seq<real>)
    ensures Sorted(r)
    ensures multiset(r) == multiset(s)
    decreases |s|
  {
    if |s| == 0 then []
    else
      assert s == [s[0]] + s[1..];
      Insert(s[0], Sort(s[1..]))
  }

  /** Two sorted sequences with the same elements are equal. */
  lemma {:induction false} SortedUnique(a: seq<real>, b: seq<real>)
    requires Sorted(a) && Sorted(b)
    requires multiset(a) == multiset(b)
    ensures a == b
    decreases |a|
  {
    assert |a| == |multiset(a)| == |multiset(b)| == |b|;
    if |a| > 0 {
      SameLeast(a, b);
      Tail(a);
      Tail(b);
      SortedUnique(a[1..], b[1..]);
    }
  }

  /** Two non-empty sorted sequences with the same elements start alike. */
  lemma SameLeast(a: seq<real>, b: seq<real>)
    requires Sorted(a) && Sorted(b) && |a| > 0 && |b| > 0
    requires multiset(a) == multiset(b)
    ensures a[0] == b[0]
  {
    assert a[0] in multiset(b) && b[0] in multiset(a);
    var i :| 0 <= i < |b| && b[i] == a[0];
    var j :| 0 <= j < |a| && a[j] == b[0];
    assert b[0] <= b[i] && a[0] <= a[j];
  }

  /** Dropping the first element takes it out of the multiset. */
  lemma Tail(a: seq<real>)
    requires |a| > 0
    ensures multiset(a[1..]) == multiset(a) - multiset{a[0]}
  {
    assert a == [a[0]] + a[1..];
  }

  /** Sorting a sorted sequence changes nothing. */
  lemma SortSorted(s: seq<real>)
    requires Sorted(s)
    ensures Sort(s) == s
  {
    SortedUnique(Sort(s), s);
  }

  /** Sorting depends only on the elements, not on their order. */
  lemma SortPermutation(a: seq<real>, b: seq<real>)
    requires multiset(a) == multiset(b)
    ensures Sort(a) == Sort(b)
  {
    SortedUnique(Sort(a), Sort(b));
  }
}
