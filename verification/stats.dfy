/** `statistics(data, operation)` of tools/calculator.py: mean, median,
    population standard deviation and population variance over exact reals,
    selected by the (case-sensitive) operation name. The square root of the
    standard deviation is kept symbolic. */
module Stats {
  import opened Wrappers
  import opened Sorting

  /** A statistic: an exact value, or the square root of a non-negative one. */
  datatype Figure = Exact(x: real) | SquareRoot(radicand: real)

  /** The exceptions the tool catches, with the text `str(e)` gives them. */
  datatype StatError = ZeroDivision | IndexOutOfRange | UnknownOperation
  {
    function Words(): string
    {
      match this
      case ZeroDivision => "division by zero"
      case IndexOutOfRange => "list index out of range"
      case UnknownOperation => "未知统计操作"
    }
  }

  const Operations: set<string> := {"mean", "median", "stdev", "variance"}

  /** The operation a call that names none asks for. */
  const DefaultOperation: string := "mean"

  /** `sum(data)`. */
  function Sum(s: seq<real>): real
    decreases |s|
  {
    if |s| == 0 then 0.0 else s[0] + Sum(s[1..])
  }

  /** `sum(data) / len(data)`. */
  function Mean(s: seq<real>): (m: real)
    requires |s| > 0
    ensures m * |s| as real == Sum(s)
  {
    Sum(s) / |s| as real
  }

  /** `a * b`, with the sign facts the proofs need. */
  function Product(a: real, b: real): (r: real)
    ensures a >= 0.0 && b >= 0.0 ==> r >= 0.0
    ensures a > 0.0 && b > 0.0 ==> r > 0.0
  {
    a * b
  }

  /** `x ** 2`: never negative, and positive away from zero. */
  function Square(x: real): (r: real)
    ensures r >= 0.0
    ensures x != 0.0 ==> r > 0.0
  {
    if x < 0.0 then Product(-x, -x) else Product(x, x)
  }

  /** `sum((x - m) ** 2 for x in data)`. */
  function SquaredDeviations(s: seq<real>, m: real): (r: real)
    ensures r >= 0.0
    decreases |s|
  {
    if |s| == 0 then 0.0 else Square(s[0] - m) + SquaredDeviations(s[1..], m)
  }

  /** The population variance. */
  function Variance(s: seq<real>): (v: real)
    requires |s| > 0
    ensures v >= 0.0
  {
    SquaredDeviations(s, Mean(s)) / |s| as real
  }

  /** `(sorted_data[n//2] + sorted_data[(n-1)//2]) / 2`. */
  function Median(s: seq<real>): real
    requires |s| > 0
  {
    var t := Sort(s);
    (t[|s| / 2] + t[(|s| - 1) / 2]) / 2.0
  }

  /** The tool: the statistic named by `operation`, or the exception it
      raises. Empty data divides by zero (mean, stdev, variance) or indexes
      past the end (median). */
  function Statistics(data: seq<real>, operation: string): (r: Result<Figure, StatError>)
    ensures operation !in Operations ==> r == Failure(UnknownOperation)
    ensures operation in Operations && |data| == 0 ==>
              r == Failure(if operation == "median" then IndexOutOfRange else ZeroDivision)
    ensures r.Success? <==> operation in Operations && |data| > 0
    ensures operation in {"mean", "median", "variance"} && r.Success? ==> r.value.Exact?
    ensures operation == "mean" && r.Success? ==> r.value.x * |data| as real == Sum(data)
    ensures operation == "variance" && r.Success? ==> r.value.x >= 0.0
    ensures operation == "median" && r.Success? ==> r.value == Exact(Median(data))
    ensures operation == "variance" && r.Success? ==> r.value == Exact(Variance(data))
    ensures operation == "stdev" && r.Success? ==> r.value == SquareRoot(Variance(data)) && r.value.radicand >= 0.0
  {
    if operation == "mean" then
      if |data| == 0 then Failure(ZeroDivision) else Success(Exact(Mean(data)))
    else if operation == "median" then
      if |data| == 0 then Failure(IndexOutOfRange) else Success(Exact(Median(data)))
    else if operation == "stdev" then
      if |data| == 0 then Failure(ZeroDivision) else Success(SquareRoot(Variance(data)))
    else if operation == "variance" then
      if |data| == 0 then Failure(ZeroDivision) else Success(Exact(Variance(data)))
    else Failure(UnknownOperation)
  }

  // ----- Mean -----

  lemma {:induction false} SumAbove(s: seq<real>, m: real)
    requires |s| > 0
    requires forall i :: 0 <= i < |s| ==> s[i] > m
    ensures Sum(s) > |s| as real * m
    decreases |s|
  {
    if |s| > 1 {
      SumAbove(s[1..], m);
    }
  }

  lemma {:induction false} SumBelow(s: seq<real>, m: real)
    requires |s| > 0
    requires forall i :: 0 <= i < |s| ==> s[i] < m
    ensures Sum(s) < |s| as real * m
    decreases |s|
  {
    if |s| > 1 {
      SumBelow(s[1..], m);
    }
  }

  /** The mean lies between the smallest and the largest element. */
  lemma MeanWithinRange(s: seq<real>)
    requires |s| > 0
    ensures exists i :: 0 <= i < |s| && s[i] <= Mean(s)
    ensures exists j :: 0 <= j < |s| && Mean(s) <= s[j]
  {
    var m := Mean(s);
    if forall i :: 0 <= i < |s| ==> s[i] > m {
      SumAbove(s, m);
    }
    if forall i :: 0 <= i < |s| ==> s[i] < m {
      SumBelow(s, m);
    }
  }

  /** The documented example: the mean of [1, 2, 3, 4] is 2.5. */
  lemma MeanExample()
    ensures Statistics([1.0, 2.0, 3.0, 4.0], "mean") == Success(Exact(2.5))
  {
    assert Sum([1.0, 2.0, 3.0, 4.0]) == 10.0 by {
      assert [1.0, 2.0, 3.0, 4.0][1..] == [2.0, 3.0, 4.0];
      assert [2.0, 3.0, 4.0][1..] == [3.0, 4.0];
      assert [3.0, 4.0][1..] == [4.0];
    }
  }

  /** The three error texts the tool can reply with are pairwise distinct. */
  lemma ErrorWordsDistinct(e1: StatError, e2: StatError)
    requires e1 != e2
    ensures e1.Words() != e2.Words()
  {
  }

  /** A call that names no operation asks for the mean. */
  lemma DefaultIsMean(data: seq<real>)
    ensures Statistics(data, DefaultOperation).Success? <==> |data| > 0
    ensures |data| == 0 ==> Statistics(data, DefaultOperation) == Failure(ZeroDivision)
    ensures |data| > 0 ==> Statistics(data, DefaultOperation) == Success(Exact(Mean(data)))
  {
  }

  // ----- Variance -----

  lemma {:induction false} SumOfConstant(s: seq<real>, c: real)
    requires forall i :: 0 <= i < |s| ==> s[i] == c
    ensures Sum(s) == |s| as real * c
    decreases |s|
  {
    if |s| > 0 {
      SumOfConstant(s[1..], c);
    }
  }

  /** Data all equal to `m` deviate from it by nothing. */
  lemma {:induction false} NoDeviation(s: seq<real>, m: real)
    requires forall i :: 0 <= i < |s| ==> s[i] == m
    ensures SquaredDeviations(s, m) == 0.0
    decreases |s|
  {
    if |s| > 0 {
      NoDeviation(s[1..], m);
    }
  }

  /** One element away from `m` makes the squared deviations positive. */
  lemma {:induction false} SomeDeviation(s: seq<real>, m: real, k: int)
    requires 0 <= k < |s| && s[k] != m
    ensures SquaredDeviations(s, m) > 0.0
    decreases |s|
  {
    if k > 0 {
      SomeDeviation(s[1..], m, k - 1);
    }
  }

  lemma PositiveQuotient(x: real, n: real)
    requires x > 0.0 && n > 0.0
    ensures x / n > 0.0
  {
  }

  /** The variance is zero exactly when all elements are equal. */
  lemma VarianceZeroIffConstant(s: seq<real>)
    requires |s| > 0
    ensures Variance(s) == 0.0 <==> forall i, j :: 0 <= i < |s| && 0 <= j < |s| ==> s[i] == s[j]
  {
    var m := Mean(s);
    if forall i, j :: 0 <= i < |s| && 0 <= j < |s| ==> s[i] == s[j] {
      SumOfConstant(s, s[0]);
      assert m == s[0];
      NoDeviation(s, m);
    } else {
      var i, j :| 0 <= i < |s| && 0 <= j < |s| && s[i] != s[j];
      var k := if s[i] != m then i else j;
      SomeDeviation(s, m, k);
      PositiveQuotient(SquaredDeviations(s, m), |s| as real);
    }
  }

  // ----- Median -----

  /** On sorted data the median is the middle element for an odd length and
      the mean of the two middle elements for an even one. */
  lemma MedianOfSorted(s: seq<real>)
    requires |s| > 0 && Sorted(s)
    ensures |s| % 2 == 1 ==> Median(s) == s[|s| / 2]
    ensures |s| % 2 == 0 ==> Median(s) == (s[|s| / 2 - 1] + s[|s| / 2]) / 2.0
  {
    SortSorted(s);
    var n := |s|;
    assert Median(s) == (s[n / 2] + s[(n - 1) / 2]) / 2.0;
    if n % 2 == 1 {
      assert (n - 1) / 2 == n / 2;
    } else {
      assert (n - 1) / 2 == n / 2 - 1;
    }
  }

  /** The median depends only on the elements, not on their order. */
  lemma MedianPermutation(a: seq<real>, b: seq<real>)
    requires |a| > 0 && multiset(a) == multiset(b)
    ensures |b| == |a| && Median(a) == Median(b)
  {
    assert |b| == |multiset(b)| == |multiset(a)| == |a|;
    SortPermutation(a, b);
  }

  /** The median lies between two elements of the data, and is one of them
      when the length is odd. */
  lemma MedianWithinData(s: seq<real>)
    requires |s| > 0
    ensures exists i, j :: 0 <= i < |s| && 0 <= j < |s| && s[i] <= Median(s) <= s[j]
    ensures |s| % 2 == 1 ==> exists k :: 0 <= k < |s| && s[k] == Median(s)
  {
    var t, n := Sort(s), |s|;
    assert |t| == |multiset(t)| == n;
    assert t[(n - 1) / 2] <= t[n / 2];
    var i := Occurrence(t, s, (n - 1) / 2);
    var j := Occurrence(t, s, n / 2);
    assert s[i] <= Median(s) <= s[j];
    if n % 2 == 1 {
      assert (n - 1) / 2 == n / 2;
    }
  }

  /** Where an element of a rearrangement sits in the original. */
  lemma Occurrence(t: seq<real>, s: seq<real>, k: int) returns (i: int)
    requires multiset(t) == multiset(s) && 0 <= k < |t|
    ensures 0 <= i < |s| && s[i] == t[k]
  {
    assert t[k] in multiset(t);
    i :| 0 <= i < |s| && s[i] == t[k];
  }

}
