/**
  Arithmetic over the integer values sensors report: the sum a JavaScript
  `reduce` or a SQL aggregate computes, the mean (exact, as a `real`), and the
  minimum and maximum.
*/
module Stats {

  /** The sum of the values, folded from the left like `values.reduce((sum, v) => sum + v, 0)`. */
  function Sum(s: seq<int>): int
  {
    if s == [] then 0 else Sum(s[..|s| - 1]) + s[|s| - 1]
  }

  /** The arithmetic mean of a non-empty list of values. */
  function Mean(s: seq<int>): real
    requires s != []
  {
    Sum(s) as real / |s| as real
  }

  /** The smallest value: one of the values, and no greater than any of them. */
  function Min(s: seq<int>): (m: int)
    requires s != []
    ensures m in s
    ensures forall x :: x in s ==> m <= x
  {
    if |s| == 1 then s[0]
    else
      var init, last := s[..|s| - 1], s[|s| - 1];
      var rest := Min(init);
      assert forall x :: x in s ==> x in init || x == last by {
        assert s == init + [last];
      }
      if last < rest then last else rest
  }

  /** The largest value: one of the values, and no smaller than any of them. */
  function Max(s: seq<int>): (m: int)
    requires s != []
    ensures m in s
    ensures forall x :: x in s ==> x <= m
  {
    if |s| == 1 then s[0]
    else
      var init, last := s[..|s| - 1], s[|s| - 1];
      var rest := Max(init);
      assert forall x :: x in s ==> x in init || x == last by {
        assert s == init + [last];
      }
      if last > rest then last else rest
  }

  /** A lower bound of every value, times the count, is a lower bound of the sum. */
  lemma {:induction false} SumAtLeast(s: seq<int>, low: int)
    requires forall x :: x in s ==> low <= x
    ensures |s| * low <= Sum(s)
  {
    if s != [] {
      var init := s[..|s| - 1];
      assert forall x :: x in init ==> x in s;
      SumAtLeast(init, low);
      assert s[|s| - 1] in s;
      assert |s| * low == |init| * low + low;
    }
  }

  /** An upper bound of every value, times the count, is an upper bound of the sum. */
  lemma {:induction false} SumAtMost(s: seq<int>, high: int)
    requires forall x :: x in s ==> x <= high
    ensures Sum(s) <= |s| * high
  {
    if s != [] {
      var init := s[..|s| - 1];
      assert forall x :: x in init ==> x in s;
      SumAtMost(init, high);
      assert s[|s| - 1] in s;
      assert |s| * high == |init| * high + high;
    }
  }

  /** Dividing bounds of a total by a positive count bounds the quotient. */
  lemma QuotientBetween(total: real, n: real, low: real, high: real)
    requires n > 0.0
    requires n * low <= total <= n * high
    ensures low <= total / n <= high
  {
  }

  /** Integer bounds on a total carry over to the reals. */
  lemma ScaledBounds(count: int, low: int, total: int, high: int)
    requires count * low <= total <= count * high
    ensures count as real * low as real <= total as real <= count as real * high as real
  {
  }

  /** The mean of a non-empty list lies between its minimum and its maximum. */
  lemma MeanWithinRange(s: seq<int>)
    requires s != []
    ensures Min(s) as real <= Mean(s) <= Max(s) as real
  {
    var low, high, count := Min(s), Max(s), |s|;
    SumAtLeast(s, low);
    SumAtMost(s, high);
    ScaledBounds(count, low, Sum(s), high);
    QuotientBetween(Sum(s) as real, count as real, low as real, high as real);
  }

  /** All values equal to one value: the mean is that value. */
  lemma {:induction false} MeanOfConstant(s: seq<int>, v: int)
    requires s != []
    requires forall x :: x in s ==> x == v
    ensures Mean(s) == v as real
  {
    SumAtLeast(s, v);
    SumAtMost(s, v);
    var n := |s| as real;
    assert (|s| * v) as real == n * v as real;
    QuotientBetween(Sum(s) as real, n, v as real, v as real);
  }
}
