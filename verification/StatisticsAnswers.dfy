/** What the median, the percentile and the coefficient of variation are, in closed form. */
module StatisticsAnswers {
  import opened Prelude
  import opened RealFacts
  import opened OrderStatistics
  import opened Variation

  // ---------------------------------------------------------------------
  // Order statistics
  // ---------------------------------------------------------------------

  /** `x` is the k-th smallest value of `v`, from zero: the least number that more than k values do not exceed. */
  ghost predicate IsKth(v: seq<real>, k: nat, x: real) {
    x in v && forall y :: CountLe(v, y) > k <==> x <= y
  }

  lemma KthOfSort(v: seq<real>, k: nat)
    requires k < |v|
    ensures |Sort(v)| == |v| && IsKth(v, k, Sort(v)[k])
  {
    SortSorts(v);
    SortPermutes(v);
    assert Sort(v)[k] in multiset(Sort(v));
    forall y ensures CountLe(v, y) > k <==> Sort(v)[k] <= y {
      Rank(Sort(v), k, y);
      CountLeSort(v, y);
    }
  }

  /** The k-th smallest value is unique. */
  lemma KthIsUnique(v: seq<real>, k: nat, x: real, y: real)
    requires IsKth(v, k, x) && IsKth(v, k, y)
    ensures x == y
  {
    assert CountLe(v, x) > k && CountLe(v, y) > k;
  }

  /** The median is the middle value, or half the sum of the two middle ones, or 0 of nothing. */
  lemma MedianMeaning(v: seq<real>, lo: real, hi: real)
    requires v != [] ==> IsKth(v, (|v| - 1) / 2, lo) && IsKth(v, |v| / 2, hi)
    ensures v == [] ==> Median(v) == 0.0
    ensures v != [] ==> 2.0 * Median(v) == lo + hi
    ensures |v| % 2 == 1 ==> Median(v) == lo == hi
  {
    if v != [] {
      KthOfSort(v, (|v| - 1) / 2);
      KthOfSort(v, |v| / 2);
      KthIsUnique(v, (|v| - 1) / 2, lo, Sort(v)[(|v| - 1) / 2]);
      KthIsUnique(v, |v| / 2, hi, Sort(v)[|v| / 2]);
    }
  }

  /**
   The percentile lies at position (n - 1) * p of the sorted values: on a value when that is
   whole, and otherwise dividing the gap to the next value in the ratio of the fraction.
   */
  lemma PercentileMeaning(v: seq<real>, p: real, k: nat, at: real, lo: real, hi: real)
    requires v != [] && 0.0 <= p <= 1.0 && at == Times((|v| - 1) as real, p)
    requires k as real <= at < (k + 1) as real && k < |v| && IsKth(v, k, lo)
    requires k + 1 < |v| ==> IsKth(v, k + 1, hi)
    ensures at == k as real ==> Percentile(v, p) == lo
    ensures k + 1 < |v| ==> Percentile(v, p) - lo == Times(hi - lo, at - k as real)
  {
    hide Times, IsKth, IsSorted;
    assert Index(|v|, p) == at && at.Floor == k;
    KthOfSort(v, k);
    KthIsUnique(v, k, lo, Sort(v)[k]);
    if k + 1 < |v| {
      KthOfSort(v, k + 1);
      KthIsUnique(v, k + 1, hi, Sort(v)[k + 1]);
      Units(hi - lo);
    }
  }

  // ---------------------------------------------------------------------
  // The coefficient of variation
  // ---------------------------------------------------------------------

  /** The sum of the values and the sum of their squares, value by value. */
  lemma SumsAppend(v: seq<real>, x: real)
    ensures Sum([]) == 0.0 && SumBy(SQUARE, []) == 0.0
    ensures Sum(v + [x]) == Sum(v) + x
    ensures SumBy(SQUARE, v + [x]) == SumBy(SQUARE, v) + x * x
  {
    assert (v + [x])[..|v|] == v;
  }

  /**
   In closed form: with n values, sum S > 0 and sum of squares Q, the coefficient c is the
   non-negative number with (c S)^2 = n Q - S^2; with fewer than two values or S <= 0 it is 1.
   */
  lemma CoefficientClosedForm(sqrt: real -> real, v: seq<real>)
    requires IsSqrt(sqrt)
    ensures |v| < 2 || Sum(v) <= 0.0 ==> Coefficient(sqrt, v) == 1.0
    ensures |v| >= 2 && Sum(v) > 0.0 ==>
            var c, s, q, n := Coefficient(sqrt, v), Sum(v), SumBy(SQUARE, v), |v| as real;
            c >= 0.0 && Times(Times(c, s), Times(c, s)) == Times(n, q) - Times(s, s)
  {
    hide Times, Over, SumBy;
    if |v| >= 2 { OverSign(Sum(v), |v| as real); }
    if |v| >= 2 && Sum(v) > 0.0 {
      var c, s, q, n, m := Coefficient(sqrt, v), Sum(v), SumBy(SQUARE, v), |v| as real, Mean(v);
      var root := sqrt(Variance(v));
      TwoPassVariance(v);
      OverTimes(s, n);
      OverTimes(q, n);
      OverTimes(root, m);
      OverSign(root, m);
      // c s == c (n m) == n (m c) == n root
      Associate(c, n, m);
      Commute(c, n);
      Associate(n, c, m);
      Commute(c, m);
      assert Times(c, s) == Times(n, root);
      SquareOfProduct(n, root);
      SquareOfProduct(n, m);
      Distribute(Times(n, n), Over(q, n), Times(m, m));
      Associate(n, n, Over(q, n));
    }
  }
}
