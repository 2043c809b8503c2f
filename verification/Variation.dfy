/**
 The coefficient of variation behind the stability points: a two-pass loop, and what
 it means. The square root is any function with the property that defines it.
 */
module Variation {
  import opened RealFacts
  import opened OrderStatistics

  function SumBy(f: real -> real, v: seq<real>): real {
    if v == [] then 0.0 else SumBy(f, v[..|v| - 1]) + f(v[|v| - 1])
  }

  const IDENTITY: real -> real := x => x
  const SQUARE: real -> real := x => Times(x, x)

  function SquaredDistance(m: real): real -> real {
    x => Times(x - m, x - m)
  }

  function Sum(v: seq<real>): real {
    SumBy(IDENTITY, v)
  }

  function Mean(v: seq<real>): real
    requires v != []
  {
    Over(Sum(v), |v| as real)
  }

  function Variance(v: seq<real>): real
    requires v != []
  {
    Over(SumBy(SquaredDistance(Mean(v)), v), |v| as real)
  }

  /** A square root on the non-negative reals. */
  ghost predicate IsSqrt(sqrt: real -> real) {
    forall x :: x >= 0.0 ==> sqrt(x) >= 0.0 && Times(sqrt(x), sqrt(x)) == x
  }

  function Coefficient(sqrt: real -> real, v: seq<real>): real {
    if |v| < 2 || Mean(v) <= 0.0 then 1.0 else Over(sqrt(Variance(v)), Mean(v))
  }

  lemma SumByPrefix(f: real -> real, v: seq<real>, i: nat)
    requires i < |v|
    ensures SumBy(f, v[..i + 1]) == SumBy(f, v[..i]) + f(v[i])
  {
    assert v[..i + 1][..i] == v[..i];
  }

  method CoefficientOfVariation(sqrt: real -> real, values: seq<real>) returns (cv: real)
    ensures cv == Coefficient(sqrt, values)
  {
    hide Times, Over;
    if |values| < 2 { return 1.0; }
    assert values[..|values|] == values;
    var mean := 0.0;
    var i := 0;
    while i < |values|
      invariant 0 <= i <= |values| && mean == SumBy(IDENTITY, values[..i])
    {
      SumByPrefix(IDENTITY, values, i);
      mean := mean + values[i];
      i := i + 1;
    }
    mean := Over(mean, |values| as real);
    if mean <= 0.0 { return 1.0; }
    var variance := 0.0;
    i := 0;
    while i < |values|
      invariant 0 <= i <= |values| && variance == SumBy(SquaredDistance(mean), values[..i])
    {
      SumByPrefix(SquaredDistance(mean), values, i);
      var delta := values[i] - mean;
      variance := variance + Times(delta, delta);
      i := i + 1;
    }
    variance := Over(variance, |values| as real);
    return Over(sqrt(variance), mean);
  }

  // ---------------------------------------------------------------------
  // What the two passes compute
  // ---------------------------------------------------------------------

  lemma {:induction false} SpreadExpands(v: seq<real>, m: real)
    ensures SumBy(SquaredDistance(m), v)
         == SumBy(SQUARE, v) - 2.0 * Times(m, Sum(v)) + Times(|v| as real, Times(m, m))
    ensures SumBy(SquaredDistance(m), v) >= 0.0
  {
    hide Times;
    Units(m);
    Units(Times(m, m));
    if v != [] {
      var init, x := v[..|v| - 1], v[|v| - 1];
      SpreadExpands(init, m);
      SquareOfSum(x, m);
      SquareSign(x - m);
      Commute(x, m);
      Distribute(m, Sum(init), x);
      Commute(Times(m, m), |v| as real);
      Commute(Times(m, m), |init| as real);
      Distribute(Times(m, m), |init| as real, 1.0);
    }
  }

  /** The two-pass loop computes the mean of the squares minus the square of the mean. */
  lemma TwoPassVariance(v: seq<real>)
    requires v != []
    ensures Variance(v) == Over(SumBy(SQUARE, v), |v| as real) - Times(Mean(v), Mean(v))
    ensures Variance(v) >= 0.0
  {
    hide Times, Over, SumBy;
    var n, m, q := |v| as real, Mean(v), SumBy(SQUARE, v);
    var spread := SumBy(SquaredDistance(m), v);
    SpreadExpands(v, m);
    OverTimes(Sum(v), n);
    Associate(m, n, m);
    Associate(n, m, m);
    Commute(n, m);
    assert Times(m, Sum(v)) == Times(n, Times(m, m));
    OverTimes(q, n);
    Distribute(n, Over(q, n), Times(m, m));
    OverUnique(spread, n, Over(q, n) - Times(m, m));
    OverSign(spread, n);
  }

  lemma {:induction false} SquaresBelowSquare(v: seq<real>)
    requires forall i :: 0 <= i < |v| ==> v[i] >= 0.0
    ensures Sum(v) >= 0.0 && SumBy(SQUARE, v) <= Times(Sum(v), Sum(v))
  {
    hide Times;
    if v == [] {
      Units(0.0);
    } else {
      var s, x := Sum(v[..|v| - 1]), v[|v| - 1];
      SquaresBelowSquare(v[..|v| - 1]);
      SquareOfSum(s, x);
      Units(s);
      ScaleMonotone(s, 0.0, x);
    }
  }

  lemma BoundFromSquares(q: real, s: real, n: real, m: real)
    requires n > 0.0 && s == Times(n, m) && q <= Times(s, s)
    ensures Over(q, n) - Times(m, m) <= Times(n - 1.0, Times(m, m))
  {
    hide Times, Over;
    SquareOfProduct(n, m);
    Associate(n, n, Times(m, m));
    OverMonotone(q, Times(n, Times(n, Times(m, m))), n);
    OverUnique(Times(n, Times(n, Times(m, m))), n, Times(n, Times(m, m)));
    Commute(n, Times(m, m));
    Commute(n - 1.0, Times(m, m));
    Distribute(Times(m, m), n, 1.0);
    Units(Times(m, m));
  }

  lemma SquareOfQuotient(r: real, m: real, c: real)
    requires m > 0.0 && r >= 0.0 && Times(r, r) <= Times(c, Times(m, m))
    ensures Over(r, m) >= 0.0 && Times(Over(r, m), Over(r, m)) <= c
  {
    hide Times, Over;
    var q := Over(r, m);
    OverTimes(r, m);
    OverSign(r, m);
    SquareOfProduct(m, q);
    PositiveProduct(m, m);
    Commute(c, Times(m, m));
    if c < Times(q, q) { ScaleStrict(Times(m, m), c, Times(q, q)); }
  }

  /** For n non-negative values the squared coefficient is at most n - 1, exactly when n is at least two. */
  lemma CoefficientBound(sqrt: real -> real, v: seq<real>)
    requires IsSqrt(sqrt) && forall i :: 0 <= i < |v| ==> v[i] >= 0.0
    ensures Coefficient(sqrt, v) >= 0.0
    ensures Times(Coefficient(sqrt, v), Coefficient(sqrt, v)) <= |v| as real - 1.0 <==> |v| >= 2
  {
    hide Times, Over, SumBy;
    Units(1.0);
    if |v| >= 2 && Mean(v) > 0.0 { CoefficientBoundPositive(sqrt, v); }
  }

  lemma CoefficientBoundPositive(sqrt: real -> real, v: seq<real>)
    requires IsSqrt(sqrt) && |v| >= 2 && Mean(v) > 0.0 && forall i :: 0 <= i < |v| ==> v[i] >= 0.0
    ensures Coefficient(sqrt, v) >= 0.0
    ensures Times(Coefficient(sqrt, v), Coefficient(sqrt, v)) <= |v| as real - 1.0
  {
    hide Times, Over, SumBy;
    TwoPassVariance(v);
    SquaresBelowSquare(v);
    OverTimes(Sum(v), |v| as real);
    BoundFromSquares(SumBy(SQUARE, v), Sum(v), |v| as real, Mean(v));
    SquareOfQuotient(sqrt(Variance(v)), Mean(v), |v| as real - 1.0);
  }

  lemma {:induction false} NoSpreadIffEqual(v: seq<real>, m: real)
    ensures SumBy(SquaredDistance(m), v) == 0.0 <==> forall i :: 0 <= i < |v| ==> v[i] == m
  {
    hide Times;
    if v != [] {
      var init := v[..|v| - 1];
      NoSpreadIffEqual(init, m);
      SpreadExpands(init, m);
      SquareSign(v[|v| - 1] - m);
      assert forall i :: 0 <= i < |init| ==> init[i] == v[i];
    }
  }

  lemma {:induction false} SumOfEqual(v: seq<real>, x: real)
    requires forall i :: 0 <= i < |v| ==> v[i] == x
    ensures Sum(v) == Times(|v| as real, x)
  {
    hide Times;
    Units(x);
    if v != [] {
      SumOfEqual(v[..|v| - 1], x);
      Commute(|v| as real, x);
      Commute(|v| as real - 1.0, x);
      Distribute(x, |v| as real, 1.0);
    }
  }

  lemma MeanOfEqual(v: seq<real>)
    requires |v| >= 2 && forall i, j :: 0 <= i < j < |v| ==> v[i] == v[j]
    ensures Mean(v) == v[0]
  {
    hide Times, Over, SumBy;
    SumOfEqual(v, v[0]);
    OverUnique(Sum(v), |v| as real, v[0]);
  }

  lemma RootSign(sqrt: real -> real, x: real)
    requires IsSqrt(sqrt) && x >= 0.0
    ensures sqrt(x) == 0.0 <==> x == 0.0
  {
    hide Times;
    SquareSign(sqrt(x));
  }

  predicate AllEqual(v: seq<real>) {
    forall i, j :: 0 <= i < j < |v| ==> v[i] == v[j]
  }

  /** The coefficient is zero exactly for two or more equal values with a positive mean. */
  lemma ZeroIffEqual(sqrt: real -> real, v: seq<real>)
    requires IsSqrt(sqrt)
    ensures Coefficient(sqrt, v) == 0.0 <==> |v| >= 2 && Mean(v) > 0.0 && AllEqual(v)
  {
    hide Times, Over, SumBy;
    if |v| >= 2 && Mean(v) > 0.0 { ZeroIffEqualPositive(sqrt, v); }
  }

  lemma ZeroIffEqualPositive(sqrt: real -> real, v: seq<real>)
    requires IsSqrt(sqrt) && |v| >= 2 && Mean(v) > 0.0
    ensures Coefficient(sqrt, v) == 0.0 <==> AllEqual(v)
  {
    hide Times, Over, SumBy;
    var spread := SumBy(SquaredDistance(Mean(v)), v);
    TwoPassVariance(v);
    NoSpreadIffEqual(v, Mean(v));
    OverSign(spread, |v| as real);
    RootSign(sqrt, Variance(v));
    OverSign(sqrt(Variance(v)), Mean(v));
    if AllEqual(v) { MeanOfEqual(v); }
  }

  // ---------------------------------------------------------------------
  // Units and order do not matter
  // ---------------------------------------------------------------------

  function Scaled(v: seq<real>, c: real): seq<real> {
    seq(|v|, i requires 0 <= i < |v| => Times(c, v[i]))
  }

  lemma ScaledSplit(v: seq<real>, c: real)
    requires v != []
    ensures Scaled(v, c)[..|v| - 1] == Scaled(v[..|v| - 1], c)
    ensures Scaled(v, c)[|v| - 1] == Times(c, v[|v| - 1])
  {
    hide Times;
  }

  lemma {:induction false} ScaledSums(v: seq<real>, c: real, m: real)
    ensures Sum(Scaled(v, c)) == Times(c, Sum(v))
    ensures SumBy(SquaredDistance(Times(c, m)), Scaled(v, c)) == Times(Times(c, c), SumBy(SquaredDistance(m), v))
  {
    hide Times;
    Units(c);
    Units(Times(c, c));
    if v != [] {
      var init, x := v[..|v| - 1], v[|v| - 1];
      ScaledSums(init, c, m);
      ScaledSplit(v, c);
      Distribute(c, x, m);
      SquareOfProduct(c, x - m);
      Distribute(c, Sum(init), x);
      Distribute(Times(c, c), SumBy(SquaredDistance(m), init), Times(x - m, x - m));
    }
  }

  lemma ScaledRoot(sqrt: real -> real, variance: real, c: real)
    requires IsSqrt(sqrt) && variance >= 0.0 && c > 0.0
    ensures sqrt(Times(Times(c, c), variance)) == Times(c, sqrt(variance))
  {
    hide Times;
    var r := sqrt(variance);
    SquareOfProduct(c, r);
    SquareSign(c);
    Units(Times(c, c));
    Units(c);
    ScaleMonotone(Times(c, c), 0.0, variance);
    ScaleMonotone(c, 0.0, r);
    SqrtUnique(sqrt(Times(Times(c, c), variance)), Times(c, r));
  }

  /** Measuring in other units changes no coefficient. */
  lemma ScaleFree(sqrt: real -> real, v: seq<real>, c: real)
    requires IsSqrt(sqrt) && c > 0.0
    ensures Coefficient(sqrt, Scaled(v, c)) == Coefficient(sqrt, v)
  {
    hide Times, Over, SumBy;
    if |v| >= 2 {
      var n, m := |v| as real, Mean(v);
      ScaledSums(v, c, m);
      OverScale(c, Sum(v), n);
      assert Mean(Scaled(v, c)) == Times(c, m);
      Units(c);
      if m > 0.0 {
        TwoPassVariance(v);
        OverScale(Times(c, c), SumBy(SquaredDistance(m), v), n);
        ScaledRoot(sqrt, Variance(v), c);
        CancelFactor(c, sqrt(Variance(v)), m);
      } else {
        ScaleMonotone(c, m, 0.0);
      }
    }
  }

  lemma {:induction false} SumBySplit(f: real -> real, a: seq<real>, b: seq<real>)
    ensures SumBy(f, a + b) == SumBy(f, a) + SumBy(f, b)
  {
    if b == [] {
      assert a + b == a;
    } else {
      SumBySplit(f, a, b[..|b| - 1]);
      assert (a + b)[..|a + b| - 1] == a + b[..|b| - 1];
    }
  }

  lemma SumByCons(f: real -> real, x: real, v: seq<real>)
    ensures SumBy(f, [x] + v) == f(x) + SumBy(f, v)
  {
    SumBySplit(f, [x], v);
    assert [x][..0] == [];
  }

  lemma {:induction false} InsertKeepsSum(f: real -> real, x: real, s: seq<real>)
    ensures SumBy(f, Insert(x, s)) == SumBy(f, s) + f(x)
  {
    if s == [] || x <= s[0] {
      SumByCons(f, x, s);
    } else {
      InsertKeepsSum(f, x, s[1..]);
      SumByCons(f, s[0], Insert(x, s[1..]));
      SumByCons(f, s[0], s[1..]);
      assert s == [s[0]] + s[1..];
    }
  }

  lemma {:induction false} SortKeepsSum(f: real -> real, v: seq<real>)
    ensures SumBy(f, Sort(v)) == SumBy(f, v)
  {
    if v != [] {
      SortKeepsSum(f, v[1..]);
      InsertKeepsSum(f, v[0], Sort(v[1..]));
      SumByCons(f, v[0], v[1..]);
      assert v == [v[0]] + v[1..];
    }
  }

  /** The coefficient does not depend on the order of the measurements. */
  lemma OrderFree(sqrt: real -> real, v: seq<real>, w: seq<real>)
    requires multiset(v) == multiset(w)
    ensures Coefficient(sqrt, v) == Coefficient(sqrt, w)
  {
    hide Times, Over;
    SameSize(v, w);
    SortOfPermutation(v, w);
    if v != [] {
      SortKeepsSum(IDENTITY, v);
      SortKeepsSum(IDENTITY, w);
      SortKeepsSum(SquaredDistance(Mean(v)), v);
      SortKeepsSum(SquaredDistance(Mean(v)), w);
    }
  }
}
