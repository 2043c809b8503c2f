/**
 Order statistics: the median of the compute score and the percentile of the Linux
 network benchmark. Floats are reals; `sort.Float64s` is any sorting function, because a
 sorted permutation is unique.
 */
module OrderStatistics {
  import opened Prelude
  import opened RealFacts

  // ---------------------------------------------------------------------
  // Sorting
  // ---------------------------------------------------------------------

  ghost predicate IsSorted(s: seq<real>) {
    forall i, j :: 0 <= i < j < |s| ==> s[i] <= s[j]
  }

  function Insert(x: real, s: seq<real>): seq<real> {
    if s == [] || x <= s[0] then [x] + s else [s[0]] + Insert(x, s[1..])
  }

  /** sort.Float64s, on a copy. */
  function Sort(v: seq<real>): seq<real> {
    if v == [] then [] else Insert(v[0], Sort(v[1..]))
  }

  lemma {:induction false} InsertSorts(x: real, s: seq<real>)
    requires IsSorted(s)
    ensures IsSorted(Insert(x, s)) && |Insert(x, s)| == |s| + 1
    ensures Insert(x, s)[0] == x || (s != [] && Insert(x, s)[0] == s[0])
  {
    if s != [] && x > s[0] {
      InsertSorts(x, s[1..]);
      var rest := Insert(x, s[1..]);
      assert forall k :: 0 < k < |rest| ==> rest[0] <= rest[k];
    }
  }

  lemma {:induction false} InsertAdds(x: real, s: seq<real>)
    ensures multiset(Insert(x, s)) == multiset(s) + multiset{x}
  {
    if s != [] && x > s[0] {
      InsertAdds(x, s[1..]);
      assert s == [s[0]] + s[1..];
    }
  }

  lemma {:induction false} SortSorts(v: seq<real>)
    ensures IsSorted(Sort(v)) && |Sort(v)| == |v|
  {
    if v != [] {
      SortSorts(v[1..]);
      InsertSorts(v[0], Sort(v[1..]));
    }
  }

  lemma {:induction false} SortPermutes(v: seq<real>)
    ensures multiset(Sort(v)) == multiset(v)
  {
    if v != [] {
      SortPermutes(v[1..]);
      InsertAdds(v[0], Sort(v[1..]));
      assert v == [v[0]] + v[1..];
    }
  }

  lemma HeadIsLeast(s: seq<real>, x: real)
    requires IsSorted(s) && x in multiset(s)
    ensures s != [] && s[0] <= x
  {
    assert x in s;
  }

  lemma SameHead(s: seq<real>, t: seq<real>)
    requires IsSorted(s) && IsSorted(t) && s != [] && t != [] && multiset(s) == multiset(t)
    ensures s[0] == t[0]
  {
    HeadIsLeast(s, t[0]);
    HeadIsLeast(t, s[0]);
  }

  lemma SameSize(s: seq<real>, t: seq<real>)
    requires multiset(s) == multiset(t)
    ensures |s| == |t|
  {
    assert |s| == |multiset(s)| && |t| == |multiset(t)|;
  }

  lemma TailMultiset(s: seq<real>)
    requires s != []
    ensures multiset(s[1..]) == multiset(s) - multiset{s[0]}
  {
    assert s == [s[0]] + s[1..];
  }

  /** There is only one sorted arrangement of the same values. */
  lemma {:induction false} SortedUnique(s: seq<real>, t: seq<real>)
    requires IsSorted(s) && IsSorted(t) && multiset(s) == multiset(t)
    ensures s == t
  {
    SameSize(s, t);
    if s != [] {
      SameHead(s, t);
      TailMultiset(s);
      TailMultiset(t);
      SortedUnique(s[1..], t[1..]);
      assert s == [s[0]] + s[1..] && t == [t[0]] + t[1..];
    }
  }

  lemma SortOfPermutation(v: seq<real>, w: seq<real>)
    requires multiset(v) == multiset(w)
    ensures Sort(v) == Sort(w)
  {
    SortSorts(v);
    SortSorts(w);
    SortPermutes(v);
    SortPermutes(w);
    SortedUnique(Sort(v), Sort(w));
  }

  // ---------------------------------------------------------------------
  // Ranks
  // ---------------------------------------------------------------------

  /** How many values are at most `x`. */
  function CountLe(v: seq<real>, x: real): nat {
    if v == [] then 0 else (if v[0] <= x then 1 else 0) + CountLe(v[1..], x)
  }

  lemma {:induction false} CountLeInsert(y: real, s: seq<real>, x: real)
    ensures CountLe(Insert(y, s), x) == CountLe(s, x) + (if y <= x then 1 else 0)
  {
    if s == [] || y <= s[0] {
      assert ([y] + s)[1..] == s;
    } else {
      CountLeInsert(y, s[1..], x);
      assert Insert(y, s)[1..] == Insert(y, s[1..]);
    }
  }

  lemma {:induction false} CountLeSort(v: seq<real>, x: real)
    ensures CountLe(Sort(v), x) == CountLe(v, x)
  {
    if v != [] {
      CountLeSort(v[1..], x);
      CountLeInsert(v[0], Sort(v[1..]), x);
    }
  }

  lemma {:induction false} CountLeBound(v: seq<real>, x: real)
    ensures CountLe(v, x) <= |v|
    ensures (forall i :: 0 <= i < |v| ==> v[i] > x) ==> CountLe(v, x) == 0
  {
    if v != [] { CountLeBound(v[1..], x); }
  }

  /** In a sorted sequence, the k-th value is at most `x` exactly when more than k values are. */
  lemma {:induction false} Rank(s: seq<real>, k: nat, x: real)
    requires IsSorted(s) && k < |s|
    ensures s[k] <= x <==> CountLe(s, x) > k
  {
    CountLeBound(s[1..], x);
    if s[0] <= x {
      if k > 0 { Rank(s[1..], k - 1, x); }
    }
  }

  /** Raising values pointwise raises every order statistic. */
  lemma OrderStatisticMonotone(v: seq<real>, w: seq<real>, k: nat)
    requires |v| == |w| && k < |v| && forall i :: 0 <= i < |v| ==> v[i] <= w[i]
    ensures |Sort(v)| == |Sort(w)| == |v| && Sort(v)[k] <= Sort(w)[k]
  {
    SortSorts(v);
    SortSorts(w);
    var x := Sort(w)[k];
    Rank(Sort(w), k, x);
    Rank(Sort(v), k, x);
    CountLeSort(v, x);
    CountLeSort(w, x);
    CountLePointwise(v, w, x);
  }

  lemma {:induction false} CountLePointwise(v: seq<real>, w: seq<real>, x: real)
    requires |v| == |w| && forall i :: 0 <= i < |v| ==> v[i] <= w[i]
    ensures CountLe(w, x) <= CountLe(v, x)
  {
    if v != [] { CountLePointwise(v[1..], w[1..], x); }
  }

  // ---------------------------------------------------------------------
  // Median
  // ---------------------------------------------------------------------

  function Median(v: seq<real>): real {
    if v == [] then 0.0
    else
      SortSorts(v);
      var s, middle := Sort(v), |v| / 2;
      if |v| % 2 == 1 then s[middle] else (s[middle - 1] + s[middle]) / 2.0
  }

  /** medianFloat64 sorts a copy. */
  method MedianFloat64(values: seq<real>) returns (median: real)
    ensures median == Median(values)
  {
    if |values| == 0 { return 0.0; }
    var sorted := Sort(values);
    SortSorts(values);
    var middle := |sorted| / 2;
    if |sorted| % 2 == 1 { return sorted[middle]; }
    return (sorted[middle - 1] + sorted[middle]) / 2.0;
  }

  lemma MedianOfPermutation(v: seq<real>, w: seq<real>)
    requires multiset(v) == multiset(w)
    ensures Median(v) == Median(w)
  {
    SortOfPermutation(v, w);
    SameSize(v, w);
  }

  /** Raising values pointwise never lowers the median. */
  lemma MedianMonotone(v: seq<real>, w: seq<real>)
    requires |v| == |w| && forall i :: 0 <= i < |v| ==> v[i] <= w[i]
    ensures Median(v) <= Median(w)
  {
    if v != [] {
      OrderStatisticMonotone(v, w, |v| / 2);
      if |v| % 2 == 0 { OrderStatisticMonotone(v, w, |v| / 2 - 1); }
    }
  }

  /** How many positions differ between two runs of measurements. */
  function Changed(v: seq<real>, w: seq<real>): nat
    requires |v| == |w|
  {
    if v == [] then 0 else (if v[0] != w[0] then 1 else 0) + Changed(v[1..], w[1..])
  }

  /** Kept values all lie in lo..hi. */
  ghost predicate KeptWithin(v: seq<real>, w: seq<real>, lo: real, hi: real)
    requires |v| == |w|
  {
    forall i :: 0 <= i < |v| && v[i] == w[i] ==> lo <= v[i] <= hi
  }

  lemma {:induction false} FewBelow(v: seq<real>, w: seq<real>, lo: real, hi: real, x: real)
    requires |v| == |w| && KeptWithin(v, w, lo, hi)
    ensures x < lo ==> CountLe(w, x) <= Changed(v, w)
    ensures CountLe(w, hi) >= |w| - Changed(v, w)
  {
    if v != [] {
      assert KeptWithin(v[1..], w[1..], lo, hi) by {
        assert forall i :: 0 <= i < |v[1..]| ==> v[1..][i] == v[i + 1] && w[1..][i] == w[i + 1];
      }
      FewBelow(v[1..], w[1..], lo, hi, x);
    }
  }

  /** The k-th value stays within the kept values if fewer than k+1 and fewer than n-k values changed. */
  lemma OrderStatisticRobust(v: seq<real>, w: seq<real>, lo: real, hi: real, k: nat)
    requires |v| == |w| && KeptWithin(v, w, lo, hi) && k < |w|
    requires Changed(v, w) <= k && Changed(v, w) < |w| - k
    ensures |Sort(w)| == |w| && lo <= Sort(w)[k] <= hi
  {
    SortSorts(w);
    var x := Sort(w)[k];
    Rank(Sort(w), k, x);
    CountLeSort(w, x);
    FewBelow(v, w, lo, hi, x);
    Rank(Sort(w), k, hi);
    CountLeSort(w, hi);
  }

  /** Changing strictly fewer than half of the values keeps the median within the unchanged ones. */
  lemma MedianRobust(v: seq<real>, w: seq<real>, lo: real, hi: real)
    requires |v| == |w| && KeptWithin(v, w, lo, hi) && 2 * Changed(v, w) < |v|
    ensures lo <= Median(w) <= hi
  {
    OrderStatisticRobust(v, w, lo, hi, |w| / 2);
    if |w| % 2 == 0 { OrderStatisticRobust(v, w, lo, hi, |w| / 2 - 1); }
  }

  // ---------------------------------------------------------------------
  // Percentile
  // ---------------------------------------------------------------------

  /** The value at a fractional index, linear between neighbours. */
  function At(s: seq<real>, index: real): real
    requires s != [] && 0.0 <= index <= (|s| - 1) as real
  {
    var lower := index.Floor;
    if lower as real == index then s[lower]
    else Mix(s[lower], s[lower + 1], index - lower as real)
  }

  /** The fractional index of a percentile among `n` sorted values. */
  function Index(n: nat, p: real): (index: real)
    requires n > 0 && 0.0 <= p <= 1.0
    ensures 0.0 <= index <= (n - 1) as real
  {
    Units((n - 1) as real);
    ScaleMonotone((n - 1) as real, 0.0, p);
    ScaleMonotone((n - 1) as real, p, 1.0);
    Times((n - 1) as real, p)
  }

  function Percentile(v: seq<real>, p: real): real
    requires v != [] && 0.0 <= p <= 1.0
  {
    SortSorts(v);
    At(Sort(v), Index(|v|, p))
  }

  datatype PercentileError = EmptySamples | InvalidPercentile

  /** linuxPercentile sorts a copy and moves the upper index off a whole number. */
  method LinuxPercentile(values: seq<real>, p: real) returns (r: Result<real, PercentileError>)
    ensures values == [] ==> r == Err(EmptySamples)
    ensures values != [] && !(0.0 <= p <= 1.0) ==> r == Err(InvalidPercentile)
    ensures values != [] && 0.0 <= p <= 1.0 ==> r == Ok(Percentile(values, p))
  {
    hide Times;
    if |values| == 0 { return Err(EmptySamples); }
    if p < 0.0 || p > 1.0 { return Err(InvalidPercentile); }
    var sorted := Sort(values);
    SortSorts(values);
    var index := Index(|sorted|, p);
    var lower := index.Floor;
    var upper := lower;
    if lower as real != index { upper := upper + 1; }
    if lower == upper { return Ok(sorted[lower]); }
    var fraction := index - lower as real;
    return Ok(sorted[lower] + Times(sorted[upper] - sorted[lower], fraction));
  }

  lemma AtWithinNeighbours(s: seq<real>, index: real)
    requires IsSorted(s) && s != [] && 0.0 <= index <= (|s| - 1) as real
    ensures s[index.Floor] <= At(s, index)
    ensures index.Floor < |s| - 1 ==> At(s, index) <= s[index.Floor + 1]
    ensures s[0] <= At(s, index) <= s[|s| - 1]
  {
    hide Times;
    var lower := index.Floor;
    if lower as real != index { MixBetween(s[lower], s[lower + 1], index - lower as real); }
  }

  lemma AtMonotone(s: seq<real>, i: real, j: real)
    requires IsSorted(s) && s != [] && 0.0 <= i <= j <= (|s| - 1) as real
    ensures At(s, i) <= At(s, j)
  {
    hide Times;
    AtWithinNeighbours(s, i);
    AtWithinNeighbours(s, j);
    if i.Floor == j.Floor && i.Floor as real != i {
      var k := i.Floor;
      ScaleMonotone(s[k + 1] - s[k], i - k as real, j - k as real);
    }
  }

  lemma AtMonotoneInValues(s: seq<real>, t: seq<real>, index: real)
    requires s != [] && |s| == |t| && 0.0 <= index <= (|s| - 1) as real
    requires forall k :: 0 <= k < |s| ==> s[k] <= t[k]
    ensures At(s, index) <= At(t, index)
  {
    hide Times;
    var k := index.Floor;
    if k as real != index { MixMonotone(s[k], s[k + 1], t[k], t[k + 1], index - k as real); }
  }

  /** The percentile never leaves the range of the samples and never falls when the percentile grows. */
  lemma PercentileMonotone(v: seq<real>, p: real, q: real)
    requires v != [] && 0.0 <= p <= q <= 1.0
    ensures |Sort(v)| == |v| && Sort(v)[0] <= Percentile(v, p) <= Percentile(v, q) <= Sort(v)[|v| - 1]
  {
    hide Times;
    SortSorts(v);
    ScaleMonotone((|v| - 1) as real, p, q);
    AtMonotone(Sort(v), Index(|v|, p), Index(|v|, q));
    AtWithinNeighbours(Sort(v), Index(|v|, p));
    AtWithinNeighbours(Sort(v), Index(|v|, q));
  }

  /** Raising samples pointwise never lowers a percentile. */
  lemma PercentileMonotoneInSamples(v: seq<real>, w: seq<real>, p: real)
    requires v != [] && |v| == |w| && 0.0 <= p <= 1.0 && forall i :: 0 <= i < |v| ==> v[i] <= w[i]
    ensures Percentile(v, p) <= Percentile(w, p)
  {
    hide Times;
    SortSorts(v);
    SortSorts(w);
    forall k | 0 <= k < |v| ensures Sort(v)[k] <= Sort(w)[k] {
      OrderStatisticMonotone(v, w, k);
    }
    AtMonotoneInValues(Sort(v), Sort(w), Index(|v|, p));
  }
}
