// src/aggregators/cpu_stats_aggregator/cpu_stats_aggregator.h (ComputeStats, Percentile), over reals.
module Statistics {

  datatype Stats = Stats(avg: real, min: real, max: real, p50: real, p99: real)

  predicate Sorted(s: seq<real>) {
    forall i, j :: 0 <= i <= j < |s| ==> s[i] <= s[j]
  }

  function Sum(s: seq<real>): real {
    if s == [] then 0.0 else Sum(s[..|s| - 1]) + s[|s| - 1]
  }

  // ---- std::sort ----

  function InsertSorted(s: seq<real>, x: real): (r: seq<real>)
    requires Sorted(s)
    ensures Sorted(r) && |r| == |s| + 1
    ensures r[|s|] == if s == [] || s[|s| - 1] <= x then x else s[|s| - 1]
  {
    if s == [] || s[|s| - 1] <= x then s + [x]
    else
      var n := |s| - 1;
      InsertSorted(s[..n], x) + [s[n]]
  }

  function Sort(s: seq<real>): (r: seq<real>)
    ensures Sorted(r) && |r| == |s|
  {
    if s == [] then [] else InsertSorted(Sort(s[..|s| - 1]), s[|s| - 1])
  }

  lemma {:induction false} InsertPermutes(s: seq<real>, x: real)
    requires Sorted(s)
    ensures multiset(InsertSorted(s, x)) == multiset(s) + multiset{x}
    decreases |s|
  {
    if s != [] && s[|s| - 1] > x {
      InsertPermutes(s[..|s| - 1], x);
      assert s == s[..|s| - 1] + [s[|s| - 1]];
    }
  }

  lemma {:induction false} SortPermutes(s: seq<real>)
    ensures multiset(Sort(s)) == multiset(s)
    decreases |s|
  {
    if s != [] {
      SortPermutes(s[..|s| - 1]);
      InsertPermutes(Sort(s[..|s| - 1]), s[|s| - 1]);
      assert s == s[..|s| - 1] + [s[|s| - 1]];
    }
  }

  lemma {:induction false} SumOfInsert(s: seq<real>, x: real)
    requires Sorted(s)
    ensures Sum(InsertSorted(s, x)) == Sum(s) + x
    decreases |s|
  {
    var r := InsertSorted(s, x);
    if s == [] || s[|s| - 1] <= x {
      assert r[..|s|] == s;
    } else {
      SumOfInsert(s[..|s| - 1], x);
      assert r[..|s|] == InsertSorted(s[..|s| - 1], x);
    }
  }

  lemma {:induction false} SumOfSort(s: seq<real>)
    ensures Sum(Sort(s)) == Sum(s)
    decreases |s|
  {
    if s != [] {
      SumOfSort(s[..|s| - 1]);
      SumOfInsert(Sort(s[..|s| - 1]), s[|s| - 1]);
    }
  }

  // ---- Percentile ----

  function Between(a: real, b: real, frac: real): real {
    a * (1.0 - frac) + b * frac
  }

  function Ceiling(x: real): int {
    if x == x.Floor as real then x.Floor else x.Floor + 1
  }

  // The value at a position between two indices.
  function AtPosition(sorted: seq<real>, idx: real): real
    requires sorted != [] && 0.0 <= idx <= (|sorted| - 1) as real
  {
    var lo, hi := idx.Floor, Ceiling(idx);
    if lo == hi || hi >= |sorted| then sorted[lo]
    else Between(sorted[lo], sorted[hi], idx - lo as real)
  }

  function Position(n: nat, pct: real): (idx: real)
    requires n > 0 && 0.0 <= pct <= 1.0
    ensures 0.0 <= idx <= (n - 1) as real
  {
    Scaled(pct, (n - 1) as real);
    pct * (n - 1) as real
  }

  lemma Scaled(pct: real, m: real)
    requires 0.0 <= pct <= 1.0 && m >= 0.0
    ensures 0.0 <= pct * m <= m
  {
  }

  function Percentile(sorted: seq<real>, pct: real): real
    requires 0.0 <= pct <= 1.0
  {
    if sorted == [] then 0.0 else AtPosition(sorted, Position(|sorted|, pct))
  }

  lemma BetweenBounds(a: real, b: real, frac: real)
    requires a <= b && 0.0 <= frac <= 1.0
    ensures a <= Between(a, b, frac) <= b
  {
    assert Between(a, b, frac) == a + (b - a) * frac;
    Scaled(frac, b - a);
  }

  lemma BetweenMonotone(a: real, b: real, f: real, g: real)
    requires a <= b && f <= g
    ensures Between(a, b, f) <= Between(a, b, g)
  {
    assert Between(a, b, g) - Between(a, b, f) == (b - a) * (g - f);
    assert (b - a) * (g - f) >= 0.0;
  }

  // A position gives a value between its two neighbours.
  lemma Neighbours(sorted: seq<real>, idx: real)
    requires sorted != [] && Sorted(sorted) && 0.0 <= idx <= (|sorted| - 1) as real
    ensures idx.Floor < |sorted| && sorted[idx.Floor] <= AtPosition(sorted, idx)
    ensures Ceiling(idx) < |sorted| && AtPosition(sorted, idx) <= sorted[Ceiling(idx)]
  {
    var lo, hi := idx.Floor, Ceiling(idx);
    if lo != hi { BetweenBounds(sorted[lo], sorted[hi], idx - lo as real); }
  }

  /** A percentile of sorted values never falls as the percentage rises. */
  lemma AtPositionMonotone(sorted: seq<real>, x: real, y: real)
    requires sorted != [] && Sorted(sorted) && 0.0 <= x <= y <= (|sorted| - 1) as real
    ensures AtPosition(sorted, x) <= AtPosition(sorted, y)
  {
    Neighbours(sorted, x);
    Neighbours(sorted, y);
    if x.Floor < y.Floor {
      assert Ceiling(x) <= y.Floor;
    } else if Ceiling(x) == Ceiling(y) && x.Floor != Ceiling(x) {
      BetweenMonotone(sorted[x.Floor], sorted[Ceiling(x)], x - x.Floor as real, y - y.Floor as real);
    } else {
      assert x == x.Floor as real;
    }
  }

  lemma PositionMonotone(n: nat, p: real, q: real)
    requires n > 0 && 0.0 <= p <= q <= 1.0
    ensures Position(n, p) <= Position(n, q)
    ensures Position(n, 0.0) == 0.0 && Position(n, 1.0) == (n - 1) as real
  {
    assert (q - p) * (n - 1) as real >= 0.0;
  }

  lemma EndsOfPosition(sorted: seq<real>, x: real)
    requires sorted != []
    ensures x == 0.0 ==> AtPosition(sorted, x) == sorted[0]
    ensures x == (|sorted| - 1) as real ==> AtPosition(sorted, x) == sorted[|sorted| - 1]
  {
    assert 0.0 == 0 as real && 0.0.Floor == 0;
    var m := |sorted| - 1;
    assert (m as real).Floor == m;
  }

  /** Percentiles grow with the percentage, from the least value to the greatest. */
  lemma PercentileMonotone(sorted: seq<real>, p: real, q: real)
    requires sorted != [] && Sorted(sorted) && 0.0 <= p <= q <= 1.0
    ensures sorted[0] <= Percentile(sorted, p) <= Percentile(sorted, q) <= sorted[|sorted| - 1]
    ensures Percentile(sorted, 0.0) == sorted[0] && Percentile(sorted, 1.0) == sorted[|sorted| - 1]
  {
    PositionMonotone(|sorted|, p, q);
    PositionsOrdered(sorted, Position(|sorted|, p), Position(|sorted|, q));
    EndsOfPosition(sorted, Position(|sorted|, 0.0));
    EndsOfPosition(sorted, Position(|sorted|, 1.0));
  }

  lemma FloorIs(x: real, k: int)
    requires k as real <= x < k as real + 1.0
    ensures x.Floor == k && Ceiling(x) == if x == k as real then k else k + 1
  {
  }

  /** The percentile is the point at pct on the straight lines through the sorted values, the least
      at 0 and the greatest at 1. */
  lemma PercentileIs(sorted: seq<real>, pct: real, k: nat, f: real)
    requires 0.0 <= pct <= 1.0 && k < |sorted| && 0.0 <= f < 1.0
    requires pct * (|sorted| - 1) as real == k as real + f
    ensures f == 0.0 ==> Percentile(sorted, pct) == sorted[k]
    ensures f > 0.0 ==> k + 1 < |sorted| && Percentile(sorted, pct) == sorted[k] + f * (sorted[k + 1] - sorted[k])
  {
    var idx := Position(|sorted|, pct);
    FloorIs(idx, k);
    if f > 0.0 {
      assert k + 1 < |sorted|;
      Affine(sorted[k], sorted[k + 1], f);
    }
  }

  lemma Affine(a: real, b: real, f: real)
    ensures Between(a, b, f) == a + f * (b - a)
  {
  }

  lemma PositionsOrdered(sorted: seq<real>, x: real, y: real)
    requires sorted != [] && Sorted(sorted) && 0.0 <= x <= y <= (|sorted| - 1) as real
    ensures sorted[0] <= AtPosition(sorted, x) <= AtPosition(sorted, y) <= sorted[|sorted| - 1]
  {
    AtPositionMonotone(sorted, x, y);
    Neighbours(sorted, x);
    Neighbours(sorted, y);
  }

  // ---- ComputeStats ----

  lemma {:induction false} SumBounds(s: seq<real>, least: real, greatest: real)
    requires forall i :: 0 <= i < |s| ==> least <= s[i] <= greatest
    ensures least * |s| as real <= Sum(s) <= greatest * |s| as real
    decreases |s|
  {
    if s != [] {
      var n := |s| - 1;
      SumBounds(s[..n], least, greatest);
      assert |s| as real == n as real + 1.0;
    }
  }

  lemma MeanBounds(sum: real, n: real, least: real, greatest: real)
    requires n > 0.0 && least * n <= sum <= greatest * n
    ensures sum / n * n == sum && least <= sum / n <= greatest
  {
    var mean := sum / n;
    assert mean * n == sum;
    Cancel(least, mean, n);
    Cancel(mean, greatest, n);
  }

  lemma Cancel(x: real, y: real, n: real)
    requires n > 0.0 && x * n <= y * n
    ensures x <= y
  {
    assert x > y ==> (x - y) * n > 0.0;
  }

  predicate IsMean(avg: real, vals: seq<real>) {
    avg * |vals| as real == Sum(vals)
  }

  // What the statistics of some values are.
  ghost predicate Describes(s: Stats, vals: seq<real>) {
    && s.min in vals && s.max in vals && (forall v :: v in vals ==> s.min <= v <= s.max)
    && IsMean(s.avg, vals) && s.min <= s.avg <= s.max
    && s.min <= s.p50 <= s.p99 <= s.max
  }

  /** Least, greatest and mean of the values, and two percentiles in order between them. */
  method ComputeStats(vals: seq<real>) returns (s: Stats, sorted: seq<real>)
    ensures vals == [] ==> s == Stats(0.0, 0.0, 0.0, 0.0, 0.0)
    ensures Sorted(sorted) && multiset(sorted) == multiset(vals)
    ensures vals != [] ==> Describes(s, vals)
    ensures vals != [] ==> s.p50 == Percentile(sorted, 0.5) && s.p99 == Percentile(sorted, 0.99)
  {
    if vals == [] { return Stats(0.0, 0.0, 0.0, 0.0, 0.0), []; }
    sorted := Sort(vals);
    SortPermutes(vals);
    s := StatsOf(sorted);
    SumOfSort(vals);
    DescribesSame(s, sorted, vals);
  }

  lemma DescribesSame(s: Stats, sorted: seq<real>, vals: seq<real>)
    requires Describes(s, sorted) && multiset(sorted) == multiset(vals) && Sum(sorted) == Sum(vals)
    ensures Describes(s, vals)
  {
    SameMembers(sorted, vals);
    SameMean(s.avg, sorted, vals);
    assert forall v :: v in vals ==> v in sorted && s.min <= v <= s.max;
  }

  lemma SameMean(avg: real, a: seq<real>, b: seq<real>)
    requires IsMean(avg, a) && |a| == |b| && Sum(a) == Sum(b)
    ensures IsMean(avg, b)
  {
  }

  method StatsOf(sorted: seq<real>) returns (s: Stats)
    requires sorted != [] && Sorted(sorted)
    ensures Describes(s, sorted) && s.p50 == Percentile(sorted, 0.5) && s.p99 == Percentile(sorted, 0.99)
  {
    var avg := Mean(sorted);
    PercentileMonotone(sorted, 0.5, 0.99);
    Extremes(sorted);
    s := Stats(avg, sorted[0], sorted[|sorted| - 1], Percentile(sorted, 0.5), Percentile(sorted, 0.99));
  }

  lemma Extremes(sorted: seq<real>)
    requires sorted != [] && Sorted(sorted)
    ensures sorted[0] in sorted && sorted[|sorted| - 1] in sorted
    ensures forall v :: v in sorted ==> sorted[0] <= v <= sorted[|sorted| - 1]
  {
  }

  method Mean(sorted: seq<real>) returns (avg: real)
    requires sorted != [] && Sorted(sorted)
    ensures IsMean(avg, sorted) && sorted[0] <= avg <= sorted[|sorted| - 1]
  {
    var sum := SumAll(sorted);
    MeanOf(sorted, sum, sorted[0], sorted[|sorted| - 1], |sorted| as real);
    avg := sum / |sorted| as real;
  }

  method SumAll(vals: seq<real>) returns (sum: real)
    ensures sum == Sum(vals)
  {
    sum := 0.0;
    for i := 0 to |vals|
      invariant sum == Sum(vals[..i])
    {
      assert vals[..i + 1][..i] == vals[..i];
      sum := sum + vals[i];
    }
    assert vals[..|vals|] == vals;
  }

  lemma MeanOf(vals: seq<real>, sum: real, least: real, greatest: real, n: real)
    requires vals != [] && sum == Sum(vals) && n == |vals| as real
    requires forall i :: 0 <= i < |vals| ==> least <= vals[i] <= greatest
    ensures IsMean(sum / n, vals) && least <= sum / n <= greatest
  {
    SumBounds(vals, least, greatest);
    MeanBounds(sum, n, least, greatest);
  }

  lemma SameMembers(a: seq<real>, b: seq<real>)
    requires multiset(a) == multiset(b)
    ensures |a| == |b| && forall v :: v in a <==> v in b
  {
    assert forall v :: v in a <==> v in multiset(a);
    assert forall v :: v in b <==> v in multiset(b);
    assert |a| == |multiset(a)| && |b| == |multiset(b)|;
  }
}
