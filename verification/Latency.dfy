// computeLatencyStats and percentile, with what their numbers mean.
module Latency {
  import opened Int64
  import opened Folds
  import opened Sorting

  datatype LatencyStats = LatencyStats(
    count: nat, min: int, mean: int, stddev: int, max: int, p50: int, p90: int, p99: int)

  const NO_SAMPLES := LatencyStats(0, 0, 0, 0, 0, 0, 0, 0)

  function Identity(): int -> int {
    d => d
  }

  function SquaredDifference(mean: int): int -> int {
    d => Wrap(d - mean) * Wrap(d - mean)
  }

  function Sum(s: seq<int>): int {
    SumBy(s, Identity())
  }

  // The rank, counted from one, of the p-th percentile among n samples:
  // p * n / 100 rounded up.
  function Rank(p: int, n: nat): (rank: int)
    ensures 0 < p < 100 && n > 0 ==> 1 <= rank <= n && 100 * (rank - 1) < p * n <= 100 * rank
  {
    ProductBounds(p, n);
    (p * n + 99) / 100
  }

  lemma ProductBounds(p: int, n: nat)
    ensures 0 < p < 100 && n > 0 ==> 1 <= p * n <= 99 * n
  {
    if 0 < p < 100 && n > 0 {
      MulLe(1, p, n);
      MulLe(p, 99, n);
    }
  }

  function Percentile(sorted: seq<int>, p: int): int {
    if sorted == [] then 0
    else if p <= 0 then sorted[0]
    else if p >= 100 then sorted[|sorted| - 1]
    else
      var rank := Rank(p, |sorted|);
      var atLeastOne := if rank < 1 then 1 else rank;
      var clamped := if atLeastOne > |sorted| then |sorted| else atLeastOne;
      sorted[clamped - 1]
  }

  // The mean as Go computes it: an int64 accumulator and a truncating division.
  function Mean(s: seq<int>): int
    requires s != []
  {
    Quot(Wrap(Sum(s)), |s|)
  }

  // The floor of the square root.
  function SquareRoot(x: nat): (r: nat)
    ensures r * r <= x < (r + 1) * (r + 1)
  {
    if x == 0 then 0
    else
      var r := SquareRoot(x - 1);
      if (r + 1) * (r + 1) <= x then r + 1 else r
  }

  function SumOfSquaredDifferences(s: seq<int>, mean: int): (r: nat) {
    SumNonNegative(s, SquaredDifference(mean));
    SumBy(s, SquaredDifference(mean))
  }

  function StatsOf(sorted: seq<int>): LatencyStats {
    if sorted == [] then NO_SAMPLES
    else
      var n, mean := |sorted|, Mean(sorted);
      LatencyStats(
        n, sorted[0], mean, SquareRoot(SumOfSquaredDifferences(sorted, mean) / n), sorted[n - 1],
        Percentile(sorted, 50), Percentile(sorted, 90), Percentile(sorted, 99))
  }

  method ComputeLatencyStats(sorted: seq<int>) returns (stats: LatencyStats)
    ensures stats == StatsOf(sorted)
  {
    var n := |sorted|;
    if n == 0 {
      return NO_SAMPLES;
    }
    var mean := AccumulateMean(sorted);
    var sqDiff := AccumulateSquares(sorted, mean);
    var stddev := SquareRoot(sqDiff / n);
    stats := LatencyStats(
      n, sorted[0], mean, stddev, sorted[n - 1],
      Percentile(sorted, 50), Percentile(sorted, 90), Percentile(sorted, 99));
  }

  method AccumulateMean(sorted: seq<int>) returns (mean: int)
    requires sorted != []
    ensures mean == Mean(sorted)
  {
    var sum := 0;
    for i := 0 to |sorted|
      invariant sum == Wrap(Sum(sorted[..i]))
    {
      assert sorted[..i + 1] == sorted[..i] + [sorted[i]];
      WrapAbsorbs(Sum(sorted[..i]), sorted[i]);
      sum := Wrap(sum + sorted[i]);
    }
    assert sorted[..|sorted|] == sorted;
    mean := Quot(sum, |sorted|);
  }

  method AccumulateSquares(sorted: seq<int>, mean: int) returns (sqDiff: nat)
    ensures sqDiff == SumOfSquaredDifferences(sorted, mean)
  {
    sqDiff := 0;
    for i := 0 to |sorted|
      invariant sqDiff == SumOfSquaredDifferences(sorted[..i], mean)
    {
      assert sorted[..i + 1] == sorted[..i] + [sorted[i]];
      SumAppend(sorted[..i], sorted[i], SquaredDifference(mean));
      var diff := Wrap(sorted[i] - mean);
      sqDiff := sqDiff + diff * diff;
    }
    assert sorted[..|sorted|] == sorted;
  }

  // ----- what a percentile is

  function AtMost(v: int): int -> bool {
    d => d <= v
  }

  // How many samples do not exceed v.
  function CountAtMost(s: seq<int>, v: int): int {
    SumBy(s, One(AtMost(v)))
  }

  lemma CountAppend(s: seq<int>, d: int, v: int)
    ensures CountAtMost(s + [d], v) == CountAtMost(s, v) + (if d <= v then 1 else 0)
  {
    SumAppend(s, d, One(AtMost(v)));
  }

  // v is the least sample that at least p percent of the samples do not exceed.
  ghost predicate IsPercentile(s: seq<int>, p: int, v: int) {
    && v in s
    && 100 * CountAtMost(s, v) >= p * |s|
    && forall u :: u < v ==> 100 * CountAtMost(s, u) < p * |s|
  }

  // In an ascending series the i-th sample is at most x exactly when more than
  // i samples are.
  lemma {:induction false} RankByCount(s: seq<int>, i: nat, x: int)
    requires Ascending(s) && i < |s|
    ensures s[i] <= x <==> CountAtMost(s, x) > i
  {
    var low, high := s[..i], s[i..];
    assert s == low + high;
    SumConcat(low, high, One(AtMost(x)));
    SumBetween(low, One(AtMost(x)), 0, 1);
    SumBetween(high, One(AtMost(x)), 0, 1);
    if s[i] <= x {
      SumBetween(low, One(AtMost(x)), 1, 1);
      SumWithout(high, 0, One(AtMost(x)));
      SumNonNegative(Without(high, 0), One(AtMost(x)));
    } else {
      forall d | d in high ensures One(AtMost(x))(d) == 0 { }
      SumBetween(high, One(AtMost(x)), 0, 0);
    }
  }

  lemma MulLe(a: int, b: int, n: int)
    requires a <= b && n >= 0
    ensures a * n <= b * n
  {
  }

  // Nearest rank: the value reported is the percentile of the samples, and
  // nothing else is. The clamps around the rank never act.
  lemma NearestRank(s: seq<int>, p: int, v: int)
    requires s != [] && 0 < p < 100
    ensures Percentile(Sort(s), p) == Sort(s)[Rank(p, |s|) - 1]
    ensures IsPercentile(s, p, v) <==> v == Percentile(Sort(s), p)
  {
    hide Rank, Sort;
    var sorted, n := Sort(s), |s|;
    var k := Rank(p, n);
    var w := sorted[k - 1];
    forall u ensures CountAtMost(s, u) == CountAtMost(sorted, u) {
      SumPermutation(s, sorted, One(AtMost(u)));
    }
    InPermutation(s, sorted, w);
    RankByCount(sorted, k - 1, w);
    forall u | u < w ensures 100 * CountAtMost(s, u) < p * n {
      RankByCount(sorted, k - 1, u);
    }
    assert IsPercentile(s, p, w);
  }

  lemma PercentileMonotone(sorted: seq<int>, p: int, q: int)
    requires Ascending(sorted) && p <= q
    ensures Percentile(sorted, p) <= Percentile(sorted, q)
  {
    var n := |sorted|;
    if n > 0 && 0 < p && q < 100 {
        MulLe(p, q, n);
    }
  }

  lemma PercentileInRange(sorted: seq<int>, p: int)
    requires sorted != [] && Ascending(sorted)
    ensures sorted[0] <= Percentile(sorted, p) <= sorted[|sorted| - 1]
  {
  }

  lemma PercentilesOrdered(s: seq<int>)
    ensures var st := StatsOf(Sort(s)); st.min <= st.p50 <= st.p90 <= st.p99 <= st.max
  {
    var sorted := Sort(s);
    if s != [] {
      PercentileInRange(sorted, 50);
      PercentileInRange(sorted, 99);
      PercentileMonotone(sorted, 50, 90);
      PercentileMonotone(sorted, 90, 99);
    }
  }

  lemma EndsOfSorted(s: seq<int>)
    requires s != []
    ensures var sorted := Sort(s);
            && sorted[0] in s && sorted[|s| - 1] in s
            && forall d :: d in s ==> sorted[0] <= d <= sorted[|s| - 1]
  {
    var sorted := Sort(s);
    InPermutation(s, sorted, sorted[0]);
    InPermutation(s, sorted, sorted[|s| - 1]);
    forall d | d in s ensures sorted[0] <= d <= sorted[|s| - 1] {
      InPermutation(s, sorted, d);
    }
  }

  // Each figure reported is what its name says: the number of samples, the least
  // and the greatest of them, and the fiftieth, ninetieth and ninety-ninth
  // percentile; all are zero without samples.
  lemma ReportedFigures(s: seq<int>)
    ensures var st := StatsOf(Sort(s));
            && st.count == |s|
            && (s == [] ==> st == LatencyStats(0, 0, 0, 0, 0, 0, 0, 0))
            && (s != [] ==>
                  && st.min in s && st.max in s && (forall d :: d in s ==> st.min <= d <= st.max)
                  && IsPercentile(s, 50, st.p50) && IsPercentile(s, 90, st.p90) && IsPercentile(s, 99, st.p99))
  {
    hide Sort, Percentile, IsPercentile, Mean, SquareRoot, SumOfSquaredDifferences;
    if s != [] {
      EndsOfSorted(s);
      NearestRank(s, 50, Percentile(Sort(s), 50));
      NearestRank(s, 90, Percentile(Sort(s), 90));
      NearestRank(s, 99, Percentile(Sort(s), 99));
    }
  }

  // ----- the mean

  // The reported mean is the exact truncated mean if and only if the sum of the
  // samples fits an int64.
  lemma MeanExactIffSumFits(s: seq<int>)
    requires 0 < |s| <= MAX
    ensures Mean(s) == Quot(Sum(s), |s|) <==> Fits(Sum(s))
  {
    var sum, k := Sum(s), (Sum(s) - MIN) / SPAN;
    assert Wrap(sum) == sum + -k * SPAN;
    if !Fits(sum) {
      QuotSeparates(sum, -k, |s|);
    }
  }

  // Two samples of 2^62 nanoseconds average to a negative number.
  lemma OverflowedMean()
    ensures var s := [0x4000_0000_0000_0000, 0x4000_0000_0000_0000];
            !Fits(Sum(s)) && Mean(s) < 0
  {
    var d := 0x4000_0000_0000_0000;
    SumAppend([], d, Identity());
    SumAppend([d], d, Identity());
    assert [] + [d] == [d] && [d] + [d] == [d, d];
  }

  lemma SumInRange(s: seq<int>)
    requires s != [] && Ascending(s)
    ensures s[0] * |s| <= Sum(s) <= s[|s| - 1] * |s|
  {
    SumBetween(s, Identity(), s[0], s[|s| - 1]);
  }

  lemma AscendingMean(s: seq<int>)
    requires s != [] && Ascending(s) && Fits(Sum(s))
    ensures s[0] <= Mean(s) <= s[|s| - 1]
  {
    SumInRange(s);
    QuotBetween(Sum(s), |s|, s[0], s[|s| - 1]);
  }

  // Negative samples included.
  lemma MeanBetweenExtremes(s: seq<int>)
    requires s != [] && Fits(Sum(s))
    ensures var st := StatsOf(Sort(s)); st.min <= st.mean <= st.max
  {
    SumPermutation(s, Sort(s), Identity());
    AscendingMean(Sort(s));
  }

  // ----- the spread

  function Square(): int -> int {
    d => d * d
  }

  function SquareAround(m: int): int -> int {
    d => (d - m) * (d - m)
  }

  lemma OneMoreSquare(squares: int, sum: int, n: int, m: int, d: int)
    ensures squares - 2 * m * sum + n * m * m + (d - m) * (d - m)
            == squares + d * d - 2 * m * (sum + d) + (n + 1) * m * m
  {
    assert (d - m) * (d - m) == d * d - 2 * m * d + m * m;
    assert 2 * m * (sum + d) == 2 * m * sum + 2 * m * d;
    assert (n + 1) * m == n * m + m;
    assert (n * m + m) * m == n * m * m + m * m;
  }

  lemma {:induction false} SquaresAround(s: seq<int>, m: int)
    ensures SumBy(s, SquareAround(m)) == SumBy(s, Square()) - 2 * m * Sum(s) + |s| * m * m
  {
    if s != [] {
      var front, d := s[..|s| - 1], s[|s| - 1];
      SquaresAround(front, m);
      OneMoreSquare(SumBy(front, Square()), Sum(front), |front|, m, d);
      assert |s| == |front| + 1;
    }
  }

  // Around any centre m, n times the squared differences exceed the exact
  // n * sum(d^2) - (sum d)^2 by (sum d - n * m)^2.
  lemma ExcessOverExactVariance(s: seq<int>, m: int)
    ensures var n, sum := |s|, Sum(s);
            n * SumBy(s, SquareAround(m)) - (n * SumBy(s, Square()) - sum * sum)
              == (sum - n * m) * (sum - n * m)
  {
    SquaresAround(s, m);
    Expand(|s|, SumBy(s, Square()), Sum(s), m);
  }

  lemma Expand(n: int, sq: int, a: int, m: int)
    ensures n * (sq - 2 * m * a + n * m * m) - (n * sq - a * a) == (a - n * m) * (a - n * m)
  {
    var b := n * m;
    assert n * (2 * m * a) == 2 * b * a;
    assert n * (n * m * m) == b * b by { assert n * m * m == b * m; assert n * (b * m) == (n * m) * b; }
    assert n * (sq - 2 * m * a + n * m * m) == n * sq - n * (2 * m * a) + n * (n * m * m);
    assert (a - b) * (a - b) == a * a - 2 * b * a + b * b;
  }

  // No int64 operation wraps while the spread is computed.
  predicate SpreadFits(s: seq<int>)
    requires s != []
  {
    Fits(Sum(s)) && Fits(s[|s| - 1] - s[0])
  }

  lemma DifferencesDoNotWrap(s: seq<int>)
    requires s != [] && Ascending(s) && SpreadFits(s)
    ensures var m, w := Mean(s), s[|s| - 1] - s[0];
            && (forall d :: d in s ==> -w <= d - m <= w)
            && SumOfSquaredDifferences(s, m) == SumBy(s, SquareAround(m))
  {
    var m, w := Mean(s), s[|s| - 1] - s[0];
    AscendingMean(s);
    forall d | d in s ensures -w <= d - m <= w && SquaredDifference(m)(d) == SquareAround(m)(d) {
      assert Wrap(d - m) == d - m;
    }
    SumMono(s, SquaredDifference(m), SquareAround(m));
    SumMono(s, SquareAround(m), SquaredDifference(m));
  }

  // Truncating the mean inflates n^2 times the variance by less than n^2.
  lemma TruncatedMeanVariance(s: seq<int>)
    requires s != [] && Ascending(s) && SpreadFits(s)
    ensures var n := |s|;
            var excess := n * SumOfSquaredDifferences(s, Mean(s)) - (n * SumBy(s, Square()) - Sum(s) * Sum(s));
            excess == (Sum(s) - n * Mean(s)) * (Sum(s) - n * Mean(s)) && 0 <= excess < n * n
  {
    DifferencesDoNotWrap(s);
    ExcessOverExactVariance(s, Mean(s));
    var n, e := |s|, Sum(s) - |s| * Mean(s);
    assert -n < e < n;
    SquareBelow(e, n);
  }

  lemma SquareBelow(e: int, n: int)
    requires -n < e < n
    ensures 0 <= e * e < n * n
  {
    var a := if e < 0 then -e else e;
    assert e * e == a * a;
    assert a * a <= a * n by { MulLe(a, n, a); }
    assert a * n < n * n by { MulLe(a, n - 1, n); assert (n - 1) * n == n * n - n; }
  }

  // r is the floor of the root of x / n.
  ghost predicate IsRootOfMean(r: int, x: int, n: int) {
    r >= 0 && r * r * n <= x < (r + 1) * (r + 1) * n
  }

  // The deviation computed is the floor of the root of the mean squared
  // difference from the reported mean. It is an int64, and what is reported,
  // exactly unless every difference wraps to the least int64.
  lemma StddevIsRootMeanSquare(s: seq<int>)
    requires s != []
    ensures var st := StatsOf(Sort(s)); IsRootOfMean(st.stddev, SumBy(s, SquaredDifference(st.mean)), |s|)
    ensures var st := StatsOf(Sort(s)); Fits(st.stddev) <==> exists d :: d in s && Wrap(d - st.mean) != MIN
  {
    hide StatsOf, Mean, Sort, SquareRoot, SquaredDifference, SumBy, IsRootOfMean, Wrap, Fits;
    var m := Mean(Sort(s));
    StddevOf(s);
    SumPermutation(s, Sort(s), SquaredDifference(m));
    SquaresAtTop(s, m);
    var squares := SumOfSquaredDifferences(Sort(s), m);
    RootOfQuotient(squares, |s|);
    RootFitsIff(squares, |s|);
  }

  // The root of a mean of squares of int64 values is an int64 below the top.
  lemma RootFitsIff(squares: nat, n: nat)
    requires n > 0 && squares <= HALF * HALF * n
    ensures Fits(SquareRoot(squares / n)) <==> squares != HALF * HALF * n
  {
    hide SquareRoot;
    if squares == HALF * HALF * n {
      QuotBetween(squares, n, HALF * HALF, HALF * HALF);
      RootOfSquare(HALF);
    } else {
      QuotientBelow(squares, n, HALF * HALF);
      RootBelow(squares / n, HALF);
    }
  }

  const HALF: int := 0x8000_0000_0000_0000

  // A squared difference is at most 2^126, and that only for the least int64.
  lemma SquareAtTop(m: int, d: int)
    ensures 0 <= SquaredDifference(m)(d) <= HALF * HALF
    ensures SquaredDifference(m)(d) == HALF * HALF <==> Wrap(d - m) == MIN
  {
    var e := Wrap(d - m);
    if e != MIN {
      BoundedSquare(e, MAX);
    }
  }

  function Top(): int -> int {
    d => HALF * HALF
  }

  lemma SquaresAtTop(s: seq<int>, m: int)
    ensures 0 <= SumBy(s, SquaredDifference(m)) <= HALF * HALF * |s|
    ensures SumBy(s, SquaredDifference(m)) == HALF * HALF * |s| <==> forall d :: d in s ==> Wrap(d - m) == MIN
  {
    forall d | d in s
      ensures 0 <= SquaredDifference(m)(d) <= Top()(d)
      ensures SquaredDifference(m)(d) == Top()(d) <==> Wrap(d - m) == MIN
    {
      SquareAtTop(m, d);
    }
    hide SquaredDifference, Wrap;
    SumBetween(s, SquaredDifference(m), 0, HALF * HALF);
    SumBetween(s, Top(), HALF * HALF, HALF * HALF);
    SumTight(s, SquaredDifference(m), Top());
  }

  lemma QuotientBelow(x: nat, n: nat, a: int)
    requires n > 0 && x < a * n
    ensures x / n < a
  {
    if x / n >= a { MulLe(a, x / n, n); }
  }

  lemma RootBelow(x: nat, r: nat)
    requires x < r * r
    ensures SquareRoot(x) < r
  {
    if SquareRoot(x) > r { RootExceeds(SquareRoot(x), r); }
  }

  lemma RootOfQuotient(squares: nat, n: nat)
    requires n > 0
    ensures IsRootOfMean(SquareRoot(squares / n), squares, n)
  {
    var r := SquareRoot(squares / n);
    QuotientBetween(squares, n, r * r, (r + 1) * (r + 1));
  }

  lemma QuotientBetween(x: nat, n: nat, a: int, b: int)
    requires n > 0 && a <= x / n < b
    ensures a * n <= x < b * n
  {
    MulLe(a, x / n, n);
    MulLe(x / n + 1, b, n);
    assert (x / n + 1) * n == x / n * n + n;
  }

  lemma StddevOf(s: seq<int>)
    requires s != []
    ensures var st, m := StatsOf(Sort(s)), Mean(Sort(s));
            st.mean == m && st.stddev == SquareRoot(SumOfSquaredDifferences(Sort(s), m) / |s|)
  {
  }

  lemma StddevAtMostRange(s: seq<int>)
    requires s != [] && SpreadFits(Sort(s))
    ensures var st := StatsOf(Sort(s)); 0 <= st.stddev <= st.max - st.min
  {
    SpreadOfAscending(Sort(s));
  }

  lemma SpreadOfAscending(s: seq<int>)
    requires s != [] && Ascending(s) && SpreadFits(s)
    ensures SquareRoot(SumOfSquaredDifferences(s, Mean(s)) / |s|) <= s[|s| - 1] - s[0]
  {
    var m, w := Mean(s), s[|s| - 1] - s[0];
    DifferencesDoNotWrap(s);
    SquaresBounded(s, m, w);
    var squares := SumOfSquaredDifferences(s, m);
    MeanOfSquares(squares, |s|, w);
    RootAtMost(squares / |s|, w);
  }

  lemma RootAtMost(x: nat, w: nat)
    requires x <= w * w
    ensures SquareRoot(x) <= w
  {
    if SquareRoot(x) > w { RootExceeds(SquareRoot(x), w); }
  }

  lemma SquaresBounded(s: seq<int>, m: int, w: int)
    requires forall d :: d in s ==> -w <= d - m <= w
    ensures 0 <= SumBy(s, SquareAround(m)) <= w * w * |s|
  {
    forall d | d in s ensures 0 <= SquareAround(m)(d) <= w * w {
      BoundedSquare(d - m, w);
    }
    SumBetween(s, SquareAround(m), 0, w * w);
  }

  lemma MeanOfSquares(squares: nat, n: nat, w: int)
    requires n > 0 && squares <= w * w * n
    ensures squares / n <= w * w
  {
    QuotBetween(squares, n, 0, w * w);
  }

  lemma BoundedSquare(e: int, w: int)
    requires -w <= e <= w
    ensures 0 <= e * e <= w * w
  {
    var a := if e < 0 then -e else e;
    MulLe(a, w, a);
    MulLe(a, w, w);
  }

  lemma RootOfSquare(r: nat)
    ensures SquareRoot(r * r) == r
  {
    var q := SquareRoot(r * r);
    if q < r { MulLe(q + 1, r, q + 1); MulLe(q + 1, r, r); }
    if q > r { RootExceeds(q, r); }
  }

  const CLOSE_PAIR: seq<int> := [0x4000_0000_0000_0000, 0x4000_0000_0010_0000]

  lemma ClosePairSums(f: int -> int)
    ensures SumBy(CLOSE_PAIR, f) == f(0x4000_0000_0000_0000) + f(0x4000_0000_0010_0000)
  {
    var a, b := 0x4000_0000_0000_0000, 0x4000_0000_0010_0000;
    assert [] + [a] == [a] && [a] + [b] == CLOSE_PAIR;
    SumAppend([], a, f);
    SumAppend([a], b, f);
  }

  lemma ClosePairMean()
    ensures Sum(CLOSE_PAIR) == 0x8000_0000_0010_0000 && Mean(CLOSE_PAIR) == -0x3fff_ffff_fff8_0000
  {
    hide SumBy;
    ClosePairSums(Identity());
  }

  lemma ClosePairSquares(m: int)
    requires m == -0x3fff_ffff_fff8_0000
    ensures SumOfSquaredDifferences(CLOSE_PAIR, m) == 2 * (0x7fff_ffff_fff8_0000 * 0x7fff_ffff_fff8_0000)
  {
    hide SumBy;
    ClosePairSums(SquaredDifference(m));
  }

  // Two samples 2^20 apart around 2^62: their sum wraps, so the mean is negative,
  // and one of the differences from it wraps too. The deviation comes out as
  // 2^63 - 2^19, an int64 far above the range, and the variance is off by far
  // more than n^2.
  lemma OverflowedSpread()
    ensures var s := CLOSE_PAIR;
            var n, squares := |s|, SumOfSquaredDifferences(s, Mean(s));
            && Ascending(s) && !SpreadFits(s)
            && SquareRoot(squares / n) == 0x7fff_ffff_fff8_0000
            && s[1] - s[0] < SquareRoot(squares / n) <= MAX
            && n * squares - (n * SumBy(s, Square()) - Sum(s) * Sum(s)) >= n * n
  {
    hide SumBy, Sum, SumOfSquaredDifferences, Mean, SquareRoot;
    ClosePairMean();
    ClosePairSquares(Mean(CLOSE_PAIR));
    ClosePairSums(Square());
    RootOfSquare(0x7fff_ffff_fff8_0000);
  }

  lemma RootExceeds(r: int, w: int)
    requires 0 <= w < r
    ensures w * w < r * r
  {
    MulLe(w, r, w);
    MulLe(w + 1, r, r);
  }

  // ----- order statistics respect a pointwise order

  // If every sample of b is matched by one of a that is no greater, the i-th
  // smallest of a is at most the i-th smallest of b, and so is every figure
  // of the statistics that is an order statistic or the mean.
  ghost predicate PointwiseAtMost(a: seq<int>, b: seq<int>) {
    |a| == |b| && forall i :: 0 <= i < |a| ==> a[i] <= b[i]
  }

  lemma {:induction false} CountsDominate(a: seq<int>, b: seq<int>, x: int)
    requires PointwiseAtMost(a, b)
    ensures CountAtMost(a, x) >= CountAtMost(b, x) && Sum(a) <= Sum(b)
  {
    if a != [] {
      CountsDominate(a[..|a| - 1], b[..|b| - 1], x);
    }
  }

  lemma SortedDominates(a: seq<int>, b: seq<int>)
    requires PointwiseAtMost(a, b)
    ensures PointwiseAtMost(Sort(a), Sort(b)) && Sum(Sort(a)) <= Sum(Sort(b))
  {
    var sa, sb := Sort(a), Sort(b);
    forall i | 0 <= i < |sa| ensures sa[i] <= sb[i] {
      var x := sb[i];
      RankByCount(sb, i, x);
      CountsDominate(a, b, x);
      SumPermutation(a, sa, One(AtMost(x)));
      SumPermutation(b, sb, One(AtMost(x)));
      RankByCount(sa, i, x);
    }
    CountsDominate(sa, sb, 0);
  }

  lemma PercentileDominates(a: seq<int>, b: seq<int>, p: int)
    requires PointwiseAtMost(a, b)
    ensures Percentile(a, p) <= Percentile(b, p)
  {
  }

  lemma StatsDominate(a: seq<int>, b: seq<int>)
    requires PointwiseAtMost(a, b)
    ensures var x, y := StatsOf(Sort(a)), StatsOf(Sort(b));
            && x.count == y.count && x.min <= y.min && x.max <= y.max
            && x.p50 <= y.p50 && x.p90 <= y.p90 && x.p99 <= y.p99
            && (Fits(Sum(a)) && Fits(Sum(b)) ==> x.mean <= y.mean)
  {
    var sa, sb := Sort(a), Sort(b);
    SortedDominates(a, b);
    SumPermutation(a, sa, Identity());
    SumPermutation(b, sb, Identity());
    if a != [] {
      QuotMonotone(Sum(sa), Sum(sb), |sa|);
      PercentileDominates(sa, sb, 50);
      PercentileDominates(sa, sb, 90);
      PercentileDominates(sa, sb, 99);
    }
  }
}
