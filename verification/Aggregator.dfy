// aggregate and elapsed: from the results of a run to its summary.
module Aggregator {
  import opened Wrappers
  import opened Int64
  import opened Folds
  import opened Sorting
  import opened Latency
  import opened Records
  import opened Backends
  import opened Skew
  import opened StatusCodes

  datatype Summary = Summary(
    count: nat, errorCount: nat, elapsed: int, throughput: real, connModel: string,
    total: LatencyStats, server: LatencyStats, network: LatencyStats, upstream: LatencyStats,
    backends: seq<BackendStats>, skew: BackendSkew, errors: seq<CodeStats>)

  // ----- elapsed

  function StartOf(): Result -> int {
    (r: Result) => r.start
  }

  function EndOf(): Result -> int {
    (r: Result) => r.end
  }

  function Earliest(results: seq<Result>): int
    requires results != []
  {
    MinOf(Apply(results, StartOf()))
  }

  function Latest(results: seq<Result>): int
    requires results != []
  {
    MaxOf(Apply(results, EndOf()))
  }

  function ElapsedOf(results: seq<Result>): int {
    if results == [] then 0 else Saturate(Latest(results) - Earliest(results))
  }

  lemma ExtremeStep(results: seq<Result>, r: Result)
    requires results != []
    ensures Earliest(results + [r]) == if r.start < Earliest(results) then r.start else Earliest(results)
    ensures Latest(results + [r]) == if r.end > Latest(results) then r.end else Latest(results)
  {
    ApplyAppend(results, r, StartOf());
    ApplyAppend(results, r, EndOf());
    ExtremesAppend(Apply(results, StartOf()), r.start);
    ExtremesAppend(Apply(results, EndOf()), r.end);
  }

  lemma ExtremesOfOne(r: Result)
    ensures Earliest([r]) == r.start && Latest([r]) == r.end
  {
  }

  method Elapsed(results: seq<Result>) returns (d: int)
    ensures d == ElapsedOf(results)
  {
    if |results| == 0 {
      return 0;
    }
    hide Earliest, Latest;
    var earliest, latest := results[0].start, results[0].end;
    ExtremesOfOne(results[0]);
    assert results[..1] == [results[0]];
    for i := 1 to |results|
      invariant earliest == Earliest(results[..i]) && latest == Latest(results[..i])
    {
      assert results[..i + 1] == results[..i] + [results[i]];
      ExtremeStep(results[..i], results[i]);
      if results[i].start < earliest {
        earliest := results[i].start;
      }
      if results[i].end > latest {
        latest := results[i].end;
      }
    }
    assert results[..|results|] == results;
    return Saturate(latest - earliest);
  }

  // Every result lies between the earliest start and the latest end.
  lemma WithinElapsed(results: seq<Result>, r: Result)
    requires r in results
    ensures Earliest(results) <= r.start && r.end <= Latest(results)
  {
    var i :| 0 <= i < |results| && results[i] == r;
    var starts, ends := Apply(results, StartOf()), Apply(results, EndOf());
    assert starts[i] == r.start && starts[i] in starts && ends[i] == r.end && ends[i] in ends;
  }

  // ----- the four latency series

  function ServerOf(): Result -> int {
    (r: Result) => r.serverNs
  }

  // total - server, as int64, clamped at zero.
  function Network(r: Result): int {
    if Wrap(r.total - r.serverNs) < 0 then 0 else Wrap(r.total - r.serverNs)
  }

  function NetworkOf(): Result -> int {
    (r: Result) => Network(r)
  }

  function UpstreamOf(): Result -> int {
    (r: Result) => r.upstreamNs
  }

  function HasUpstream(): Result -> bool {
    (r: Result) => r.hasUpstream
  }

  function Series(results: seq<Result>, f: Result -> int): seq<int> {
    Apply(Filter(results, Succeeded()), f)
  }

  function UpstreamSeries(results: seq<Result>): seq<int> {
    Apply(Filter(Filter(results, Succeeded()), HasUpstream()), UpstreamOf())
  }

  function Throughput(count: nat, elapsed: int): real {
    if elapsed > 0 then count as real / (elapsed as real / 1000000000.0) else 0.0
  }

  // What a summary says of its results.
  ghost predicate IsSummary(results: seq<Result>, elapsed: int, connModel: string, s: Summary) {
    && s.count == |results|
    && s.errorCount == |Filter(results, Failed())|
    && s.elapsed == elapsed
    && s.throughput == Throughput(|results|, elapsed)
    && s.connModel == connModel
    && s.total == StatsOf(Sort(Series(results, TotalOf())))
    && s.server == StatsOf(Sort(Series(results, ServerOf())))
    && s.network == StatsOf(Sort(Series(results, NetworkOf())))
    && s.upstream == StatsOf(Sort(UpstreamSeries(results)))
    && IsBackends(results, |results|, s.backends)
    && s.skew == SkewOf(s.backends)
    && IsStatusCodes(results, s.errors)
  }

  lemma OutcomeStep(results: seq<Result>, r: Result)
    ensures |Filter(results + [r], Succeeded())| == |Filter(results, Succeeded())| + (if r.err.None? then 1 else 0)
    ensures |Filter(results + [r], Failed())| == |Filter(results, Failed())| + (if r.err.Some? then 1 else 0)
  {
    FilterAppend(results, r, Succeeded());
    FilterAppend(results, r, Failed());
  }

  method CountOutcomes(results: seq<Result>) returns (successes: nat, errorCount: nat)
    ensures successes == |Filter(results, Succeeded())| && errorCount == |Filter(results, Failed())|
  {
    hide Filter, Succeeded, Failed;
    successes, errorCount := 0, 0;
    for i := 0 to |results|
      invariant successes == |Filter(results[..i], Succeeded())|
      invariant errorCount == |Filter(results[..i], Failed())|
    {
      assert results[..i + 1] == results[..i] + [results[i]];
      OutcomeStep(results[..i], results[i]);
      if results[i].err.Some? {
        errorCount := errorCount + 1;
        continue;
      }
      successes := successes + 1;
    }
    assert results[..|results|] == results;
  }

  lemma SeriesAppend(results: seq<Result>, r: Result, f: Result -> int)
    ensures Series(results + [r], f) == Series(results, f) + (if r.err.None? then [f(r)] else [])
  {
    FilterAppend(results, r, Succeeded());
    if r.err.None? { ApplyAppend(Filter(results, Succeeded()), r, f); }
  }

  lemma UpstreamAppend(results: seq<Result>, r: Result)
    ensures UpstreamSeries(results + [r]) ==
            UpstreamSeries(results) + (if r.err.None? && r.hasUpstream then [r.upstreamNs] else [])
  {
    var successes := Filter(results, Succeeded());
    FilterAppend(results, r, Succeeded());
    if r.err.None? {
      FilterAppend(successes, r, HasUpstream());
      if r.hasUpstream { ApplyAppend(Filter(successes, HasUpstream()), r, UpstreamOf()); }
    }
  }

  datatype SeriesSet = SeriesSet(total: seq<int>, server: seq<int>, network: seq<int>, upstream: seq<int>)

  function AllSeries(results: seq<Result>): SeriesSet {
    SeriesSet(
      Series(results, TotalOf()), Series(results, ServerOf()),
      Series(results, NetworkOf()), UpstreamSeries(results))
  }

  lemma AllSeriesAppend(results: seq<Result>, r: Result)
    ensures var s := AllSeries(results);
            AllSeries(results + [r]) ==
            if r.err.Some? then s
            else SeriesSet(s.total + [r.total], s.server + [r.serverNs], s.network + [Network(r)],
                           s.upstream + (if r.hasUpstream then [r.upstreamNs] else []))
  {
    hide Series, UpstreamSeries, Network;
    SeriesAppend(results, r, TotalOf());
    SeriesAppend(results, r, ServerOf());
    SeriesAppend(results, r, NetworkOf());
    UpstreamAppend(results, r);
  }

  method NetworkTime(r: Result) returns (net: int)
    ensures net == Network(r)
  {
    net := Wrap(r.total - r.serverNs);
    if net < 0 {
      net := 0;
    }
  }

  method CollectSeries(results: seq<Result>) returns (s: SeriesSet)
    ensures s == AllSeries(results)
  {
    s := SeriesSet([], [], [], []);
    for i := 0 to |results|
      invariant s == AllSeries(results[..i])
    {
      hide AllSeries, Network;
      var r := results[i];
      assert results[..i + 1] == results[..i] + [r];
      AllSeriesAppend(results[..i], r);
      if r.err.Some? {
        continue;
      }
      var net := NetworkTime(r);
      s := s.(total := s.total + [r.total], server := s.server + [r.serverNs], network := s.network + [net]);
      if r.hasUpstream {
        s := s.(upstream := s.upstream + [r.upstreamNs]);
      }
    }
    assert results[..|results|] == results;
  }

  method SortAndCompute(series: seq<int>) returns (stats: LatencyStats)
    ensures stats == StatsOf(Sort(series))
  {
    var sorted := SortDurations(series);
    stats := ComputeLatencyStats(sorted);
  }

  method Aggregate(results: seq<Result>, elapsed: int, connModel: string) returns (s: Summary)
    ensures IsSummary(results, elapsed, connModel, s)
  {
    hide Series, UpstreamSeries, StatsOf, Sort, IsBackends, IsStatusCodes, SkewOf;
    var successes, errorCount := CountOutcomes(results);
    var total, server, network, upstream := NO_SAMPLES, NO_SAMPLES, NO_SAMPLES, NO_SAMPLES;
    EmptyStats(results);
    if successes > 0 {
      var series := CollectSeries(results);
      total := SortAndCompute(series.total);
      server := SortAndCompute(series.server);
      network := SortAndCompute(series.network);
      upstream := SortAndCompute(series.upstream);
    }
    var backends := ComputeBackends(results, |results|);
    var skew := ComputeBackendSkew(backends);
    var errors := ComputeStatusCodes(results);
    s := Summary(
      |results|, errorCount, elapsed, Throughput(|results|, elapsed), connModel,
      total, server, network, upstream, backends, skew, errors);
  }

  lemma EmptyStats(results: seq<Result>)
    ensures |Filter(results, Succeeded())| == 0 ==>
            && StatsOf(Sort(Series(results, TotalOf()))) == NO_SAMPLES
            && StatsOf(Sort(Series(results, ServerOf()))) == NO_SAMPLES
            && StatsOf(Sort(Series(results, NetworkOf()))) == NO_SAMPLES
            && StatsOf(Sort(UpstreamSeries(results))) == NO_SAMPLES
  {
  }

  // ----- conservation

  lemma StatsCount(s: seq<int>)
    ensures StatsOf(Sort(s)).count == |s|
  {
  }

  // Every result is counted once, in every breakdown.
  lemma Conservation(results: seq<Result>, elapsed: int, connModel: string, s: Summary)
    requires IsSummary(results, elapsed, connModel, s)
    ensures s.total.count + s.errorCount == s.count
    ensures s.server.count == s.network.count == s.total.count && s.upstream.count <= s.total.count
    ensures SumBy(s.backends, LineCount()) == s.count
    ensures SumBy(s.backends, LineErrors()) == s.errorCount
    ensures SumBy(s.errors, CodeCount()) == s.errorCount
  {
    hide IsBackends, IsStatusCodes, StatsOf, Sort;
    SuccessesAndFailures(results);
    BackendTotals(results, |results|, s.backends);
    StatusCodeTotals(results, s.errors);
    StatsCount(Series(results, TotalOf()));
    StatsCount(Series(results, ServerOf()));
    StatsCount(Series(results, NetworkOf()));
    StatsCount(UpstreamSeries(results));
  }

  // ----- order independence

  lemma SeriesPermutation(a: seq<Result>, b: seq<Result>, f: Result -> int)
    requires Permutes(a, b)
    ensures Sort(Series(a, f)) == Sort(Series(b, f))
  {
    FilterPermutation(a, b, Succeeded());
    ApplyPermutation(Filter(a, Succeeded()), Filter(b, Succeeded()), f);
    SortPermutation(Series(a, f), Series(b, f));
  }

  lemma UpstreamPermutation(a: seq<Result>, b: seq<Result>)
    requires Permutes(a, b)
    ensures Sort(UpstreamSeries(a)) == Sort(UpstreamSeries(b))
  {
    FilterPermutation(a, b, Succeeded());
    var sa, sb := Filter(a, Succeeded()), Filter(b, Succeeded());
    FilterPermutation(sa, sb, HasUpstream());
    ApplyPermutation(Filter(sa, HasUpstream()), Filter(sb, HasUpstream()), UpstreamOf());
    SortPermutation(UpstreamSeries(a), UpstreamSeries(b));
  }

  lemma ElapsedPermutation(a: seq<Result>, b: seq<Result>)
    requires Permutes(a, b)
    ensures ElapsedOf(a) == ElapsedOf(b)
  {
    PermutationLength(a, b);
    if a != [] {
      ApplyPermutation(a, b, StartOf());
      ApplyPermutation(a, b, EndOf());
      ExtremesPermutation(Apply(a, StartOf()), Apply(b, StartOf()));
      ExtremesPermutation(Apply(a, EndOf()), Apply(b, EndOf()));
    }
  }

  // No key string comes from two different steps of the fallback chain.
  ghost predicate OneSourcePerKey(results: seq<Result>) {
    forall r, q | r in results && q in results ::
      BackendKey(r).0 == BackendKey(q).0 ==> BackendKey(r).1 == BackendKey(q).1
  }

  lemma StatPermutation(a: seq<Result>, b: seq<Result>, n: nat, k: string)
    requires Permutes(a, b) && OneSourcePerKey(a)
    ensures StatOf(a, n, k) == StatOf(b, n, k)
  {
    var ga, gb := Group(a, KeyOf(), k), Group(b, KeyOf(), k);
    FilterPermutation(a, b, KeyIs(KeyOf(), k));
    PermutationLength(ga, gb);
    FilterPermutation(ga, gb, Failed());
    PermutationLength(Filter(ga, Failed()), Filter(gb, Failed()));
    SeriesPermutation(ga, gb, TotalOf());
    GroupSourcePermutation(a, b, k);
  }

  lemma GroupSourcePermutation(a: seq<Result>, b: seq<Result>, k: string)
    requires Permutes(a, b) && OneSourcePerKey(a)
    ensures GroupSource(Group(a, KeyOf(), k)) == GroupSource(Group(b, KeyOf(), k))
  {
    var ga, gb := Group(a, KeyOf(), k), Group(b, KeyOf(), k);
    FilterPermutation(a, b, KeyIs(KeyOf(), k));
    PermutationLength(ga, gb);
    if ga != [] {
      assert ga[0] in ga && gb[0] in gb;
      InPermutation(a, b, gb[0]);
    }
  }

  lemma BackendsPermutation(a: seq<Result>, b: seq<Result>, n: nat, out: seq<BackendStats>)
    requires Permutes(a, b) && OneSourcePerKey(a) && IsBackends(a, n, out)
    ensures IsBackends(b, n, out)
  {
    hide StatOf;
    assert KeysOf(a) == KeysOf(b) by {
      forall r ensures r in a <==> r in b { InPermutation(a, b, r); }
    }
    forall k ensures StatOf(a, n, k) == StatOf(b, n, k) { StatPermutation(a, b, n, k); }
  }

  // The summary of the merged results does not depend on the order in which
  // workers finished, on how their results interleave, on map iteration order,
  // or on the sort algorithm.
  lemma ScheduleIndependence(a: seq<Result>, b: seq<Result>, connModel: string, s: Summary, t: Summary)
    requires Permutes(a, b) && OneSourcePerKey(a)
    requires IsSummary(a, ElapsedOf(a), connModel, s) && IsSummary(b, ElapsedOf(b), connModel, t)
    ensures s == t
  {
    hide IsBackends, IsStatusCodes, StatsOf, Sort, Series, UpstreamSeries, ElapsedOf;
    PermutationLength(a, b);
    ElapsedPermutation(a, b);
    FilterPermutation(a, b, Failed());
    PermutationLength(Filter(a, Failed()), Filter(b, Failed()));
    SeriesPermutation(a, b, TotalOf());
    SeriesPermutation(a, b, ServerOf());
    SeriesPermutation(a, b, NetworkOf());
    UpstreamPermutation(a, b);
    BackendsPermutation(a, b, |a|, s.backends);
    BackendsUnique(b, |a|, s.backends, t.backends);
    StatusCodesPermutation(a, b, s.errors);
    StatusCodesUnique(b, s.errors, t.errors);
  }

  // In the same order the summary is unique without any hypothesis.
  lemma SummaryUnique(results: seq<Result>, elapsed: int, connModel: string, s: Summary, t: Summary)
    requires IsSummary(results, elapsed, connModel, s) && IsSummary(results, elapsed, connModel, t)
    ensures s == t
  {
    hide IsBackends, IsStatusCodes, StatsOf, Sort;
    BackendsUnique(results, |results|, s.backends, t.backends);
    StatusCodesUnique(results, s.errors, t.errors);
  }

  // With a key that two steps of the chain produce, two orders of the same
  // results give the key's line different sources.
  lemma SourceDependsOnOrder(results: seq<Result>) returns (a: seq<Result>, b: seq<Result>)
    requires !OneSourcePerKey(results)
    ensures Permutes(a, results) && Permutes(b, results)
    ensures forall m, s, t | IsSummary(a, ElapsedOf(a), m, s) && IsSummary(b, ElapsedOf(b), m, t) :: s != t
  {
    var r, q :|
      r in results && q in results && BackendKey(r).0 == BackendKey(q).0 && BackendKey(r).1 != BackendKey(q).1;
    a := Fronted(results, r);
    b := Fronted(results, q);
    var k := BackendKey(r).0;
    forall m, s, t | IsSummary(a, ElapsedOf(a), m, s) && IsSummary(b, ElapsedOf(b), m, t) ensures s != t {
      FrontedLine(a, s.backends, |a|);
      FrontedLine(b, t.backends, |b|);
    }
  }

  lemma Fronted(results: seq<Result>, r: Result) returns (a: seq<Result>)
    requires r in results
    ensures Permutes(a, results) && a != [] && a[0] == r
  {
    var i :| 0 <= i < |results| && results[i] == r;
    WithoutCounts(results, i);
    a := [r] + Without(results, i);
  }

  // The line of the first result's key carries that result's source.
  lemma FrontedLine(results: seq<Result>, out: seq<BackendStats>, n: nat)
    requires results != [] && IsBackends(results, n, out)
    ensures exists b :: b in out && b.key == BackendKey(results[0]).0
    ensures forall b | b in out && b.key == BackendKey(results[0]).0 :: b.source == BackendKey(results[0]).1
  {
    var k := BackendKey(results[0]).0;
    assert results[0] in results && k in KeysOf(results);
    FirstOfGroup(results);
    assert StatOf(results, n, k) in out && StatOf(results, n, k).key == k;
  }

  lemma {:induction false} FirstOfGroup(results: seq<Result>)
    requires results != []
    ensures var g := Group(results, KeyOf(), BackendKey(results[0]).0); g != [] && g[0] == results[0]
  {
    var front, r := results[..|results| - 1], results[|results| - 1];
    assert results == front + [r];
    GroupAppend(front, r, KeyOf(), BackendKey(results[0]).0);
    if front != [] {
      FirstOfGroup(front);
    } else {
      assert Group(front, KeyOf(), BackendKey(results[0]).0) == [];
    }
  }

  // ----- percentiles against backends

  // Total.P50 and Total.P99 lie between the smallest and the largest of that
  // percentile over the backends with a success.
  lemma TotalBracketedByBackends(results: seq<Result>, elapsed: int, connModel: string, s: Summary)
    requires IsSummary(results, elapsed, connModel, s) && s.total.count > 0
    ensures exists b :: b in s.backends && b.count > b.errorCount && b.p50 <= s.total.p50
    ensures exists b :: b in s.backends && b.count > b.errorCount && b.p50 >= s.total.p50
    ensures exists b :: b in s.backends && b.count > b.errorCount && b.p99 <= s.total.p99
    ensures exists b :: b in s.backends && b.count > b.errorCount && b.p99 >= s.total.p99
  {
    hide IsBackends, IsStatusCodes, SkewOf, StatsOf, Series, UpstreamSeries, Sort, Filter, PercentileOf, Durations;
    SeriesIsDurations(results);
    StatsCount(Series(results, TotalOf()));
    TotalPercentiles(results);
    var low50, high50 := BracketingLines(results, |results|, s.backends, 50);
    var low99, high99 := BracketingLines(results, |results|, s.backends, 99);
  }

  lemma TotalPercentiles(results: seq<Result>)
    ensures var st := StatsOf(Sort(Series(results, TotalOf())));
            st.p50 == PercentileOf(results, 50) && st.p99 == PercentileOf(results, 99)
  {
  }

  function LinePercentile(b: BackendStats, p: int): int {
    if p == 50 then b.p50 else b.p99
  }

  lemma BracketingLines(results: seq<Result>, n: nat, out: seq<BackendStats>, p: int)
    returns (low: BackendStats, high: BackendStats)
    requires IsBackends(results, n, out) && Durations(results) != [] && (p == 50 || p == 99)
    ensures low in out && low.count > low.errorCount && LinePercentile(low, p) <= PercentileOf(results, p)
    ensures high in out && high.count > high.errorCount && PercentileOf(results, p) <= LinePercentile(high, p)
  {
    hide IsBackends, Durations, StatOf, PercentileOf;
    var keys := LinesPartition(results, n, out);
    var lowKey, highKey := PercentileBracketed(results, keys, p);
    LineForKey(results, n, out, lowKey);
    LineForKey(results, n, out, highKey);
    low, high := StatOf(results, n, lowKey), StatOf(results, n, highKey);
  }

  lemma SeriesIsDurations(results: seq<Result>)
    ensures Series(results, TotalOf()) == Durations(results)
  {
  }

  lemma LineForKey(results: seq<Result>, n: nat, out: seq<BackendStats>, k: string)
    requires IsBackends(results, n, out) && Durations(Group(results, KeyOf(), k)) != []
    ensures var b := StatOf(results, n, k); var g := Group(results, KeyOf(), k);
            b in out && b.count > b.errorCount && b.p50 == PercentileOf(g, 50) && b.p99 == PercentileOf(g, 99)
  {
    var g := Group(results, KeyOf(), k);
    SuccessesAndFailures(g);
    GroupNonempty(results, k);
  }

  // ----- network against total and server

  // On int64 values a network time is at most its total exactly when the total
  // is not negative and the server time is either not negative or so negative
  // that the subtraction wraps below zero.
  lemma NetworkAtMostTotalIff(r: Result)
    requires Fits(r.total) && Fits(r.serverNs)
    ensures Network(r) <= r.total <==> r.total >= 0 && (r.serverNs >= 0 || r.total - r.serverNs > MAX)
  {
    var d := r.total - r.serverNs;
    if d > MAX { assert Wrap(d) == d - SPAN; }
    if d < MIN { assert Wrap(d) == d + SPAN; }
  }

  // A result by its two durations.
  function Timing(total: int, serverNs: int): Result {
    Result(0, total, total, serverNs, 0, false, "", "", "", None)
  }

  // A server time of minus one makes the network time exceed the total.
  lemma NegativeServerTime()
    ensures Network(Timing(0, -1)) == 1
  {
  }

  ghost predicate SaneDurations(results: seq<Result>) {
    forall r | r in results && r.err.None? :: 0 <= r.total <= MAX && 0 <= r.serverNs <= MAX
  }

  lemma SeriesPointwise(results: seq<Result>)
    requires SaneDurations(results)
    ensures PointwiseAtMost(Series(results, NetworkOf()), Series(results, TotalOf()))
  {
    var ok := Filter(results, Succeeded());
    forall i | 0 <= i < |ok| ensures Network(ok[i]) <= ok[i].total {
      assert ok[i] in ok;
      NetworkAtMostTotalIff(ok[i]);
    }
  }

  // Order by order, network times are at most total times; and so is their mean
  // when the totals do not overflow the accumulator.
  lemma NetworkDominatedByTotal(results: seq<Result>, elapsed: int, connModel: string, s: Summary)
    requires IsSummary(results, elapsed, connModel, s) && SaneDurations(results)
    ensures s.network.count == s.total.count
    ensures s.network.min <= s.total.min && s.network.max <= s.total.max
    ensures s.network.p50 <= s.total.p50 && s.network.p90 <= s.total.p90 && s.network.p99 <= s.total.p99
    ensures Fits(Sum(Series(results, TotalOf()))) ==> s.network.mean <= s.total.mean
    ensures PointwiseAtMost(Sort(Series(results, NetworkOf())), Sort(Series(results, TotalOf())))
  {
    hide IsSummary, StatsOf, Sort, Series, SaneDurations, SumBy;
    var net, tot := Series(results, NetworkOf()), Series(results, TotalOf());
    TotalAndNetwork(results, elapsed, connModel, s);
    SeriesPointwise(results);
    CountsDominate(net, tot, 0);
    NetworkSumNonNegative(results);
    StatsDominate(net, tot);
    SortedDominates(net, tot);
  }

  lemma TotalAndNetwork(results: seq<Result>, elapsed: int, connModel: string, s: Summary)
    requires IsSummary(results, elapsed, connModel, s)
    ensures s.total == StatsOf(Sort(Series(results, TotalOf())))
    ensures s.network == StatsOf(Sort(Series(results, NetworkOf())))
  {
    hide IsBackends, IsStatusCodes, StatsOf, Sort, Series, UpstreamSeries, Filter;
  }

  lemma SumNonNegativeSeries(s: seq<int>)
    requires forall i :: 0 <= i < |s| ==> s[i] >= 0
    ensures Sum(s) >= 0
  {
    SumNonNegative(s, Identity());
  }

  lemma TwoResults(a: Result, b: Result, f: Result -> int)
    requires a.err.None? && b.err.None?
    ensures Series([a, b], f) == [f(a), f(b)]
  {
    hide Series;
    NoSeries(f);
    SeriesAppend([], a, f);
    SeriesAppend([a], b, f);
    assert [] + [a] == [a] && [a] + [b] == [a, b];
  }

  lemma NoSeries(f: Result -> int)
    ensures Series([], f) == []
  {
  }

  const HUGE := Timing(0x4000_0000_0000_0000, 0x4000_0000_0000_0000)

  // Two calls of 2^62 nanoseconds, all of them in the server: the network mean is
  // zero and the total mean is negative.
  lemma OverflowedTotals(elapsed: int, connModel: string, s: Summary)
    requires IsSummary([HUGE, HUGE], elapsed, connModel, s)
    ensures SaneDurations([HUGE, HUGE]) && s.network.mean == 0 > s.total.mean
  {
    hide IsSummary, StatsOf, Sort, Series, SumBy, Mean;
    SummaryMeans([HUGE, HUGE], elapsed, connModel, s);
    TwoResults(HUGE, HUGE, TotalOf());
    TwoResults(HUGE, HUGE, NetworkOf());
    OverflowedMean();
    MeanOfSorted([HUGE.total, HUGE.total]);
    MeanOfSorted([0, 0]);
    ZeroMean();
  }

  lemma ZeroMean()
    ensures Mean([0, 0]) == 0
  {
    SumBetween([0, 0], Identity(), 0, 0);
  }

  lemma MeanOfSorted(s: seq<int>)
    requires s != []
    ensures StatsOf(Sort(s)).mean == Mean(s)
  {
    SumPermutation(s, Sort(s), Identity());
  }

  // On int64 values server and network time make up for the total exactly when
  // the subtraction does not wrap below zero.
  lemma PartsCoverTotalIff(r: Result)
    requires Fits(r.total) && Fits(r.serverNs)
    ensures r.total <= r.serverNs + Network(r) <==> r.total - r.serverNs <= MAX
  {
    var d := r.total - r.serverNs;
    if d > MAX { assert Wrap(d) == d - SPAN; }
    if d < MIN { assert Wrap(d) == d + SPAN; }
  }

  // Every success is such a result.
  ghost predicate PartsCover(results: seq<Result>) {
    forall r | r in results && r.err.None? :: Fits(r.total) && Fits(r.serverNs) && r.total - r.serverNs <= MAX
  }

  // The clamp at zero acts on r.
  predicate ClampFires(r: Result) {
    r.err.None? && Wrap(r.total - r.serverNs) < 0
  }

  // The server reports more time than the call took. The clamp then fires,
  // unless the subtraction wraps all the way up, which takes a negative total.
  predicate ServerExceeds(r: Result) {
    r.err.None? && r.total < r.serverNs
  }

  lemma ClampFiresIff(r: Result)
    requires r.err.None? && Fits(r.total) && Fits(r.serverNs)
    ensures ClampFires(r) <==> r.total - r.serverNs > MAX || MIN <= r.total - r.serverNs < 0
    ensures 0 <= r.total && r.total - r.serverNs <= MAX ==> (ClampFires(r) <==> ServerExceeds(r))
  {
    var d := r.total - r.serverNs;
    if d > MAX { assert Wrap(d) == d - SPAN; }
    if d < MIN { assert Wrap(d) == d + SPAN; }
  }

  function ServerPlusNetwork(): Result -> int {
    (r: Result) => r.serverNs + Network(r)
  }

  lemma PartsOfOne(r: Result)
    requires r.err.None? && Fits(r.total) && Fits(r.serverNs) && r.total - r.serverNs <= MAX
    ensures r.total <= ServerPlusNetwork()(r) && (r.total == ServerPlusNetwork()(r) <==> !ServerExceeds(r))
  {
    PartsCoverTotalIff(r);
    var d := r.total - r.serverNs;
    if d < MIN { assert Wrap(d) == d + SPAN; }
  }

  // Totals sum to at most server times plus network times, and to exactly that
  // when and only when no server time exceeds its total; for totals that are not
  // negative, when and only when the clamp never fires.
  lemma TotalsAgainstParts(results: seq<Result>)
    requires PartsCover(results)
    ensures var t, v := Sum(Series(results, TotalOf())), Sum(Series(results, ServerOf()));
            var n := Sum(Series(results, NetworkOf()));
            && t <= v + n
            && (t == v + n <==> forall r :: r in results ==> !ServerExceeds(r))
            && ((forall r :: r in results && r.err.None? ==> r.total >= 0) ==>
                  (t == v + n <==> forall r :: r in results ==> !ClampFires(r)))
  {
    hide Network, Wrap;
    var ok := Filter(results, Succeeded());
    forall r | r in ok
      ensures r.total <= ServerPlusNetwork()(r) && (r.total == ServerPlusNetwork()(r) <==> !ServerExceeds(r))
    {
      PartsOfOne(r);
    }
    SumMono(ok, TotalOf(), ServerPlusNetwork());
    SumTight(ok, TotalOf(), ServerPlusNetwork());
    SumAdd(ok, ServerOf(), NetworkOf(), ServerPlusNetwork());
    SeriesSum(ok, TotalOf());
    SeriesSum(ok, ServerOf());
    SeriesSum(ok, NetworkOf());
    assert (forall r :: r in ok ==> TotalOf()(r) == ServerPlusNetwork()(r)) <==>
           (forall r :: r in results ==> !ServerExceeds(r)) by {
      assert forall r :: r in ok ==> (TotalOf()(r) == ServerPlusNetwork()(r) <==> !ServerExceeds(r));
      assert forall r :: r in results && ServerExceeds(r) ==> r in ok;
      assert forall r :: r in ok ==> r in results;
    }
    forall r | r in results && r.err.None? && r.total >= 0 ensures ClampFires(r) <==> ServerExceeds(r) {
      ClampFiresIff(r);
    }
  }

  // A total of MaxInt64 with a server time of minus one: the difference wraps
  // below zero, is clamped, and the parts fall short of the total.
  lemma PartsFallShort(elapsed: int, connModel: string, s: Summary)
    requires IsSummary([Timing(MAX, -1)], elapsed, connModel, s)
    ensures Network(Timing(MAX, -1)) == 0
    ensures s.total.mean == MAX && s.server.mean == -1 && s.network.mean == 0
  {
    hide IsSummary, StatsOf, Sort, Series;
    SummaryMeans([Timing(MAX, -1)], elapsed, connModel, s);
    OneMean(Timing(MAX, -1), TotalOf());
    OneMean(Timing(MAX, -1), ServerOf());
    OneMean(Timing(MAX, -1), NetworkOf());
  }

  lemma SummaryMeans(results: seq<Result>, elapsed: int, connModel: string, s: Summary)
    requires IsSummary(results, elapsed, connModel, s)
    ensures s.total.mean == StatsOf(Sort(Series(results, TotalOf()))).mean
    ensures s.server.mean == StatsOf(Sort(Series(results, ServerOf()))).mean
    ensures s.network.mean == StatsOf(Sort(Series(results, NetworkOf()))).mean
  {
    hide IsBackends, IsStatusCodes, StatsOf, Sort, Series, UpstreamSeries, SkewOf, Throughput, Filter;
  }

  lemma OneMean(r: Result, f: Result -> int)
    requires r.err.None? && Fits(f(r))
    ensures StatsOf(Sort(Series([r], f))).mean == f(r)
  {
    hide StatsOf, Sort, Series;
    SeriesAppend([], r, f);
    NoSeries(f);
    assert [] + [r] == [r] && [] + [f(r)] == [f(r)];
    SumAppend([], f(r), Identity());
    MeanOfSorted([f(r)]);
  }

  lemma SeriesSum(ok: seq<Result>, f: Result -> int)
    ensures Sum(Apply(ok, f)) == SumBy(ok, f)
  {
    SumApply(ok, f, Identity(), f);
  }

  lemma QuotOfSum(t: int, v: int, w: int, n: int)
    requires n > 0 && t <= v + w && w >= 0
    ensures Quot(t, n) <= Quot(v, n) + Quot(w, n) + 1
  {
    hide Quot;
    var a, b, c := Quot(t, n), Quot(v, n), Quot(w, n);
    assert a * n < (b + c + 1) * n + n by {
      assert (b + c + 1) * n == b * n + c * n + n;
    }
    Cancel(a, b + c + 1, n);
  }

  lemma MeanOfSeries(s: seq<int>)
    requires s != [] && Fits(Sum(s))
    ensures StatsOf(Sort(s)).mean == Quot(Sum(s), |s|)
  {
    SumPermutation(s, Sort(s), Identity());
  }

  // The mean total exceeds the mean server plus the mean network by at most one
  // nanosecond of truncation.
  lemma MeanTotalAgainstParts(results: seq<Result>, elapsed: int, connModel: string, s: Summary)
    requires IsSummary(results, elapsed, connModel, s) && PartsCover(results) && s.total.count > 0
    requires Fits(Sum(Series(results, TotalOf()))) && Fits(Sum(Series(results, ServerOf())))
    requires Fits(Sum(Series(results, NetworkOf())))
    ensures s.total.mean <= s.server.mean + s.network.mean + 1
  {
    hide IsSummary, StatsOf, Sort, Series, PartsCover, Sum;
    var t, v, w := Series(results, TotalOf()), Series(results, ServerOf()), Series(results, NetworkOf());
    SummaryMeans(results, elapsed, connModel, s);
    CountedSeries(results, elapsed, connModel, s);
    TotalsAgainstParts(results);
    NetworkSumNonNegative(results);
    MeanOfSeries(t);
    MeanOfSeries(v);
    MeanOfSeries(w);
    QuotOfSum(Sum(t), Sum(v), Sum(w), |t|);
  }

  lemma CountedSeries(results: seq<Result>, elapsed: int, connModel: string, s: Summary)
    requires IsSummary(results, elapsed, connModel, s)
    ensures var t, v, w := Series(results, TotalOf()), Series(results, ServerOf()), Series(results, NetworkOf());
            s.total.count == |t| == |v| == |w|
  {
    hide IsBackends, IsStatusCodes, StatsOf, Sort, Filter;
    StatsCount(Series(results, TotalOf()));
  }

  lemma NetworkSumNonNegative(results: seq<Result>)
    ensures Sum(Series(results, NetworkOf())) >= 0
  {
    hide Wrap, Filter, SumBy;
    SumNonNegativeSeries(Series(results, NetworkOf()));
  }

  // For a non-negative sum the reported mean never overstates, even when the
  // int64 accumulator wraps.
  lemma MeanTimesCount(s: seq<int>)
    requires Sum(s) >= 0
    ensures var st := StatsOf(Sort(s)); st.mean * st.count <= Sum(s)
  {
    SumPermutation(s, Sort(s), Identity());
  }
}
