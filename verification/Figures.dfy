// What the figures of a summary mean, by counting results: no series, no
// sorting and no grouping.
module Figures {
  import opened Int64
  import opened Folds
  import opened Sorting
  import opened Latency
  import opened Records
  import opened Backends
  import opened Aggregator
  import opened Skew
  import opened StatusCodes
  import opened Text

  // ----- samples, by selection and value

  function Count(results: seq<Result>, p: Result -> bool): int {
    SumBy(results, One(p))
  }

  function UpTo(p: Result -> bool, f: Result -> int, v: int): Result -> bool {
    (r: Result) => p(r) && f(r) <= v
  }

  function Masked(p: Result -> bool, f: Result -> int): Result -> int {
    (r: Result) => if p(r) then f(r) else 0
  }

  // Some selected result has the value v.
  ghost predicate Attained(results: seq<Result>, p: Result -> bool, f: Result -> int, v: int) {
    exists r :: r in results && p(r) && f(r) == v
  }

  // v is the least value that at least q percent of the selected do not exceed.
  ghost predicate Ranks(results: seq<Result>, p: Result -> bool, f: Result -> int, q: int, v: int) {
    && Attained(results, p, f, v)
    && 100 * Count(results, UpTo(p, f, v)) >= q * Count(results, p)
    && forall u :: u < v ==> 100 * Count(results, UpTo(p, f, u)) < q * Count(results, p)
  }

  ghost predicate Figure(results: seq<Result>, p: Result -> bool, f: Result -> int, st: LatencyStats) {
    && st.count == Count(results, p)
    && (st.count == 0 ==> st == LatencyStats(0, 0, 0, 0, 0, 0, 0, 0))
    && (st.count > 0 ==>
          && Attained(results, p, f, st.min) && Attained(results, p, f, st.max)
          && (forall r :: r in results && p(r) ==> st.min <= f(r) <= st.max)
          && Ranks(results, p, f, 50, st.p50) && Ranks(results, p, f, 90, st.p90) && Ranks(results, p, f, 99, st.p99)
          && (Fits(SumBy(results, Masked(p, f))) ==> st.mean == Quot(SumBy(results, Masked(p, f)), st.count)))
  }

  // ----- the selected values as a series

  function Selected(results: seq<Result>, p: Result -> bool, f: Result -> int): seq<int> {
    Apply(Filter(results, p), f)
  }

  lemma SelectedIn(results: seq<Result>, p: Result -> bool, f: Result -> int, v: int)
    ensures v in Selected(results, p, f) <==> Attained(results, p, f, v)
  {
    var ok, vs := Filter(results, p), Selected(results, p, f);
    if v in vs {
      var i :| 0 <= i < |vs| && vs[i] == v;
      assert ok[i] in ok;
    }
    if r :| r in results && p(r) && f(r) == v {
      var i :| 0 <= i < |ok| && ok[i] == r;
      assert vs[i] == v;
    }
  }

  lemma SelectedSum(results: seq<Result>, p: Result -> bool, f: Result -> int, g: int -> int, h: Result -> int)
    requires forall r :: h(r) == if p(r) then g(f(r)) else 0
    ensures SumBy(Selected(results, p, f), g) == SumBy(results, h)
  {
    var gf := (r: Result) => g(f(r));
    SumApply(Filter(results, p), f, g, gf);
    SumFilter(results, p, gf, h);
  }

  lemma SelectedCounts(results: seq<Result>, p: Result -> bool, f: Result -> int, v: int)
    ensures |Selected(results, p, f)| == Count(results, p)
    ensures CountAtMost(Selected(results, p, f), v) == Count(results, UpTo(p, f, v))
  {
    FilterLength(results, p);
    SelectedSum(results, p, f, One(AtMost(v)), One(UpTo(p, f, v)));
  }

  lemma SelectedRanks(results: seq<Result>, p: Result -> bool, f: Result -> int, q: int, v: int)
    requires IsPercentile(Selected(results, p, f), q, v)
    ensures Ranks(results, p, f, q, v)
  {
    hide Selected, Attained, Count, CountAtMost;
    SelectedIn(results, p, f, v);
    forall u ensures CountAtMost(Selected(results, p, f), u) == Count(results, UpTo(p, f, u)) {
      SelectedCounts(results, p, f, u);
    }
    SelectedCounts(results, p, f, v);
  }

  lemma FigureOfSelected(results: seq<Result>, p: Result -> bool, f: Result -> int, st: LatencyStats)
    requires st == StatsOf(Sort(Selected(results, p, f)))
    ensures Figure(results, p, f, st)
  {
    hide StatsOf, Sort, Selected, Attained, Count, IsPercentile, Ranks, SumBy;
    var vs := Selected(results, p, f);
    ReportedFigures(vs);
    SelectedCounts(results, p, f, 0);
    if vs != [] {
      SelectedIn(results, p, f, st.min);
      SelectedIn(results, p, f, st.max);
      forall r | r in results && p(r) ensures st.min <= f(r) <= st.max {
        SelectedIn(results, p, f, f(r));
        assert Attained(results, p, f, f(r)) by { AttainedBy(results, p, f, r); }
      }
      SelectedRanks(results, p, f, 50, st.p50);
      SelectedRanks(results, p, f, 90, st.p90);
      SelectedRanks(results, p, f, 99, st.p99);
      SelectedSum(results, p, f, Identity(), Masked(p, f));
      if Fits(Sum(vs)) { MeanOfSeries(vs); }
      assert Sum(vs) == SumBy(vs, Identity());
    }
  }

  lemma AttainedBy(results: seq<Result>, p: Result -> bool, f: Result -> int, r: Result)
    requires r in results && p(r)
    ensures Attained(results, p, f, f(r))
  {
  }

  // ----- the four latency figures

  datatype Measure = OfTotal | OfServer | OfNetwork | OfUpstream

  // Which results a measure is taken of: the successful ones, and for the
  // upstream time those that carry it.
  function Measured(m: Measure): Result -> bool {
    (r: Result) => r.err.None? && (m.OfUpstream? ==> r.hasUpstream)
  }

  // Its value. The network time of int64 durations is what is left of the total,
  // zero when nothing is or when the difference wraps below zero.
  function Value(m: Measure): Result -> int {
    (r: Result) =>
      match m
      case OfTotal => r.total
      case OfServer => r.serverNs
      case OfUpstream => r.upstreamNs
      case OfNetwork =>
        var left := r.total - r.serverNs;
        if left < MIN then left + SPAN else if 0 <= left <= MAX then left else 0
  }

  lemma NetworkValue(r: Result)
    requires Fits(r.total) && Fits(r.serverNs)
    ensures Network(r) == Value(OfNetwork)(r)
  {
    var d := r.total - r.serverNs;
    if d > MAX { assert Wrap(d) == d - SPAN; }
    if d < MIN { assert Wrap(d) == d + SPAN; }
  }

  lemma {:induction false} SameSelected(results: seq<Result>, p: Result -> bool, f: Result -> int,
                                        q: Result -> bool, g: Result -> int)
    requires forall r :: r in results ==> p(r) == q(r) && (p(r) ==> f(r) == g(r))
    ensures Selected(results, p, f) == Selected(results, q, g)
  {
    if results != [] {
      var front, r := results[..|results| - 1], results[|results| - 1];
      assert results == front + [r];
      SameSelected(front, p, f, q, g);
      FilterAppend(front, r, p);
      FilterAppend(front, r, q);
      if p(r) {
        ApplyAppend(Filter(front, p), r, f);
        ApplyAppend(Filter(front, q), r, g);
      }
    }
  }

  lemma {:induction false} FilterTwice(results: seq<Result>, p: Result -> bool, q: Result -> bool, both: Result -> bool)
    requires forall r :: r in results ==> both(r) == (p(r) && q(r))
    ensures Filter(Filter(results, p), q) == Filter(results, both)
  {
    if results != [] {
      var front, r := results[..|results| - 1], results[|results| - 1];
      assert results == front + [r];
      FilterTwice(front, p, q, both);
      FilterAppend(front, r, p);
      FilterAppend(front, r, both);
      if p(r) { FilterAppend(Filter(front, p), r, q); }
    }
  }

  lemma SeriesSelected(results: seq<Result>)
    requires forall r :: r in results && r.err.None? ==> Fits(r.total) && Fits(r.serverNs)
    ensures Series(results, TotalOf()) == Selected(results, Measured(OfTotal), Value(OfTotal))
    ensures Series(results, ServerOf()) == Selected(results, Measured(OfServer), Value(OfServer))
    ensures Series(results, NetworkOf()) == Selected(results, Measured(OfNetwork), Value(OfNetwork))
    ensures UpstreamSeries(results) == Selected(results, Measured(OfUpstream), Value(OfUpstream))
  {
    hide Network, Filter, Apply;
    forall r | r in results && r.err.None? ensures Network(r) == Value(OfNetwork)(r) { NetworkValue(r); }
    SameSelected(results, Succeeded(), TotalOf(), Measured(OfTotal), Value(OfTotal));
    SameSelected(results, Succeeded(), ServerOf(), Measured(OfServer), Value(OfServer));
    SameSelected(results, Succeeded(), NetworkOf(), Measured(OfNetwork), Value(OfNetwork));
    FilterTwice(results, Succeeded(), HasUpstream(), Measured(OfUpstream));
    SameSelected(results, Measured(OfUpstream), UpstreamOf(), Measured(OfUpstream), Value(OfUpstream));
  }

  function HasFailed(): Result -> bool {
    (r: Result) => r.err.Some?
  }

  // Every figure of a summary of int64 durations is what its name says.
  lemma SummaryFigures(results: seq<Result>, elapsed: int, connModel: string, s: Summary)
    requires IsSummary(results, elapsed, connModel, s)
    requires forall r :: r in results && r.err.None? ==> Fits(r.total) && Fits(r.serverNs)
    ensures s.count == |results| && s.errorCount == Count(results, HasFailed())
    ensures s.elapsed == elapsed && s.connModel == connModel
    ensures if elapsed > 0 then s.throughput * elapsed as real == 1000000000.0 * |results| as real
            else s.throughput == 0.0
    ensures Figure(results, Measured(OfTotal), Value(OfTotal), s.total)
    ensures Figure(results, Measured(OfServer), Value(OfServer), s.server)
    ensures Figure(results, Measured(OfNetwork), Value(OfNetwork), s.network)
    ensures Figure(results, Measured(OfUpstream), Value(OfUpstream), s.upstream)
  {
    hide IsSummary, Figure, StatsOf, Sort, Series, UpstreamSeries, Selected, Measured, Value, Filter, Throughput, Count;
    SummaryParts(results, elapsed, connModel, s);
    SeriesFigures(results, elapsed, connModel, s);
    FailuresCounted(results);
    ThroughputLaw(|results|, elapsed);
  }

  lemma SeriesFigures(results: seq<Result>, elapsed: int, connModel: string, s: Summary)
    requires IsSummary(results, elapsed, connModel, s)
    requires forall r :: r in results && r.err.None? ==> Fits(r.total) && Fits(r.serverNs)
    ensures Figure(results, Measured(OfTotal), Value(OfTotal), s.total)
    ensures Figure(results, Measured(OfServer), Value(OfServer), s.server)
    ensures Figure(results, Measured(OfNetwork), Value(OfNetwork), s.network)
    ensures Figure(results, Measured(OfUpstream), Value(OfUpstream), s.upstream)
  {
    hide IsSummary, Figure, StatsOf, Sort, Series, UpstreamSeries, Selected, Measured, Value, Filter, Throughput;
    SummaryParts(results, elapsed, connModel, s);
    SeriesSelected(results);
    FigureOfSelected(results, Measured(OfTotal), Value(OfTotal), s.total);
    FigureOfSelected(results, Measured(OfServer), Value(OfServer), s.server);
    FigureOfSelected(results, Measured(OfNetwork), Value(OfNetwork), s.network);
    FigureOfSelected(results, Measured(OfUpstream), Value(OfUpstream), s.upstream);
  }

  lemma SummaryParts(results: seq<Result>, elapsed: int, connModel: string, s: Summary)
    requires IsSummary(results, elapsed, connModel, s)
    ensures s.count == |results| && s.errorCount == |Filter(results, Failed())|
    ensures s.elapsed == elapsed && s.connModel == connModel && s.throughput == Throughput(|results|, elapsed)
    ensures s.total == StatsOf(Sort(Series(results, TotalOf())))
    ensures s.server == StatsOf(Sort(Series(results, ServerOf())))
    ensures s.network == StatsOf(Sort(Series(results, NetworkOf())))
    ensures s.upstream == StatsOf(Sort(UpstreamSeries(results)))
  {
    hide IsBackends, StatsOf, Sort, Series, UpstreamSeries, Filter, Throughput;
  }

  lemma FailuresCounted(results: seq<Result>)
    ensures |Filter(results, Failed())| == Count(results, HasFailed())
  {
    FilterLength(results, Failed());
    SumMono(results, One(Failed()), One(HasFailed()));
    SumMono(results, One(HasFailed()), One(Failed()));
  }

  // Calls per second: times the elapsed nanoseconds, 10^9 times the count.
  lemma ThroughputLaw(count: nat, elapsed: int)
    ensures if elapsed > 0 then Throughput(count, elapsed) * elapsed as real == 1000000000.0 * count as real
            else Throughput(count, elapsed) == 0.0
  {
    if elapsed > 0 {
      var seconds := elapsed as real / 1000000000.0;
      assert seconds * 1000000000.0 == elapsed as real;
      assert Throughput(count, elapsed) * seconds == count as real;
    }
  }

  // ----- elapsed

  // The elapsed time is from the earliest start to the latest end, each of some
  // result, and saturates at the ends of int64.
  lemma ElapsedFigure(results: seq<Result>) returns (first: Result, last: Result)
    requires results != []
    ensures first in results && forall r :: r in results ==> first.start <= r.start
    ensures last in results && forall r :: r in results ==> r.end <= last.end
    ensures var d := last.end - first.start;
            && (Fits(d) ==> ElapsedOf(results) == d)
            && (d > MAX ==> ElapsedOf(results) == MAX) && (d < MIN ==> ElapsedOf(results) == MIN)
    ensures ElapsedOf([]) == 0
  {
    var starts, ends := Apply(results, StartOf()), Apply(results, EndOf());
    var i :| 0 <= i < |starts| && starts[i] == MinOf(starts);
    var j :| 0 <= j < |ends| && ends[j] == MaxOf(ends);
    first, last := results[i], results[j];
    forall r | r in results ensures first.start <= r.start && r.end <= last.end {
      WithinElapsed(results, r);
    }
  }

  // ----- a backend's line

  function OfBackend(key: string): Result -> bool {
    (r: Result) => BackendKey(r).0 == key
  }

  function FailureOf(key: string): Result -> bool {
    (r: Result) => BackendKey(r).0 == key && r.err.Some?
  }

  function SuccessOf(key: string): Result -> bool {
    (r: Result) => BackendKey(r).0 == key && r.err.None?
  }

  lemma GroupFilter(results: seq<Result>, key: string, q: Result -> bool, both: Result -> bool)
    requires forall r :: both(r) == (BackendKey(r).0 == key && q(r))
    ensures Filter(Group(results, KeyOf(), key), q) == Filter(results, both)
  {
    FilterTwice(results, KeyIs(KeyOf(), key), q, both);
  }

  lemma GroupCounts(results: seq<Result>, key: string)
    ensures |Group(results, KeyOf(), key)| == Count(results, OfBackend(key))
    ensures |Filter(Group(results, KeyOf(), key), Failed())| == Count(results, FailureOf(key))
    ensures Durations(Group(results, KeyOf(), key)) == Selected(results, SuccessOf(key), Value(OfTotal))
  {
    FilterLength(results, KeyIs(KeyOf(), key));
    SumMono(results, One(KeyIs(KeyOf(), key)), One(OfBackend(key)));
    SumMono(results, One(OfBackend(key)), One(KeyIs(KeyOf(), key)));
    GroupFilter(results, key, Failed(), FailureOf(key));
    FilterLength(results, FailureOf(key));
    GroupFilter(results, key, Succeeded(), SuccessOf(key));
    SameSelected(results, SuccessOf(key), TotalOf(), SuccessOf(key), Value(OfTotal));
  }

  // Position i holds the first result of the backend.
  ghost predicate FirstOf(results: seq<Result>, key: string, i: int) {
    && 0 <= i < |results| && BackendKey(results[i]).0 == key
    && forall j :: 0 <= j < i ==> BackendKey(results[j]).0 != key
  }

  lemma {:induction false} FirstInGroup(results: seq<Result>, key: string) returns (i: nat)
    requires Group(results, KeyOf(), key) != []
    ensures FirstOf(results, key, i) && results[i] == Group(results, KeyOf(), key)[0]
  {
    var front, r := results[..|results| - 1], results[|results| - 1];
    assert results == front + [r];
    GroupAppend(front, r, KeyOf(), key);
    if Group(front, KeyOf(), key) != [] {
      i := FirstInGroup(front, key);
    } else {
      i := |front|;
      GroupNonempty(front, key);
      forall j | 0 <= j < i ensures BackendKey(results[j]).0 != key {
        assert front[j] in front && BackendKey(front[j]).0 in KeysOf(front);
      }
    }
  }

  // Every figure of a backend's line is what its name says: counts of results
  // and failures, percentiles of the successes or zero without any, the share of
  // all results, and the source of the first result.
  lemma BackendFigures(results: seq<Result>, totalCount: nat, out: seq<BackendStats>, line: BackendStats)
    requires IsBackends(results, totalCount, out) && line in out
    ensures line.count == Count(results, OfBackend(line.key)) && line.errorCount == Count(results, FailureOf(line.key))
    ensures if line.count == line.errorCount then line.p50 == line.p99 == 0
            else Ranks(results, SuccessOf(line.key), Value(OfTotal), 50, line.p50)
                 && Ranks(results, SuccessOf(line.key), Value(OfTotal), 99, line.p99)
    ensures if totalCount > 0 then line.percentOfTotal * totalCount as real == 100.0 * line.count as real
            else line.percentOfTotal == 0.0
    ensures exists i :: FirstOf(results, line.key, i) && line.source == BackendKey(results[i]).1
  {
    hide Count, Selected, Ranks, Sort, Percentile, Group, Filter, Durations, FirstOf, BackendKey, KeysOf, Share;
    var key := line.key;
    var group := Group(results, KeyOf(), key);
    GroupCounts(results, key);
    SuccessesAndFailures(group);
    GroupNonempty(results, key);
    var i := FirstInGroup(results, key);
    LinePercentiles(results, key, 50);
    LinePercentiles(results, key, 99);
    DurationsLength(group);
    ShareLaw(line.count, totalCount);
  }

  lemma DurationsLength(group: seq<Result>)
    ensures |Durations(group)| == |Filter(group, Succeeded())|
  {
  }

  lemma LinePercentiles(results: seq<Result>, key: string, q: int)
    requires 0 < q < 100
    ensures var ds := Durations(Group(results, KeyOf(), key));
            if ds == [] then Percentile(Sort(ds), q) == 0
            else Ranks(results, SuccessOf(key), Value(OfTotal), q, Percentile(Sort(ds), q))
  {
    hide Ranks, Durations, Group, Selected, Count;
    var ds := Durations(Group(results, KeyOf(), key));
    GroupCounts(results, key);
    if ds != [] {
      NearestRank(ds, q, Percentile(Sort(ds), q));
      SelectedRanks(results, SuccessOf(key), Value(OfTotal), q, Percentile(Sort(ds), q));
    }
  }

  lemma ShareLaw(count: nat, totalCount: nat)
    ensures if totalCount > 0 then Share(count, totalCount) * totalCount as real == 100.0 * count as real
            else Share(count, totalCount) == 0.0
  {
    if totalCount > 0 {
      var part := count as real / totalCount as real;
      assert part * totalCount as real == count as real;
    }
  }

  // ----- a status code's line

  // What is shown of a message: all of it up to eighty characters, else the
  // first eighty and three dots.
  predicate Shows(shown: string, message: string) {
    if |message| <= 80 then shown == message
    else |shown| == 83 && shown[..80] == message[..80] && shown[80..] == "..."
  }

  lemma TruncateShows(message: string, shown: string)
    ensures Shows(shown, message) <==> shown == Truncate(message)
  {
    if |message| > 80 {
      assert shown == Truncate(message) ==> shown[..80] == message[..80];
      if |shown| == 83 { assert shown == shown[..80] + shown[80..]; }
    }
  }

  function FailedWith(code: nat): Result -> bool {
    (r: Result) => r.err.Some? && r.err.value.code == code
  }

  function FailedSaying(code: nat, shown: string): Result -> bool {
    (r: Result) => r.err.Some? && r.err.value.code == code && Shows(shown, r.err.value.message)
  }

  lemma CodeCounts(results: seq<Result>, code: nat, m: string)
    ensures |CodeGroup(results, code)| == Count(results, FailedWith(code))
    ensures |Group(CodeGroup(results, code), MessageOf(), m)| == Count(results, FailedSaying(code, m))
  {
    var failed, coded := FailedWith(code), FailedSaying(code, m);
    FilterTwice(results, Failed(), KeyIs(CodeOf(), code), failed);
    forall r | r in results ensures coded(r) == (failed(r) && KeyIs(MessageOf(), m)(r)) {
      if r.err.Some? { TruncateShows(r.err.value.message, m); }
    }
    FilterTwice(results, failed, KeyIs(MessageOf(), m), coded);
    FilterLength(results, failed);
    FilterLength(results, coded);
  }

  // t stays in front of a message shown as m that c failures carry.
  predicate Outranks(t: MessageStat, m: string, c: int) {
    t.count > c || (t.count == c && StringLess(t.message, m))
  }

  lemma MessagesOfLine(results: seq<Result>, code: nat, top: seq<MessageStat>)
    requires IsTopMessages(Histogram(CodeGroup(results, code)), top)
    ensures |top| <= 3
    ensures forall t :: t in top ==> t.count == Count(results, FailedSaying(code, t.message)) > 0
    ensures forall i, j :: 0 <= i < j < |top| ==> Outranks(top[i], top[j].message, top[j].count)
    ensures forall m :: Count(results, FailedSaying(code, m)) > 0 ==>
              || (exists t :: t in top && t.message == m)
              || (|top| == 3 && forall t :: t in top ==> Outranks(t, m, Count(results, FailedSaying(code, m))))
  {
    hide Histogram, CodeGroup, Count, Group, Truncate;
    var group := CodeGroup(results, code);
    var h := Histogram(group);
    forall m
      ensures m in h <==> Count(results, FailedSaying(code, m)) > 0
      ensures m in h ==> h[m] == Count(results, FailedSaying(code, m))
    {
      HistogramCounts(group, m);
      CodeCounts(results, code, m);
    }
    forall i, j | 0 <= i < j < |top| ensures Outranks(top[i], top[j].message, top[j].count) {
      assert MessageLess(top[i], top[j]);
    }
    forall m | Count(results, FailedSaying(code, m)) > 0
      ensures (exists t :: t in top && t.message == m)
              || (|top| == 3 && forall t :: t in top ==> Outranks(t, m, Count(results, FailedSaying(code, m))))
    {
      if MessageStat(m, h[m]) !in top {
        forall t | t in top ensures Outranks(t, m, h[m]) { assert MessageLess(t, MessageStat(m, h[m])); }
        if |top| != 3 { AllKept(h, top, m); }
      }
    }
  }

  // A list as long as the histogram leaves nothing out.
  lemma AllKept(h: map<string, nat>, top: seq<MessageStat>, m: string)
    requires IsTopMessages(h, top) && |top| == |h| && m in h
    ensures MessageStat(m, h[m]) in top
  {
    hide MessageLess;
    KeptMessages(h, top);
    var kept := Apply(top, StatMessage());
    assert |h.Keys| == |h|;
    SubsetSameSize((set k | k in kept), h.Keys);
    assert m in kept;
    var i :| 0 <= i < |kept| && kept[i] == m;
    assert top[i] in top;
  }

  // Every figure of a status code's line is what its name says: the number of
  // failures with the code, and at most three of their messages, each with the
  // number of failures that show it; the order is by count and then by message,
  // and a message is left out only behind three others.
  lemma CodeFigures(results: seq<Result>, out: seq<CodeStats>, line: CodeStats)
    requires IsStatusCodes(results, out) && line in out
    ensures line.count == Count(results, FailedWith(line.code)) > 0
    ensures |line.top| <= 3
    ensures forall t :: t in line.top ==> t.count == Count(results, FailedSaying(line.code, t.message)) > 0
    ensures forall i, j :: 0 <= i < j < |line.top| ==> Outranks(line.top[i], line.top[j].message, line.top[j].count)
    ensures forall m :: Count(results, FailedSaying(line.code, m)) > 0 ==>
              || (exists t :: t in line.top && t.message == m)
              || (|line.top| == 3
                  && forall t :: t in line.top ==> Outranks(t, m, Count(results, FailedSaying(line.code, m))))
  {
    hide Histogram, CodeGroup, Count, CodesOf, IsTopMessages;
    CodeCounts(results, line.code, "");
    CodeGroupNonempty(results, line.code);
    MessagesOfLine(results, line.code, line.top);
  }

  // ----- the breakdowns of a summary

  // The count ratio is that of the ends of the list, or zero.
  ghost predicate CountTells(out: seq<BackendStats>, skew: BackendSkew) {
    && (|out| < 2 ==> skew.countRatio == 0.0)
    && (|out| >= 2 ==>
          out[|out| - 1].count > 0 && skew.countRatio * out[|out| - 1].count as real == out[0].count as real)
  }

  // The latency ratio is that of the extremes that qualify, or zero.
  ghost predicate P99Tells(out: seq<BackendStats>, skew: BackendSkew) {
    if TwoQualify(out) then
      exists a, b :: Extremes(out, a, b) && skew.p99Ratio * a.p99 as real == b.p99 as real
    else skew.p99Ratio == 0.0
  }

  lemma CountSkewTells(results: seq<Result>, totalCount: nat, out: seq<BackendStats>)
    requires IsBackends(results, totalCount, out) && |out| >= 2
    ensures out[|out| - 1].count > 0
    ensures SkewOf(out).countRatio * out[|out| - 1].count as real == out[0].count as real
  {
    hide IsBackends, SkewOf, Spread, CountsOf, MinOf, MaxOf;
    CountRatioOf(out);
    EndsAreExtremes(results, totalCount, out);
    CountsPositive(results, totalCount, out);
    SpreadIsExtremes(CountsOf(out));
  }

  lemma CountsTold(results: seq<Result>, totalCount: nat, out: seq<BackendStats>)
    requires IsBackends(results, totalCount, out)
    ensures CountTells(out, SkewOf(out))
  {
    hide IsBackends, SkewOf;
    if |out| < 2 { FewBackends(out); } else { CountSkewTells(results, totalCount, out); }
  }

  lemma P99sTold(results: seq<Result>, totalCount: nat, out: seq<BackendStats>)
    requires IsBackends(results, totalCount, out)
    requires forall r :: r in results && r.err.None? ==> r.total >= 0
    ensures P99Tells(out, SkewOf(out))
  {
    hide IsBackends, SkewOf, Extremes, TwoQualify, AllEqual;
    P99RatioIsExtremes(results, totalCount, out);
  }

  // The breakdowns of a summary are about its results and its own backends: the
  // shares are of all results, and the ratios are of the extremes of the list.
  lemma SummaryBreakdowns(results: seq<Result>, elapsed: int, connModel: string, s: Summary)
    requires IsSummary(results, elapsed, connModel, s)
    ensures IsBackends(results, |results|, s.backends) && IsStatusCodes(results, s.errors)
    ensures forall b :: b in s.backends ==> b.percentOfTotal * s.count as real == 100.0 * b.count as real
    ensures CountTells(s.backends, s.skew)
    ensures (forall r :: r in results && r.err.None? ==> r.total >= 0) ==> P99Tells(s.backends, s.skew)
  {
    hide IsBackends, IsStatusCodes, CountTells, P99Tells, SkewOf, IsSummary;
    SummaryLists(results, elapsed, connModel, s);
    forall b | b in s.backends ensures b.percentOfTotal * s.count as real == 100.0 * b.count as real {
      LineShare(results, s.backends, b);
    }
    CountsTold(results, |results|, s.backends);
    if forall r :: r in results && r.err.None? ==> r.total >= 0 {
      P99sTold(results, |results|, s.backends);
    }
  }

  lemma SummaryLists(results: seq<Result>, elapsed: int, connModel: string, s: Summary)
    requires IsSummary(results, elapsed, connModel, s)
    ensures IsBackends(results, |results|, s.backends) && IsStatusCodes(results, s.errors)
    ensures s.count == |results| && s.skew == SkewOf(s.backends)
  {
    hide IsBackends, IsStatusCodes, StatsOf, Sort, Series, UpstreamSeries, Filter, Throughput, SkewOf;
  }

  lemma LineShare(results: seq<Result>, out: seq<BackendStats>, b: BackendStats)
    requires IsBackends(results, |results|, out) && b in out
    ensures b.percentOfTotal * |results| as real == 100.0 * b.count as real
  {
    hide IsBackends, Ranks, FirstOf;
    BackendFigures(results, |results|, out, b);
    if results == [] {
      assert Count(results, OfBackend(b.key)) == 0;
    }
  }
}
