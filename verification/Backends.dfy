// computeBackends: grouping through mutable buckets, refined by filtering.
module Backends {
  import opened Folds
  import opened Sorting
  import opened Text
  import opened Latency
  import opened Records

  datatype BackendStats = BackendStats(
    key: string, source: Source, count: nat, errorCount: nat, percentOfTotal: real, p50: int, p99: int)

  datatype Bucket = Bucket(source: Source, count: nat, errorCount: nat, durations: seq<int>)

  // ----- what a backend's line says, by filtering

  function GroupSource(group: seq<Result>): Source {
    if group == [] then Unknown else BackendKey(group[0]).1
  }

  function BucketOf(group: seq<Result>): Bucket {
    Bucket(GroupSource(group), |group|, |Filter(group, Failed())|, Durations(group))
  }

  function Share(count: nat, totalCount: nat): real {
    if totalCount > 0 then count as real / totalCount as real * 100.0 else 0.0
  }

  function StatFrom(key: string, b: Bucket, totalCount: nat): (line: BackendStats)
    ensures line.key == key && line.count == b.count && line.errorCount == b.errorCount
  {
    var sorted := Sort(b.durations);
    BackendStats(
      key, b.source, b.count, b.errorCount, Share(b.count, totalCount),
      Percentile(sorted, 50), Percentile(sorted, 99))
  }

  function StatOf(results: seq<Result>, totalCount: nat, key: string): BackendStats {
    StatFrom(key, BucketOf(Group(results, KeyOf(), key)), totalCount)
  }

  function KeysOf(results: seq<Result>): set<string> {
    set r | r in results :: BackendKey(r).0
  }

  // Count descending, then key ascending.
  predicate BackendLess(a: BackendStats, b: BackendStats) {
    if a.count != b.count then a.count > b.count else StringLess(a.key, b.key)
  }

  // One line for each distinct key, each about exactly that key's results, in
  // strict order.
  ghost predicate IsBackends(results: seq<Result>, totalCount: nat, out: seq<BackendStats>) {
    && StrictlyOrdered(out, BackendLess)
    && (forall b | b in out :: b.key in KeysOf(results) && b == StatOf(results, totalCount, b.key))
    && (forall k | k in KeysOf(results) :: StatOf(results, totalCount, k) in out)
  }

  lemma BackendComparator()
    ensures Comparator(BackendLess)
  {
    forall a, b | BackendLess(a, b) ensures !BackendLess(b, a) {
      StringOrderTotal(a.key, b.key);
    }
    forall a, b, c | !BackendLess(b, a) && !BackendLess(c, b) ensures !BackendLess(c, a) {
      StringOrderTotal(a.key, b.key);
      StringOrderTotal(b.key, c.key);
      StringOrderTotal(a.key, c.key);
      StringOrderTransitive(a.key, b.key, c.key);
    }
  }

  // ----- the program: buckets in a map, visited in any order, then sorted

  ghost predicate BucketsMatch(buckets: map<string, Bucket>, results: seq<Result>) {
    && buckets.Keys == KeysOf(results)
    && forall k | k in buckets :: buckets[k] == BucketOf(Group(results, KeyOf(), k))
  }

  lemma BucketStep(results: seq<Result>, r: Result)
    ensures var g := Group(results, KeyOf(), BackendKey(r).0);
            var b := BucketOf(g);
            && Group(results + [r], KeyOf(), BackendKey(r).0) == g + [r]
            && BucketOf(g + [r]) == Bucket(
                 if g == [] then BackendKey(r).1 else b.source,
                 b.count + 1,
                 b.errorCount + (if r.err.Some? then 1 else 0),
                 b.durations + (if r.err.None? then [r.total] else []))
  {
    var g := Group(results, KeyOf(), BackendKey(r).0);
    GroupAppend(results, r, KeyOf(), BackendKey(r).0);
    FilterAppend(g, r, Failed());
    DurationsAppend(g, r);
  }

  lemma GroupNonempty(results: seq<Result>, k: string)
    ensures Group(results, KeyOf(), k) != [] <==> k in KeysOf(results)
  {
    if k in KeysOf(results) {
      var r :| r in results && BackendKey(r).0 == k;
      assert r in Group(results, KeyOf(), k);
    }
    var g := Group(results, KeyOf(), k);
    if g != [] { assert g[0] in g; }
  }

  lemma KeysAppend(results: seq<Result>, r: Result)
    ensures KeysOf(results + [r]) == KeysOf(results) + {BackendKey(r).0}
  {
  }

  lemma BucketsStep(buckets: map<string, Bucket>, results: seq<Result>, r: Result, b: Bucket)
    requires BucketsMatch(buckets, results)
    requires b == BucketOf(Group(results + [r], KeyOf(), BackendKey(r).0))
    ensures BucketsMatch(buckets[BackendKey(r).0 := b], results + [r])
  {
    hide BucketOf, KeysOf, BackendKey;
    var key := BackendKey(r).0;
    KeysAppend(results, r);
    forall k | k in buckets && k != key
      ensures Group(results + [r], KeyOf(), k) == Group(results, KeyOf(), k)
    {
      GroupAppend(results, r, KeyOf(), k);
    }
  }

  // What the map holds for r's key once r is added: the program's update.
  lemma BucketAdded(buckets: map<string, Bucket>, results: seq<Result>, r: Result)
    requires BucketsMatch(buckets, results)
    ensures var (key, source) := BackendKey(r);
            var b := if key in buckets then buckets[key] else Bucket(source, 0, 0, []);
            BucketOf(Group(results + [r], KeyOf(), key)) ==
            Bucket(b.source, b.count + 1,
                   if r.err.Some? then b.errorCount + 1 else b.errorCount,
                   if r.err.Some? then b.durations else b.durations + [r.total])
  {
    hide KeysOf;
    BucketStep(results, r);
    GroupNonempty(results, BackendKey(r).0);
  }

  method FillBuckets(results: seq<Result>) returns (buckets: map<string, Bucket>)
    ensures BucketsMatch(buckets, results)
  {
    buckets := map[];
    for i := 0 to |results|
      invariant BucketsMatch(buckets, results[..i])
    {
      var r := results[i];
      assert results[..i + 1] == results[..i] + [r];
      buckets := AddToBucket(buckets, results[..i], r);
    }
    assert results[..|results|] == results;
  }

  // The loop body: find or create the bucket, then count the result in it.
  method AddToBucket(buckets: map<string, Bucket>, ghost before: seq<Result>, r: Result)
    returns (after: map<string, Bucket>)
    requires BucketsMatch(buckets, before)
    ensures BucketsMatch(after, before + [r])
  {
    hide BucketsMatch, BucketOf, Group;
    var (key, source) := BackendKey(r);
    var b := if key in buckets then buckets[key] else Bucket(source, 0, 0, []);
    b := b.(count := b.count + 1);
    if r.err.Some? {
      b := b.(errorCount := b.errorCount + 1);
    } else {
      b := b.(durations := b.durations + [r.total]);
    }
    BucketAdded(buckets, before, r);
    BucketsStep(buckets, before, r, b);
    after := buckets[key := b];
  }

  // The lines emitted for the visited keys, in visiting order.
  ghost predicate Emitted(buckets: map<string, Bucket>, visited: set<string>, totalCount: nat, out: seq<BackendStats>)
    requires visited <= buckets.Keys
  {
    && (forall i, j :: 0 <= i < j < |out| ==> out[i].key != out[j].key)
    && (forall b | b in out :: b.key in visited && b == StatFrom(b.key, buckets[b.key], totalCount))
    && (forall k | k in visited :: StatFrom(k, buckets[k], totalCount) in out)
  }

  method EmitLine(key: string, b: Bucket, totalCount: nat) returns (line: BackendStats)
    ensures line == StatFrom(key, b, totalCount)
  {
    var sorted := SortDurations(b.durations);
    line := BackendStats(
      key, b.source, b.count, b.errorCount, Share(b.count, totalCount),
      Percentile(sorted, 50), Percentile(sorted, 99));
  }

  lemma EmittedStep(buckets: map<string, Bucket>, visited: set<string>, totalCount: nat,
                    out: seq<BackendStats>, key: string)
    requires visited <= buckets.Keys && key in buckets.Keys - visited
    requires Emitted(buckets, visited, totalCount, out)
    ensures Emitted(buckets, visited + {key}, totalCount, out + [StatFrom(key, buckets[key], totalCount)])
  {
    hide StatFrom;
    var line := StatFrom(key, buckets[key], totalCount);
    forall b | b in out ensures b.key != key { }
    forall i | 0 <= i < |out| ensures out[i].key != key { assert out[i] in out; }
  }

  method EmitBackends(buckets: map<string, Bucket>, totalCount: nat) returns (out: seq<BackendStats>)
    ensures Emitted(buckets, buckets.Keys, totalCount, out)
  {
    out := [];
    var pending := buckets.Keys;
    while pending != {}
      invariant pending <= buckets.Keys
      invariant Emitted(buckets, buckets.Keys - pending, totalCount, out)
    {
      hide StatFrom, Emitted;
      var key :| key in pending;
      var line := EmitLine(key, buckets[key], totalCount);
      EmittedStep(buckets, buckets.Keys - pending, totalCount, out, key);
      assert buckets.Keys - (pending - {key}) == buckets.Keys - pending + {key};
      out := out + [line];
      pending := pending - {key};
    }
    assert buckets.Keys - pending == buckets.Keys;
  }

  method ComputeBackends(results: seq<Result>, totalCount: nat) returns (out: seq<BackendStats>)
    ensures IsBackends(results, totalCount, out)
    ensures forall i, j :: 0 <= i < j < |out| ==>
              out[i].count > out[j].count || (out[i].count == out[j].count && StringLess(out[i].key, out[j].key))
  {
    if |results| == 0 {
      return [];
    }
    var buckets := FillBuckets(results);
    var lines := EmitBackends(buckets, totalCount);
    BackendComparator();
    out := SortSlice(lines, BackendLess);
    SortedLines(results, buckets, totalCount, lines, out);
    CountThenKey(out);
  }

  lemma CountThenKey(out: seq<BackendStats>)
    requires StrictlyOrdered(out, BackendLess)
    ensures forall i, j :: 0 <= i < j < |out| ==>
              out[i].count > out[j].count || (out[i].count == out[j].count && StringLess(out[i].key, out[j].key))
  {
    forall i, j | 0 <= i < j < |out|
      ensures out[i].count > out[j].count || (out[i].count == out[j].count && StringLess(out[i].key, out[j].key))
    {
      assert BackendLess(out[i], out[j]);
    }
  }

  lemma SortedLines(results: seq<Result>, buckets: map<string, Bucket>, totalCount: nat,
                    lines: seq<BackendStats>, out: seq<BackendStats>)
    requires BucketsMatch(buckets, results) && Emitted(buckets, buckets.Keys, totalCount, lines)
    requires Ordered(out, BackendLess) && Permutes(out, lines)
    ensures IsBackends(results, totalCount, out)
  {
    hide StatFrom, BucketOf, KeysOf, Group;
    forall x, y | x in lines && y in lines && x != y ensures BackendLess(x, y) || BackendLess(y, x) {
      StringOrderTotal(x.key, y.key);
    }
    OrderedIsStrict(lines, out, BackendLess);
    forall b | b in out ensures b in lines { InPermutation(out, lines, b); }
    forall k | k in KeysOf(results) ensures StatOf(results, totalCount, k) in out {
      InPermutation(out, lines, StatOf(results, totalCount, k));
    }
  }

  // The list is determined by the results: neither the order in which the map
  // is visited nor the sort algorithm shows.
  lemma BackendsUnique(results: seq<Result>, totalCount: nat, a: seq<BackendStats>, b: seq<BackendStats>)
    requires IsBackends(results, totalCount, a) && IsBackends(results, totalCount, b)
    ensures a == b
  {
    hide StatOf, KeysOf;
    BackendComparator();
    StrictlyOrderedUnique(a, b, BackendLess);
  }

  // ----- conservation

  function LineKey(): BackendStats -> string {
    (b: BackendStats) => b.key
  }

  function LineCount(): BackendStats -> int {
    (b: BackendStats) => b.count
  }

  function LineErrors(): BackendStats -> int {
    (b: BackendStats) => b.errorCount
  }

  lemma LinesPartition(results: seq<Result>, totalCount: nat, out: seq<BackendStats>) returns (keys: seq<string>)
    requires IsBackends(results, totalCount, out)
    ensures keys == Apply(out, LineKey()) && Distinct(keys)
    ensures forall r | r in results :: BackendKey(r).0 in keys
  {
    hide StatOf;
    keys := Apply(out, LineKey());
    BackendComparator();
    forall i, j | 0 <= i < j < |keys| ensures keys[i] != keys[j] {
      assert out[i] in out && out[j] in out && BackendLess(out[i], out[j]);
    }
    forall r | r in results ensures BackendKey(r).0 in keys {
      var k := BackendKey(r).0;
      assert k in KeysOf(results);
      var line := StatOf(results, totalCount, k);
      var i :| 0 <= i < |out| && out[i] == line;
      LineOf(results, totalCount, k);
      assert keys[i] == k;
    }
  }

  lemma LineOf(results: seq<Result>, totalCount: nat, k: string)
    ensures var line := StatOf(results, totalCount, k); var g := Group(results, KeyOf(), k);
            line.key == k && line.count == |g| && line.errorCount == |Filter(g, Failed())|
  {
  }

  // A line is nameless exactly when its results carry no name at all, and exactly
  // then its source is unknown.
  lemma NamelessLineIff(results: seq<Result>, totalCount: nat, out: seq<BackendStats>, line: BackendStats)
    requires IsBackends(results, totalCount, out) && line in out
    ensures line.key == "" <==> line.source == Unknown
    ensures line.key == "" <==>
            forall r | r in Group(results, KeyOf(), line.key) :: r.podName == r.podHostname == r.peerAddr == ""
  {
    var g := Group(results, KeyOf(), line.key);
    LineOf(results, totalCount, line.key);
    GroupNonempty(results, line.key);
    assert g[0] in g;
    forall r | r in g
      ensures line.key == "" <==> r.podName == r.podHostname == r.peerAddr == ""
    {
      KeyIsFirstNamePresent(r);
    }
    KeyIsFirstNamePresent(g[0]);
  }

  // Backend counts add up to the number of results, and backend errors to the
  // number of failed ones.
  lemma BackendTotals(results: seq<Result>, totalCount: nat, out: seq<BackendStats>)
    requires IsBackends(results, totalCount, out)
    ensures SumBy(out, LineCount()) == |results|
    ensures SumBy(out, LineErrors()) == |Filter(results, Failed())|
  {
    hide StatOf, BackendLess;
    var keys := LinesPartition(results, totalCount, out);
    var ones, fails := GroupSum(results, KeyOf(), Unit()), GroupSum(results, KeyOf(), One(Failed()));
    PartitionSum(results, keys, KeyOf(), Unit());
    PartitionSum(results, keys, KeyOf(), One(Failed()));
    SumOfUnits(results);
    FilterLength(results, Failed());
    forall b | b in out ensures b.count == ones(b.key) && b.errorCount == fails(b.key) {
      LineOf(results, totalCount, b.key);
      SumOfUnits(Group(results, KeyOf(), b.key));
      FilterLength(Group(results, KeyOf(), b.key), Failed());
    }
    SumApply(out, LineKey(), ones, LineCount());
    SumApply(out, LineKey(), fails, LineErrors());
  }

  // ----- the overall percentile lies between the backends'

  // How far the samples at most v exceed p percent, one result at a time.
  function Excess(p: int, v: int): Result -> int {
    (r: Result) => if r.err.Some? then 0 else (if r.total <= v then 100 else 0) - p
  }

  function ExcessTotal(results: seq<Result>, p: int, v: int): int {
    100 * CountAtMost(Durations(results), v) - p * |Durations(results)|
  }

  lemma ExcessStep(results: seq<Result>, r: Result, p: int, v: int)
    ensures ExcessTotal(results + [r], p, v) == ExcessTotal(results, p, v) + Excess(p, v)(r)
  {
    hide Durations, CountAtMost;
    var ds := Durations(results);
    DurationsAppend(results, r);
    CountAppend(ds, r.total, v);
    assert ds + [] == ds;
    assert p * (|ds| + 1) == p * |ds| + p;
  }

  lemma {:induction false} ExcessOfDurations(results: seq<Result>, p: int, v: int)
    ensures SumBy(results, Excess(p, v)) == ExcessTotal(results, p, v)
  {
    if results == [] {
    } else {
      hide ExcessTotal, Excess;
      var front, r := results[..|results| - 1], results[|results| - 1];
      assert results == front + [r];
      ExcessOfDurations(front, p, v);
      ExcessStep(front, r, p, v);
    }
  }

  function PercentileOf(results: seq<Result>, p: int): int {
    Percentile(Sort(Durations(results)), p)
  }

  lemma ExcessSign(group: seq<Result>, p: int, v: int)
    requires 0 < p < 100 && Durations(group) != []
    ensures SumBy(group, Excess(p, v)) >= 0 <==> PercentileOf(group, p) <= v
  {
    var ds, w := Durations(group), PercentileOf(group, p);
    NearestRank(ds, p, w);
    ExcessOfDurations(group, p, v);
    if w <= v {
      SumMono(ds, One(AtMost(w)), One(AtMost(v)));
    }
  }

  lemma ExcessOfFailures(group: seq<Result>, p: int, v: int)
    requires Durations(group) == []
    ensures SumBy(group, Excess(p, v)) == 0
  {
    ExcessOfDurations(group, p, v);
  }

  // For any split of the results by key, some group with a success has a
  // percentile no greater than the overall one, and some group one no less.
  lemma PercentileBracketed(results: seq<Result>, keys: seq<string>, p: int)
    returns (low: string, high: string)
    requires 0 < p < 100 && Durations(results) != []
    requires Distinct(keys) && forall r | r in results :: BackendKey(r).0 in keys
    ensures low in keys && Durations(Group(results, KeyOf(), low)) != []
    ensures high in keys && Durations(Group(results, KeyOf(), high)) != []
    ensures PercentileOf(Group(results, KeyOf(), low), p) <= PercentileOf(results, p)
    ensures PercentileOf(results, p) <= PercentileOf(Group(results, KeyOf(), high), p)
  {
    hide Durations, PercentileOf, Excess, KeyOf;
    var v := PercentileOf(results, p);
    ExcessSign(results, p, v);
    ExcessSign(results, p, v - 1);
    low := SomeGroupAtLeastZero(results, keys, p, v);
    high := SomeGroupNegative(results, keys, p, v - 1);
  }

  lemma SomeGroupNegative(results: seq<Result>, keys: seq<string>, p: int, v: int) returns (k: string)
    requires 0 < p < 100 && SumBy(results, Excess(p, v)) < 0
    requires Distinct(keys) && forall r | r in results :: BackendKey(r).0 in keys
    ensures k in keys && Durations(Group(results, KeyOf(), k)) != []
    ensures v < PercentileOf(Group(results, KeyOf(), k), p)
  {
    var sums := GroupSum(results, KeyOf(), Excess(p, v));
    PartitionSum(results, keys, KeyOf(), Excess(p, v));
    if forall k | k in keys :: sums(k) >= 0 {
      SumNonNegative(keys, sums);
    }
    k :| k in keys && sums(k) < 0;
    var group := Group(results, KeyOf(), k);
    if Durations(group) == [] { ExcessOfFailures(group, p, v); }
    ExcessSign(group, p, v);
  }

  lemma SomeGroupAtLeastZero(results: seq<Result>, keys: seq<string>, p: int, v: int) returns (k: string)
    requires 0 < p < 100 && SumBy(results, Excess(p, v)) >= 0 && Durations(results) != []
    requires Distinct(keys) && forall r | r in results :: BackendKey(r).0 in keys
    ensures k in keys && Durations(Group(results, KeyOf(), k)) != []
    ensures PercentileOf(Group(results, KeyOf(), k), p) <= v
  {
    hide Durations, Excess, PercentileOf;
    var sums := GroupSum(results, KeyOf(), Excess(p, v));
    PartitionSum(results, keys, KeyOf(), Excess(p, v));
    var r := SomeSuccess(results);
    assert r in Group(results, KeyOf(), BackendKey(r).0);
    SuccessHasDuration(Group(results, KeyOf(), BackendKey(r).0), r);
    forall k | k in keys && Durations(Group(results, KeyOf(), k)) == [] ensures sums(k) == 0 {
      ExcessOfFailures(Group(results, KeyOf(), k), p, v);
    }
    if sums(BackendKey(r).0) >= 0 {
      k := BackendKey(r).0;
    } else {
      k := SomeTermPositive(keys, sums, BackendKey(r).0);
    }
    ExcessSign(Group(results, KeyOf(), k), p, v);
  }

  // A sum that is not negative, with one negative term, has a positive one.
  lemma SomeTermPositive<K>(keys: seq<K>, f: K -> int, neg: K) returns (k: K)
    requires neg in keys && f(neg) < 0 && SumBy(keys, f) >= 0
    ensures k in keys && f(k) > 0
  {
    var i :| 0 <= i < |keys| && keys[i] == neg;
    SumWithout(keys, i, f);
    var rest := Without(keys, i);
    if forall x | x in rest :: f(x) <= 0 {
      SumMono(rest, f, Zero());
      SumBetween(rest, Zero(), 0, 0);
    }
    k :| k in rest && f(k) > 0;
  }

  function Zero<T>(): T -> int {
    x => 0
  }

  lemma SomeSuccess(results: seq<Result>) returns (r: Result)
    requires Durations(results) != []
    ensures r in results && r.err.None?
  {
    r := Filter(results, Succeeded())[0];
    assert r in Filter(results, Succeeded());
  }

  lemma SuccessHasDuration(results: seq<Result>, r: Result)
    requires r in results && r.err.None?
    ensures Durations(results) != []
  {
    assert r in Filter(results, Succeeded());
  }
}
