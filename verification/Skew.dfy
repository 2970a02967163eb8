// computeBackendSkew: how uneven the backends are.
module Skew {
  import opened Wrappers
  import opened Folds
  import opened Sorting
  import opened Latency
  import opened Records
  import opened Backends

  datatype BackendSkew = BackendSkew(countRatio: real, p99Ratio: real)

  function LineP99(): BackendStats -> int {
    (b: BackendStats) => b.p99
  }

  function NonZero(): int -> bool {
    d => d != 0
  }

  function CountsOf(backends: seq<BackendStats>): (counts: seq<int>)
    ensures |counts| == |backends|
  {
    Apply(backends, LineCount())
  }

  // The P99 figures that qualify for the latency ratio.
  function QualifyingP99s(backends: seq<BackendStats>): seq<int> {
    Filter(Apply(backends, LineP99()), NonZero())
  }

  // max over min, when there are two figures and the smaller is positive.
  function Spread(s: seq<int>): real {
    if |s| >= 2 && MinOf(s) > 0 then MaxOf(s) as real / MinOf(s) as real else 0.0
  }

  function SkewOf(backends: seq<BackendStats>): BackendSkew {
    BackendSkew(Spread(CountsOf(backends)), Spread(QualifyingP99s(backends)))
  }

  lemma ExtremesAppend(s: seq<int>, x: int)
    ensures MinOf(s + [x]) == if s == [] || x < MinOf(s) then x else MinOf(s)
    ensures MaxOf(s + [x]) == if s == [] || x > MaxOf(s) then x else MaxOf(s)
  {
    assert (s + [x])[..|s|] == s;
  }

  lemma CountsStep(backends: seq<BackendStats>, b: BackendStats)
    ensures CountsOf(backends + [b]) == CountsOf(backends) + [b.count]
    ensures |backends| == 1 ==> MinOf(CountsOf(backends)) == MaxOf(CountsOf(backends)) == backends[0].count
  {
    ApplyAppend(backends, b, LineCount());
  }

  method CountExtremes(backends: seq<BackendStats>) returns (minC: int, maxC: int)
    requires backends != []
    ensures minC == MinOf(CountsOf(backends)) && maxC == MaxOf(CountsOf(backends))
  {
    hide MinOf, MaxOf, CountsOf;
    minC, maxC := backends[0].count, backends[0].count;
    CountsStep(backends[..1], backends[0]);
    for i := 1 to |backends|
      invariant minC == MinOf(CountsOf(backends[..i])) && maxC == MaxOf(CountsOf(backends[..i]))
    {
      assert backends[..i + 1] == backends[..i] + [backends[i]];
      CountsStep(backends[..i], backends[i]);
      ExtremesAppend(CountsOf(backends[..i]), backends[i].count);
      if backends[i].count < minC {
        minC := backends[i].count;
      }
      if backends[i].count > maxC {
        maxC := backends[i].count;
      }
    }
    assert backends[..|backends|] == backends;
  }

  method CountRatio(backends: seq<BackendStats>) returns (ratio: real)
    ensures ratio == Spread(CountsOf(backends))
  {
    hide MinOf, MaxOf;
    ratio := 0.0;
    if |backends| >= 2 {
      var minC, maxC := CountExtremes(backends);
      if minC > 0 {
        ratio := maxC as real / minC as real;
      }
    }
  }

  lemma QualifyingStep(backends: seq<BackendStats>, b: BackendStats)
    ensures QualifyingP99s(backends + [b]) ==
            QualifyingP99s(backends) + (if b.p99 != 0 then [b.p99] else [])
  {
    ApplyAppend(backends, b, LineP99());
    FilterAppend(Apply(backends, LineP99()), b.p99, NonZero());
  }

  method P99Ratio(backends: seq<BackendStats>) returns (ratio: real)
    ensures ratio == Spread(QualifyingP99s(backends))
  {
    var minP99, maxP99, qualifying := 0, 0, 0;
    for i := 0 to |backends|
      invariant qualifying == |QualifyingP99s(backends[..i])|
      invariant qualifying > 0 ==> minP99 == MinOf(QualifyingP99s(backends[..i]))
      invariant qualifying > 0 ==> maxP99 == MaxOf(QualifyingP99s(backends[..i]))
    {
      hide QualifyingP99s, MinOf, MaxOf;
      var b := backends[i];
      assert backends[..i + 1] == backends[..i] + [b];
      QualifyingStep(backends[..i], b);
      if b.p99 == 0 {
        continue;
      }
      ExtremesAppend(QualifyingP99s(backends[..i]), b.p99);
      if qualifying == 0 || b.p99 < minP99 {
        minP99 := b.p99;
      }
      if qualifying == 0 || b.p99 > maxP99 {
        maxP99 := b.p99;
      }
      qualifying := qualifying + 1;
    }
    assert backends[..|backends|] == backends;
    ratio := if qualifying >= 2 && minP99 > 0 then maxP99 as real / minP99 as real else 0.0;
  }

  method ComputeBackendSkew(backends: seq<BackendStats>) returns (skew: BackendSkew)
    ensures skew == SkewOf(backends)
  {
    var countRatio := CountRatio(backends);
    var p99Ratio := P99Ratio(backends);
    skew := BackendSkew(countRatio, p99Ratio);
  }

  lemma SpreadAtLeastOne(s: seq<int>)
    requires |s| >= 2 && forall x :: x in s ==> x > 0
    ensures Spread(s) >= 1.0
    ensures Spread(s) == 1.0 <==> forall x, y :: x in s && y in s ==> x == y
  {
    var lo, hi := MinOf(s), MaxOf(s);
    RatioAtLeastOne(hi as real, lo as real);
    if hi == lo {
      forall x, y | x in s && y in s ensures x == y { }
    }
  }

  lemma RatioAtLeastOne(hi: real, lo: real)
    requires 0.0 < lo <= hi
    ensures hi / lo >= 1.0 && (hi / lo == 1.0 <==> hi == lo)
  {
    var q := hi / lo;
    assert q * lo == hi;
  }

  // On the sorted list, the scanned extremes are the ends, the guard against a
  // zero count never acts, and the ratio is one exactly for equal counts.
  lemma CountRatioIsEnds(results: seq<Result>, totalCount: nat, out: seq<BackendStats>)
    requires IsBackends(results, totalCount, out) && |out| >= 2
    ensures MaxOf(CountsOf(out)) == out[0].count
    ensures MinOf(CountsOf(out)) == out[|out| - 1].count > 0
    ensures SkewOf(out).countRatio == out[0].count as real / out[|out| - 1].count as real >= 1.0
    ensures SkewOf(out).countRatio == 1.0 <==> forall a, b :: a in out && b in out ==> a.count == b.count
  {
    hide StatOf, KeysOf, BackendLess, MinOf, MaxOf, IsBackends;
    var counts := CountsOf(out);
    EndsAreExtremes(results, totalCount, out);
    CountsPositive(results, totalCount, out);
    SpreadAtLeastOne(counts);
    assert forall i :: 0 <= i < |out| ==> counts[i] == out[i].count && counts[i] in counts;
    assert MinOf(counts) in counts;
  }

  lemma EndsAreExtremes(results: seq<Result>, totalCount: nat, out: seq<BackendStats>)
    requires IsBackends(results, totalCount, out) && out != []
    ensures MaxOf(CountsOf(out)) == out[0].count && MinOf(CountsOf(out)) == out[|out| - 1].count
  {
    hide StatOf, KeysOf;
    var counts, n := CountsOf(out), |out|;
    forall i | 0 <= i < n ensures counts[n - 1] <= counts[i] <= counts[0] {
      if i > 0 { assert BackendLess(out[0], out[i]); }
      if i < n - 1 { assert BackendLess(out[i], out[n - 1]); }
    }
    assert counts[0] in counts && counts[n - 1] in counts;
  }

  lemma CountsPositive(results: seq<Result>, totalCount: nat, out: seq<BackendStats>)
    requires IsBackends(results, totalCount, out)
    ensures forall c :: c in CountsOf(out) ==> c > 0
  {
    hide StatOf, KeysOf, Group;
    forall i | 0 <= i < |out| ensures out[i].count > 0 {
      assert out[i] in out;
      LineOf(results, totalCount, out[i].key);
      GroupNonempty(results, out[i].key);
    }
  }

  // With non-negative durations the latency ratio is reported exactly when two
  // backends have a nonzero P99, and is then at least one.
  lemma P99RatioReported(results: seq<Result>, totalCount: nat, out: seq<BackendStats>)
    requires IsBackends(results, totalCount, out)
    requires forall r :: r in results && r.err.None? ==> r.total >= 0
    ensures SkewOf(out).p99Ratio != 0.0 <==> |QualifyingP99s(out)| >= 2
    ensures |QualifyingP99s(out)| >= 2 ==> SkewOf(out).p99Ratio >= 1.0
  {
    var p99s := QualifyingP99s(out);
    forall x | x in p99s ensures x > 0 {
      var i :| 0 <= i < |out| && out[i].p99 == x;
      assert out[i] in out;
      P99NonNegative(results, totalCount, out[i].key);
    }
    if |p99s| >= 2 { SpreadAtLeastOne(p99s); }
  }

  lemma QualifyingIn(backends: seq<BackendStats>, v: int)
    ensures v in QualifyingP99s(backends) <==> v != 0 && exists b :: b in backends && b.p99 == v
  {
    var figures := Apply(backends, LineP99());
    if b :| b in backends && b.p99 == v {
      var i :| 0 <= i < |backends| && backends[i] == b;
      assert figures[i] == v;
    }
    if v in figures {
      var i :| 0 <= i < |figures| && figures[i] == v;
      assert backends[i] in backends;
    }
  }

  // Two lines with a nonzero P99.
  ghost predicate TwoQualify(out: seq<BackendStats>) {
    exists i, j :: 0 <= i < j < |out| && out[i].p99 != 0 && out[j].p99 != 0
  }

  ghost predicate OneQualifies(out: seq<BackendStats>) {
    exists i :: 0 <= i < |out| && out[i].p99 != 0
  }

  lemma QualifyOneMore(front: seq<BackendStats>, b: BackendStats)
    ensures OneQualifies(front + [b]) <==> OneQualifies(front) || b.p99 != 0
    ensures TwoQualify(front + [b]) <==> TwoQualify(front) || (b.p99 != 0 && OneQualifies(front))
  {
    var out := front + [b];
    assert forall i :: 0 <= i < |front| ==> out[i] == front[i];
    if OneQualifies(front) {
      var i :| 0 <= i < |front| && front[i].p99 != 0;
      assert out[i].p99 != 0;
      if b.p99 != 0 { assert out[i].p99 != 0 && out[|front|].p99 != 0; }
    }
    if TwoQualify(front) {
      var i, j :| 0 <= i < j < |front| && front[i].p99 != 0 && front[j].p99 != 0;
      assert out[i].p99 != 0 && out[j].p99 != 0;
    }
    assert out[|front|] == b;
  }

  lemma {:induction false} TwoQualifyIff(out: seq<BackendStats>)
    ensures TwoQualify(out) <==> |QualifyingP99s(out)| >= 2
    ensures OneQualifies(out) <==> |QualifyingP99s(out)| >= 1
  {
    if out == [] {
    } else {
      hide TwoQualify, OneQualifies, QualifyingP99s;
      var front, b := out[..|out| - 1], out[|out| - 1];
      assert out == front + [b];
      TwoQualifyIff(front);
      QualifyingStep(front, b);
      QualifyOneMore(front, b);
    }
  }

  // Lines a and b hold the least and the greatest nonzero P99.
  ghost predicate Extremes(out: seq<BackendStats>, a: BackendStats, b: BackendStats) {
    && a in out && b in out && 0 < a.p99 <= b.p99
    && forall x :: x in out && x.p99 != 0 ==> a.p99 <= x.p99 <= b.p99
  }

  ghost predicate AllEqual(out: seq<BackendStats>) {
    forall x, y :: x in out && y in out && x.p99 != 0 && y.p99 != 0 ==> x.p99 == y.p99
  }

  // For durations that are not negative, when two lines have a nonzero P99 the
  // ratio is the greatest of those figures over the least, so it is one exactly
  // when they are all equal; and it is zero otherwise.
  lemma P99RatioIsExtremes(results: seq<Result>, totalCount: nat, out: seq<BackendStats>)
    requires IsBackends(results, totalCount, out)
    requires forall r :: r in results && r.err.None? ==> r.total >= 0
    ensures !TwoQualify(out) ==> SkewOf(out).p99Ratio == 0.0
    ensures TwoQualify(out) ==>
              exists a, b :: Extremes(out, a, b) && SkewOf(out).p99Ratio * a.p99 as real == b.p99 as real
    ensures TwoQualify(out) ==> (SkewOf(out).p99Ratio == 1.0 <==> AllEqual(out))
  {
    hide IsBackends, QualifyingP99s, TwoQualify, Spread, MinOf, MaxOf, SkewOf, Extremes, AllEqual;
    var p99s := QualifyingP99s(out);
    P99RatioOf(out);
    TwoQualifyIff(out);
    QualifyingPositive(results, totalCount, out);
    SpreadIsExtremes(p99s);
    if TwoQualify(out) {
      var a, b := LinesAtExtremes(out);
      assert Spread(p99s) * a.p99 as real == b.p99 as real;
    }
  }

  lemma CountRatioOf(out: seq<BackendStats>)
    ensures SkewOf(out).countRatio == Spread(CountsOf(out))
  {
  }

  lemma P99RatioOf(out: seq<BackendStats>)
    ensures SkewOf(out).p99Ratio == Spread(QualifyingP99s(out))
  {
  }

  // The lines that hold the least and the greatest qualifying figure.
  lemma LinesAtExtremes(out: seq<BackendStats>) returns (a: BackendStats, b: BackendStats)
    requires QualifyingP99s(out) != [] && forall x :: x in QualifyingP99s(out) ==> x > 0
    ensures a.p99 == MinOf(QualifyingP99s(out)) && b.p99 == MaxOf(QualifyingP99s(out))
    ensures Extremes(out, a, b) && (a.p99 == b.p99 <==> AllEqual(out))
  {
    hide QualifyingP99s;
    var p99s := QualifyingP99s(out);
    QualifyingIn(out, MinOf(p99s));
    QualifyingIn(out, MaxOf(p99s));
    a :| a in out && a.p99 == MinOf(p99s);
    b :| b in out && b.p99 == MaxOf(p99s);
    forall x | x in out && x.p99 != 0 ensures a.p99 <= x.p99 <= b.p99 { QualifyingIn(out, x.p99); }
  }

  lemma SpreadIsExtremes(s: seq<int>)
    requires forall x :: x in s ==> x > 0
    ensures |s| < 2 ==> Spread(s) == 0.0
    ensures |s| >= 2 ==>
              && Spread(s) * MinOf(s) as real == MaxOf(s) as real
              && (Spread(s) == 1.0 <==> MinOf(s) == MaxOf(s))
  {
    hide MinOf, MaxOf;
    if |s| >= 2 {
      RatioTimes(MaxOf(s) as real, MinOf(s) as real);
      RatioAtLeastOne(MaxOf(s) as real, MinOf(s) as real);
    }
  }

  lemma RatioTimes(hi: real, lo: real)
    requires lo > 0.0
    ensures hi / lo * lo == hi
  {
  }

  lemma QualifyingPositive(results: seq<Result>, totalCount: nat, out: seq<BackendStats>)
    requires IsBackends(results, totalCount, out)
    requires forall r :: r in results && r.err.None? ==> r.total >= 0
    ensures forall x :: x in QualifyingP99s(out) ==> x > 0
  {
    hide IsBackends, StatOf;
    forall x | x in QualifyingP99s(out) ensures x > 0 {
      QualifyingIn(out, x);
      var b :| b in out && b.p99 == x;
      LineIsStat(results, totalCount, out, b);
      P99NonNegative(results, totalCount, b.key);
    }
  }

  lemma LineIsStat(results: seq<Result>, totalCount: nat, out: seq<BackendStats>, b: BackendStats)
    requires IsBackends(results, totalCount, out) && b in out
    ensures b == StatOf(results, totalCount, b.key)
  {
  }

  // Fewer than two backends have no count ratio.
  lemma FewBackends(out: seq<BackendStats>)
    requires |out| < 2
    ensures SkewOf(out).countRatio == 0.0
  {
  }

  lemma P99NonNegative(results: seq<Result>, totalCount: nat, k: string)
    requires forall r :: r in results && r.err.None? ==> r.total >= 0
    ensures StatOf(results, totalCount, k).p99 >= 0
  {
    var g := Group(results, KeyOf(), k);
    var ds := Durations(g);
    forall i | 0 <= i < |ds| ensures ds[i] >= 0 {
      var r := Filter(g, Succeeded())[i];
      assert r in Filter(g, Succeeded()) && r in g && r in results;
    }
    if ds != [] {
      var v := Percentile(Sort(ds), 99);
      NearestRank(ds, 99, v);
    }
  }

  // The qualifying test is on the figure, not on having a success: a backend
  // with successes is left out of the ratio exactly when at least 99 percent of
  // its successful calls took no time at all.
  lemma SuccessfulButLeftOutIff(results: seq<Result>, totalCount: nat, k: string)
    requires forall r :: r in results && r.err.None? ==> r.total >= 0
    requires Durations(Group(results, KeyOf(), k)) != []
    ensures var ds := Durations(Group(results, KeyOf(), k));
            StatOf(results, totalCount, k).p99 == 0 <==> 100 * CountAtMost(ds, 0) >= 99 * |ds|
  {
    hide Durations, Group;
    var g := Group(results, KeyOf(), k);
    P99NonNegative(results, totalCount, k);
    ExcessSign(g, 99, 0);
    ExcessOfDurations(g, 99, 0);
  }

  function InstantCall(pod: string): Result {
    Result(0, 0, 0, 0, 0, false, pod, "", "", None)
  }

  // Two backends, each with a success that took no time: both lines are there,
  // and the latency ratio reports neither.
  lemma InstantBackends(out: seq<BackendStats>)
    requires IsBackends([InstantCall("a"), InstantCall("b")], 2, out)
    ensures exists a, b :: a in out && b in out && a.key != b.key
              && a.count > a.errorCount && b.count > b.errorCount
    ensures SkewOf(out).p99Ratio == 0.0
  {
    hide StatOf, BackendLess, MinOf, MaxOf, KeysOf;
    var results := [InstantCall("a"), InstantCall("b")];
    InstantLine("a");
    InstantLine("b");
    InstantKeys();
    var a, b := StatOf(results, 2, "a"), StatOf(results, 2, "b");
    assert a in out && b in out && a.key != b.key by { assert a.key == "a" && b.key == "b"; }
    forall i | 0 <= i < |out| ensures out[i].p99 == 0 {
      assert out[i] in out;
    }
  }

  lemma InstantKeys()
    ensures KeysOf([InstantCall("a"), InstantCall("b")]) == {"a", "b"}
  {
    var results := [InstantCall("a"), InstantCall("b")];
    assert results[0] in results && results[1] in results;
  }

  lemma InstantLine(k: string)
    requires k == "a" || k == "b"
    ensures var line := StatOf([InstantCall("a"), InstantCall("b")], 2, k);
            line.key == k && line.count == 1 && line.errorCount == 0 && line.p99 == 0
  {
    hide Group, BucketOf, Percentile, Sort;
    InstantGroup(k);
    InstantBucket(k);
    ZeroPercentile();
  }

  lemma InstantGroup(k: string)
    requires k == "a" || k == "b"
    ensures Group([InstantCall("a"), InstantCall("b")], KeyOf(), k) == [InstantCall(k)]
  {
    hide Group;
    var a, b := InstantCall("a"), InstantCall("b");
    GroupAppend([a], b, KeyOf(), k);
    GroupAppend([], a, KeyOf(), k);
    assert Group<Result, string>([], KeyOf(), k) == [] by { GroupOfNone(k); }
    assert [a] + [b] == [a, b] && [] + [a] == [a];
    assert "a" != "b";
  }

  lemma GroupOfNone(k: string)
    ensures Group([], KeyOf(), k) == []
  {
  }

  lemma InstantBucket(k: string)
    requires k != ""
    ensures BucketOf([InstantCall(k)]) == Bucket(PodName, 1, 0, [0])
  {
    var r := InstantCall(k);
    assert [] + [r] == [r];
    FilterAppend([], r, Failed());
    DurationsAppend([], r);
  }

  lemma ZeroPercentile()
    ensures Percentile(Sort([0]), 99) == 0
  {
    NearestRank([0], 99, Percentile(Sort([0]), 99));
  }
}
