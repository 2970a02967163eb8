// The run from its configuration to its summary: validation, merging, and what
// the summary of any schedule guarantees.
module Bench {
  import opened Wrappers
  import opened Int64
  import opened Folds
  import opened Sorting
  import opened Latency
  import opened Records
  import opened Backends
  import opened Payload
  import opened Sampler
  import opened StatusCodes
  import opened Aggregator
  import opened Protocol
  import opened Invariants
  import opened Runs
  import opened Traces
  import Workers

  // ----- configuration

  datatype Config = Config(
    target: string, concurrency: int, duration: int, payload: seq<Entry>,
    embeddingDim: int, bytesSize: int, stringLen: int,
    compression: string, connModel: string, outputFormat: string,
    headers: map<string, string>, labels: map<string, string>)

  datatype Problem =
    | NoTarget | LowConcurrency | NoDuration | NoPayload | NoPositiveWeight
    | NegativeEmbeddingDim | NegativeBytesSize | NegativeStringLen
    | UnknownCompression | UnknownConnModel | UnknownOutputFormat
    | EmptyHeaderKey | EmptyLabelKey

  predicate KnownCompression(name: string) {
    name in {"identity", "gzip", "snappy", "zstd"}
  }

  predicate KnownOutputFormat(name: string) {
    name == "human" || name == "json"
  }

  predicate SomePositive(mix: seq<Entry>) {
    exists e | e in mix :: e.weight > 0
  }

  // The checks, in the order they are made.
  function Checks(c: Config): seq<(bool, Problem)> {
    [ (c.target != "", NoTarget),
      (c.concurrency >= 1, LowConcurrency),
      (c.duration > 0, NoDuration),
      (c.payload != [], Problem.NoPayload),
      (SomePositive(c.payload), NoPositiveWeight),
      (c.embeddingDim >= 0, NegativeEmbeddingDim),
      (c.bytesSize >= 0, NegativeBytesSize),
      (c.stringLen >= 0, NegativeStringLen),
      (KnownCompression(c.compression), UnknownCompression),
      (Workers.ModelNamed(c.connModel).Some?, UnknownConnModel),
      (KnownOutputFormat(c.outputFormat), UnknownOutputFormat),
      ("" !in c.headers, EmptyHeaderKey),
      ("" !in c.labels, EmptyLabelKey) ]
  }

  // p is the first check that fails, or none fails.
  ghost predicate FirstProblem(c: Config, p: Option<Problem>) {
    match p
    case None => forall k :: 0 <= k < |Checks(c)| ==> Checks(c)[k].0
    case Some(problem) =>
      exists k :: 0 <= k < |Checks(c)| && Checks(c)[k] == (false, problem) && forall j :: 0 <= j < k ==> Checks(c)[j].0
  }

  method HasPositive(mix: seq<Entry>) returns (hasPositive: bool)
    ensures hasPositive <==> SomePositive(mix)
  {
    hasPositive := false;
    for i := 0 to |mix|
      invariant !hasPositive && forall k :: 0 <= k < i ==> mix[k].weight <= 0
    {
      if mix[i].weight > 0 {
        hasPositive := true;
        assert mix[i] in mix;
        break;
      }
    }
  }

  method HasEmptyKey(m: map<string, string>) returns (found: bool)
    ensures found <==> "" in m
  {
    var pending := m.Keys;
    while pending != {}
      invariant pending <= m.Keys && ("" in m ==> "" in pending)
    {
      var k :| k in pending;
      if k == "" {
        return true;
      }
      pending := pending - {k};
    }
    return false;
  }

  // The same of the checks from lo to hi only.
  ghost predicate FirstProblemIn(c: Config, lo: nat, hi: nat, p: Option<Problem>)
    requires lo <= hi <= |Checks(c)|
  {
    match p
    case None => forall k :: lo <= k < hi ==> Checks(c)[k].0
    case Some(problem) =>
      exists k :: lo <= k < hi && Checks(c)[k] == (false, problem) && forall j :: lo <= j < k ==> Checks(c)[j].0
  }

  // The checks from lo up to k hold, and check k, if below hi, is the problem.
  lemma StoppedAt(c: Config, lo: nat, k: nat, hi: nat, p: Option<Problem>)
    requires lo <= k <= hi <= |Checks(c)| && (forall j :: lo <= j < k ==> Checks(c)[j].0)
    requires if k < hi then p.Some? && Checks(c)[k] == (false, p.value) else p == None
    ensures FirstProblemIn(c, lo, hi, p)
  {
    hide Checks;
  }

  lemma ProblemsInTurn(c: Config, mid: nat, first: Option<Problem>, second: Option<Problem>)
    requires mid <= |Checks(c)| && FirstProblemIn(c, 0, mid, first)
    requires first.None? ==> FirstProblemIn(c, mid, |Checks(c)|, second)
    ensures FirstProblem(c, if first.Some? then first else second)
  {
    hide Checks;
  }

  // What each problem is, as a caller can read it off the configuration.
  predicate Has(c: Config, p: Problem) {
    match p
    case NoTarget => c.target == ""
    case LowConcurrency => c.concurrency < 1
    case NoDuration => c.duration <= 0
    case NoPayload => c.payload == []
    case NoPositiveWeight => forall e :: e in c.payload ==> e.weight <= 0
    case NegativeEmbeddingDim => c.embeddingDim < 0
    case NegativeBytesSize => c.bytesSize < 0
    case NegativeStringLen => c.stringLen < 0
    case UnknownCompression => c.compression !in {"identity", "gzip", "snappy", "zstd"}
    case UnknownConnModel => c.connModel !in {"per-worker", "shared", "per-request"}
    case UnknownOutputFormat => c.outputFormat !in {"human", "json"}
    case EmptyHeaderKey => "" in c.headers
    case EmptyLabelKey => "" in c.labels
  }

  // The place of its check.
  function Place(p: Problem): (k: nat)
    ensures k < 13
  {
    match p
    case NoTarget => 0
    case LowConcurrency => 1
    case NoDuration => 2
    case NoPayload => 3
    case NoPositiveWeight => 4
    case NegativeEmbeddingDim => 5
    case NegativeBytesSize => 6
    case NegativeStringLen => 7
    case UnknownCompression => 8
    case UnknownConnModel => 9
    case UnknownOutputFormat => 10
    case EmptyHeaderKey => 11
    case EmptyLabelKey => 12
  }

  function ProblemAt(k: nat): (p: Problem)
    requires k < 13
    ensures Place(p) == k
  {
    if k == 0 then NoTarget else if k == 1 then LowConcurrency else if k == 2 then NoDuration
    else if k == 3 then Problem.NoPayload else if k == 4 then NoPositiveWeight else if k == 5 then NegativeEmbeddingDim
    else if k == 6 then NegativeBytesSize else if k == 7 then NegativeStringLen else if k == 8 then UnknownCompression
    else if k == 9 then UnknownConnModel else if k == 10 then UnknownOutputFormat else if k == 11 then EmptyHeaderKey
    else EmptyLabelKey
  }

  lemma CheckOf(c: Config, p: Problem)
    ensures |Checks(c)| == 13 && Checks(c)[Place(p)] == (!Has(c, p), p) && ProblemAt(Place(p)) == p
  {
  }

  // A configuration passes when it has none of the problems; otherwise the one
  // reported is the one it has whose check comes first.
  lemma FirstProblemIff(c: Config, p: Problem)
    ensures FirstProblem(c, None) <==> forall q :: !Has(c, q)
    ensures FirstProblem(c, Some(p)) <==> Has(c, p) && forall q :: Place(q) < Place(p) ==> !Has(c, q)
  {
    hide Checks, Has, Place, ProblemAt;
    CheckOf(c, p);
    forall q ensures |Checks(c)| == 13 && Checks(c)[Place(q)] == (!Has(c, q), q) { CheckOf(c, q); }
    forall k | 0 <= k < |Checks(c)| ensures Checks(c)[k] == (!Has(c, ProblemAt(k)), ProblemAt(k)) {
      CheckOf(c, ProblemAt(k));
    }
    if Has(c, p) && forall q :: Place(q) < Place(p) ==> !Has(c, q) {
      assert Checks(c)[Place(p)] == (false, p);
      forall j | 0 <= j < Place(p) ensures Checks(c)[j].0 { assert Place(ProblemAt(j)) == j; }
    }
  }

  method CheckLoad(c: Config) returns (problem: Option<Problem>)
    ensures FirstProblemIn(c, 0, 5, problem)
  {
    hide KnownCompression, KnownOutputFormat, SomePositive, Workers.ModelNamed, FirstProblemIn;
    var hasPositive := HasPositive(c.payload);
    ghost var k := 5;
    problem := None;
    if c.target == "" { problem, k := Some(NoTarget), 0; }
    else if c.concurrency < 1 { problem, k := Some(LowConcurrency), 1; }
    else if c.duration <= 0 { problem, k := Some(NoDuration), 2; }
    else if |c.payload| == 0 { problem, k := Some(Problem.NoPayload), 3; }
    else if !hasPositive { problem, k := Some(NoPositiveWeight), 4; }
    StoppedAt(c, 0, k, 5, problem);
  }

  method CheckRest(c: Config) returns (problem: Option<Problem>)
    ensures FirstProblemIn(c, 5, |Checks(c)|, problem)
  {
    hide KnownCompression, KnownOutputFormat, SomePositive, Workers.ModelNamed, FirstProblemIn;
    var emptyHeader := HasEmptyKey(c.headers);
    var emptyLabel := HasEmptyKey(c.labels);
    ghost var k := 13;
    problem := None;
    if c.embeddingDim < 0 { problem, k := Some(NegativeEmbeddingDim), 5; }
    else if c.bytesSize < 0 { problem, k := Some(NegativeBytesSize), 6; }
    else if c.stringLen < 0 { problem, k := Some(NegativeStringLen), 7; }
    else if !KnownCompression(c.compression) { problem, k := Some(UnknownCompression), 8; }
    else if Workers.ModelNamed(c.connModel).None? { problem, k := Some(UnknownConnModel), 9; }
    else if !KnownOutputFormat(c.outputFormat) { problem, k := Some(UnknownOutputFormat), 10; }
    else if emptyHeader { problem, k := Some(EmptyHeaderKey), 11; }
    else if emptyLabel { problem, k := Some(EmptyLabelKey), 12; }
    StoppedAt(c, 5, k, |Checks(c)|, problem);
  }

  method Validate(c: Config) returns (problem: Option<Problem>)
    ensures FirstProblem(c, problem)
  {
    hide FirstProblem, FirstProblemIn;
    var first := CheckLoad(c);
    problem := first;
    if first.None? {
      problem := CheckRest(c);
    }
    ProblemsInTurn(c, 5, first, problem);
  }

  function SizesOf(c: Config): Sizes {
    Sizes(c.embeddingDim, c.bytesSize, c.stringLen)
  }

  // What run builds its workers from, on a platform with this allocation limit.
  function SetupOf(c: Config, limit: nat): Option<Setup> {
    match (Workers.ModelNamed(c.connModel), SelectorOf(c.payload))
    case (Some(model), Some(selector)) =>
      Some(Setup(model, selector, SizesOf(c), if c.concurrency >= 0 then c.concurrency else 0, limit))
    case _ => None
  }

  lemma PassedChecks(c: Config)
    requires FirstProblem(c, None)
    ensures c.concurrency >= 1 && SomePositive(c.payload) && Workers.ModelNamed(c.connModel).Some?
    ensures c.embeddingDim >= 0 && c.bytesSize >= 0 && c.stringLen >= 0
  {
    hide SomePositive, KnownCompression, KnownOutputFormat, Workers.ModelNamed;
    var checks := Checks(c);
    assert checks[1].0 && checks[4].0 && checks[5].0 && checks[6].0 && checks[7].0 && checks[9].0;
  }

  lemma PositiveTotal(mix: seq<Entry>)
    requires SomePositive(mix)
    ensures TotalWeight(mix) > 0
  {
    var e :| e in mix && e.weight > 0;
    var i :| 0 <= i < |mix| && mix[i] == e;
    SumWithout(mix, i, PositiveWeight());
    SumNonNegative(Without(mix, i), PositiveWeight());
  }

  lemma PositiveAccumulates(mix: seq<Entry>)
    requires SomePositive(mix)
    ensures SelectorOf(mix).Some?
  {
    var e :| e in mix && e.weight > 0;
    AccumulateKeepsPositive(mix, e);
  }

  lemma {:induction false} AccumulateKeepsPositive(mix: seq<Entry>, e: Entry)
    requires e in mix && e.weight > 0
    ensures Accumulate(mix).shapes != []
  {
    var front, last := mix[..|mix| - 1], mix[|mix| - 1];
    assert mix == front + [last];
    if e in front { AccumulateKeepsPositive(front, e); }
  }

  // A validated configuration gives workers none of which can get stuck, in any
  // state of any schedule and whatever is drawn, exactly when there is a draw,
  // and every shape that a draw picks is one that its sizes leave room for.
  lemma NeverStuckIff(c: Config, limit: nat)
    requires FirstProblem(c, None)
    ensures SetupOf(c, limit).Some? && SetupOf(c, limit).value.workers == c.concurrency
    ensures var selector := SetupOf(c, limit).value.selector;
            NoWorkerStuck(SetupOf(c, limit).value) <==>
            && CanDraw(selector)
            && forall draw, shape :: LegalDraw(selector, draw) && Pick(selector, draw) == Some(shape) ==>
                 Affordable(shape, SizesOf(c), limit)
  {
    hide Pick, FirstProblem, NoWorkerStuck, LegalDraw, CanDraw, Affordable, Allocatable;
    PassedChecks(c);
    PositiveAccumulates(c.payload);
    var setup := SetupOf(c, limit).value;
    forall draw | LegalDraw(setup.selector, draw)
      ensures Pick(setup.selector, draw).Some?
      ensures RequestFor(setup.selector, setup.sizes, setup.limit, draw).Some? <==>
              Affordable(Pick(setup.selector, draw).value, setup.sizes, limit)
    {
      DrawPicks(c.payload, draw);
      RequestsAllocatableIff(Pick(setup.selector, draw).value, setup.sizes, limit);
    }
    NoWorkerStuckIff(setup);
  }

  // The sizes leave room for every shape that the mix sends.
  ghost predicate AllAffordable(c: Config, limit: nat) {
    forall shape :: Sends(c.payload, shape) ==> Affordable(shape, SizesOf(c), limit)
  }

  // When the weights add up to an int64 it takes no draw to tell: no worker gets
  // stuck exactly when there is room for every shape with a positive weight.
  // Then every reachable state that is not over has a next step.
  lemma ValidatedNeverStuck(c: Config, limit: nat)
    requires FirstProblem(c, None) && Fits(TotalWeight(c.payload))
    ensures SetupOf(c, limit).Some?
    ensures NoWorkerStuck(SetupOf(c, limit).value) <==> AllAffordable(c, limit)
    ensures AllAffordable(c, limit) ==>
              forall s | Reaches(SetupOf(c, limit).value, s) && !s.finished ::
                exists step :: IsProgramStep(step) && Advance(SetupOf(c, limit).value, s, step).Some?
  {
    hide Pick, FirstProblem, NoWorkerStuck, LegalDraw, Sends, Affordable, Advance, Reaches, Ready;
    PassedChecks(c);
    PositiveTotal(c.payload);
    AccumulateExact(c.payload);
    NeverStuckIff(c, limit);
    var selector := SetupOf(c, limit).value.selector;
    forall shape | Sends(c.payload, shape)
      ensures exists draw :: LegalDraw(selector, draw) && Pick(selector, draw) == Some(shape)
    {
      var draw := SentShapeIsDrawn(c.payload, shape);
    }
    forall draw, shape | Pick(selector, draw) == Some(shape) ensures Sends(c.payload, shape) {
      ZeroWeightNeverPicked(c.payload, shape, draw);
    }
    var setup := SetupOf(c, limit).value;
    NoWorkerStuckIff(setup);
    if NoWorkerStuck(setup) {
      forall s | Reaches(setup, s) && !s.finished
        ensures exists step :: IsProgramStep(step) && Advance(setup, s, step).Some?
      {
        var step := Progress(setup, s);
      }
    }
  }

  // Any run of such a configuration can be brought to its end from whatever state
  // it has got to, in at most seven steps per worker and two more.
  lemma ValidatedCanFinish(c: Config, limit: nat, s: System) returns (steps: seq<Step>)
    requires FirstProblem(c, None) && Fits(TotalWeight(c.payload)) && AllAffordable(c, limit)
    requires SetupOf(c, limit).Some? && Reaches(SetupOf(c, limit).value, s)
    ensures |steps| <= 7 * c.concurrency + 2
    ensures Run(SetupOf(c, limit).value, s, steps).Some? && Run(SetupOf(c, limit).value, s, steps).value.finished
  {
    hide FirstProblem, NoWorkerStuck, Ready, Reaches, Run, AllAffordable;
    PassedChecks(c);
    ValidatedNeverStuck(c, limit);
    NoWorkerStuckIff(SetupOf(c, limit).value);
    steps := CanFinish(SetupOf(c, limit).value, s);
  }

  // Every request in flight, whatever the weights add up to, is one of a shape
  // that the mix sends, carries what such a request carries in the configured
  // sizes, and has lengths that can be allocated.
  lemma SentRequests(c: Config, limit: nat, s: System, w: Protocol.Worker)
    requires SetupOf(c, limit).Some? && Reaches(SetupOf(c, limit).value, s)
    requires w in s.workers && w.pc.InCall?
    ensures Sends(c.payload, w.pc.request.shape) && Allocatable(w.pc.request, limit)
    ensures Carries(w.pc.request, c.embeddingDim, c.bytesSize, c.stringLen)
  {
    hide Pick, Reaches, Allocatable, BuildEchoRequest, Carries;
    var setup := SetupOf(c, limit).value;
    RequestsInFlight(setup, s, w);
    var draw :|
      LegalDraw(setup.selector, draw) && RequestFor(setup.selector, setup.sizes, limit, draw) == Some(w.pc.request);
    var shape := Pick(setup.selector, draw).value;
    RequestCarries(shape, setup.sizes);
    ZeroWeightNeverPicked(c.payload, shape, draw);
  }

  // Validate bounds no weight from above: two entries of MaxInt pass it, and
  // leave the random source no draw to return.
  lemma ValidateAdmitsOverflow(limit: nat)
    ensures exists c ::
              FirstProblem(c, None) && SetupOf(c, limit).Some? && !CanDraw(SetupOf(c, limit).value.selector)
  {
    var mix := [Entry(Str, MAX), Entry(Bytes, MAX)];
    var c := Config("t", 1, 1, mix, 0, 0, 0, "identity", "per-worker", "human", map[], map[]);
    OverflowedTotal();
    assert Accumulate(mix).shapes == [Str, Bytes] by {
      assert mix[..1] == [Entry(Str, MAX)] && [Entry(Str, MAX)][..0] == [];
      assert Accumulate([Entry(Str, MAX)]).shapes == [Str];
    }
    assert mix[0] in mix;
    assert FirstProblem(c, None);
    assert SetupOf(c, limit).Some?;
  }

  // One worker that sends one shape.
  function OneShape(shape: Shape, dim: int, bytesSize: int): Config {
    Config("t", 1, 1, [Entry(shape, 1)], dim, bytesSize, 0, "identity", "per-worker", "human", map[], map[])
  }

  lemma OneShapePasses(shape: Shape, dim: nat, bytesSize: nat)
    ensures var c := OneShape(shape, dim, bytesSize); FirstProblem(c, None) && TotalWeight(c.payload) == 1
    ensures Sends(OneShape(shape, dim, bytesSize).payload, shape)
  {
    var c, e := OneShape(shape, dim, bytesSize), Entry(shape, 1);
    SumAppend([], e, PositiveWeight());
    assert [] + [e] == [e] && e in c.payload;
  }

  lemma OneShapeStuckIff(shape: Shape, dim: nat, bytesSize: nat, limit: nat)
    ensures var c := OneShape(shape, dim, bytesSize);
            && FirstProblem(c, None) && SetupOf(c, limit).Some? && CanDraw(SetupOf(c, limit).value.selector)
            && (NoWorkerStuck(SetupOf(c, limit).value) <==> Affordable(shape, SizesOf(c), limit))
  {
    hide NoWorkerStuck, FirstProblem, TotalWeight, Affordable;
    OneShapePasses(shape, dim, bytesSize);
    ValidatedNeverStuck(OneShape(shape, dim, bytesSize), limit);
    AccumulateExact(OneShape(shape, dim, bytesSize).payload);
  }

  // Nor does it bound the embedding dimension: 2^61 passes it with a single
  // draw to pick, and the call allocates a slice of negative length. Four times
  // 2^62 wraps to zero and is sent as an empty slice.
  lemma ValidateAdmitsHugeDimension(limit: nat)
    ensures var c := OneShape(EmbeddingBytes, 0x2000_0000_0000_0000, 0);
            && FirstProblem(c, None) && SetupOf(c, limit).Some? && CanDraw(SetupOf(c, limit).value.selector)
            && !NoWorkerStuck(SetupOf(c, limit).value)
    ensures var c := OneShape(EmbeddingBytes, 0x4000_0000_0000_0000, 0);
            FirstProblem(c, None) && SetupOf(c, limit).Some? && NoWorkerStuck(SetupOf(c, limit).value)
  {
    hide NoWorkerStuck, FirstProblem, SetupOf, CanDraw;
    OneShapeStuckIff(EmbeddingBytes, 0x2000_0000_0000_0000, 0, limit);
    OneShapeStuckIff(EmbeddingBytes, 0x4000_0000_0000_0000, 0, limit);
  }

  // Nor the bytes size: one more than the platform allocates, still an int64,
  // passes it, and the call allocates a slice that is too long.
  lemma ValidateAdmitsHugeSize(limit: nat)
    requires limit < MAX
    ensures var c := OneShape(Bytes, 0, limit + 1);
            && FirstProblem(c, None) && SetupOf(c, limit).Some? && CanDraw(SetupOf(c, limit).value.selector)
            && !NoWorkerStuck(SetupOf(c, limit).value)
  {
    hide NoWorkerStuck, FirstProblem, SetupOf, CanDraw;
    OneShapeStuckIff(Bytes, 0, limit + 1, limit);
  }

  // ----- merging

  // The results fields of all workers, in worker order.
  ghost function ResultsOf(workers: seq<Workers.Worker>): seq<Result>
    reads workers
  {
    if workers == [] then [] else ResultsOf(workers[..|workers| - 1]) + workers[|workers| - 1].results
  }

  method Merge(workers: seq<Workers.Worker>) returns (results: seq<Result>)
    ensures results == ResultsOf(workers)
  {
    results := [];
    for i := 0 to |workers|
      invariant results == ResultsOf(workers[..i])
    {
      assert workers[..i + 1][..i] == workers[..i];
      results := results + workers[i].results;
    }
    assert workers[..|workers|] == workers;
  }

  // After the join: merge, measure, aggregate.
  method Summarise(workers: seq<Workers.Worker>, connModel: string) returns (s: Summary)
    ensures IsSummary(ResultsOf(workers), ElapsedOf(ResultsOf(workers)), connModel, s)
  {
    hide IsSummary, ElapsedOf;
    var results := Merge(workers);
    var elapsed := Elapsed(results);
    s := Aggregate(results, elapsed, connModel);
  }

  // s summarises what the workers of state t have recorded.
  ghost predicate Summarises(t: System, connModel: string, s: Summary) {
    var results := Merged(t.workers);
    IsSummary(results, ElapsedOf(results), connModel, s)
  }

  // The workers as objects hold what the workers of the state have recorded.
  ghost predicate HoldResults(workers: seq<Workers.Worker>, t: System)
    reads workers
  {
    |workers| == |t.workers| && forall i :: 0 <= i < |workers| ==> workers[i].results == t.workers[i].results
  }

  lemma {:induction false} FieldsAreMerged(workers: seq<Workers.Worker>, states: seq<Protocol.Worker>)
    requires |workers| == |states| && forall i :: 0 <= i < |workers| ==> workers[i].results == states[i].results
    ensures ResultsOf(workers) == Merged(states)
  {
    if workers != [] { FieldsAreMerged(workers[..|workers| - 1], states[..|states| - 1]); }
  }

  // What Summarise computes from such workers is a summary of that state, so all
  // that follows holds of it.
  lemma SummariesAgree(workers: seq<Workers.Worker>, t: System, connModel: string, s: Summary)
    requires HoldResults(workers, t)
    ensures Summarises(t, connModel, s) <==>
            IsSummary(ResultsOf(workers), ElapsedOf(ResultsOf(workers)), connModel, s)
  {
    hide IsSummary, ElapsedOf;
    FieldsAreMerged(workers, t.workers);
  }

  // ----- what every run's summary guarantees

  lemma WorkerOf(setup: Setup, t: System, w: Protocol.Worker)
    requires Reaches(setup, t) && w in t.workers
    ensures WorkerInv(setup.model, w, t.clock)
  {
    ReachesInv(setup, t);
    var i :| 0 <= i < |t.workers| && t.workers[i] == w;
  }

  lemma MergedTimed(setup: Setup, t: System, r: Result)
    requires Reaches(setup, t) && r in Merged(t.workers)
    ensures Timed(r) && r.end <= MAX
  {
    MergedHolds(t.workers, r);
    var w :| w in t.workers && r in w.results;
    WorkerOf(setup, t, w);
    var k :| 0 <= k < |w.results| && w.results[k] == r;
  }

  // Every successful duration a run records is a non-negative int64.
  lemma RunDurations(setup: Setup, t: System)
    requires Reaches(setup, t)
    ensures forall r | r in Merged(t.workers) && r.err.None? :: 0 <= r.total <= MAX
  {
    forall r | r in Merged(t.workers) && r.err.None? ensures 0 <= r.total <= MAX {
      MergedTimed(setup, t, r);
    }
  }

  lemma ElapsedOfRun(setup: Setup, t: System)
    requires Reaches(setup, t) && Merged(t.workers) != []
    ensures var results := Merged(t.workers);
            0 <= ElapsedOf(results) == Latest(results) - Earliest(results)
  {
    var results := Merged(t.workers);
    var r := results[0];
    assert r in results;
    WithinElapsed(results, r);
    MergedTimed(setup, t, r);
    forall q | q in results ensures 0 <= q.start && q.end <= MAX { MergedTimed(setup, t, q); }
    ExtremesAttained(results);
  }

  lemma ExtremesAttained(results: seq<Result>)
    requires results != [] && forall q | q in results :: 0 <= q.start && q.end <= MAX
    ensures 0 <= Earliest(results) && Latest(results) <= MAX
  {
    var starts, ends := Apply(results, StartOf()), Apply(results, EndOf());
    var i :| 0 <= i < |starts| && starts[i] == MinOf(starts);
    var j :| 0 <= j < |ends| && ends[j] == MaxOf(ends);
    assert results[i] in results && results[j] in results;
  }

  lemma WorkerWithinElapsed(setup: Setup, t: System, w: Protocol.Worker)
    requires Reaches(setup, t) && w in t.workers
    ensures 0 <= SumBy(w.results, SuccessTime()) <= ElapsedOf(Merged(t.workers))
  {
    hide ElapsedOf, Merged, SuccessTime;
    WorkerOf(setup, t, w);
    WorkerBusyTime(w.results);
    if w.results == [] {
      ElapsedNonNegative(setup, t);
    } else {
      var first, last := w.results[0], w.results[|w.results| - 1];
      assert first in w.results && last in w.results;
      MergedHolds(t.workers, first);
      MergedHolds(t.workers, last);
      ElapsedOfRun(setup, t);
      WithinElapsed(Merged(t.workers), first);
      WithinElapsed(Merged(t.workers), last);
    }
  }

  lemma ElapsedNonNegative(setup: Setup, t: System)
    requires Reaches(setup, t)
    ensures 0 <= ElapsedOf(Merged(t.workers))
  {
    if Merged(t.workers) != [] { ElapsedOfRun(setup, t); }
  }

  lemma SeriesSumIsBusyTime(results: seq<Result>)
    ensures Sum(Series(results, TotalOf())) == SumBy(results, SuccessTime())
  {
    SeriesSum(Filter(results, Succeeded()), TotalOf());
    SumFilter(results, Succeeded(), TotalOf(), SuccessTime());
  }

  // Little's law: over any schedule of any connection model, the successful
  // calls together take at most the number of workers times the elapsed time,
  // and so does the reported mean times its count.
  lemma LittlesLaw(setup: Setup, t: System, connModel: string, s: Summary)
    requires Reaches(setup, t) && Summarises(t, connModel, s)
    ensures 0 <= Sum(Series(Merged(t.workers), TotalOf())) <= setup.workers * s.elapsed
    ensures s.total.mean * s.total.count <= setup.workers * s.elapsed
  {
    hide ElapsedOf, Merged, SuccessTime, StatsOf, Sort;
    ReachesInv(setup, t);
    var results, elapsed := Merged(t.workers), ElapsedOf(Merged(t.workers));
    forall w | w in t.workers ensures 0 <= WorkerSum(SuccessTime())(w) <= elapsed {
      WorkerWithinElapsed(setup, t, w);
    }
    SumBetween(t.workers, WorkerSum(SuccessTime()), 0, elapsed);
    MergedSum(t.workers, SuccessTime());
    SeriesSumIsBusyTime(results);
    MeanTimesCount(Series(results, TotalOf()));
  }

  // From call to answer, for a success.
  function CallTime(): Attempt -> int {
    (a: Attempt) => if a.Called? && a.reply.Success? then a.end - a.start else 0
  }

  function ServerTime(): Attempt -> int {
    (a: Attempt) => if a.Called? && a.reply.Success? then a.reply.serverNs else 0
  }

  function SuccessServer(): Result -> int {
    (r: Result) => if r.err.None? then r.serverNs else 0
  }

  function Fails(): Attempt -> bool {
    (a: Attempt) => !(a.Called? && a.reply.Success?)
  }

  // A run's summary adds up what happened: it counts the kept attempts, and the
  // failures among them; the durations of its series sum to the times between
  // the call and the answer of every success that was judged, and the server
  // times to those in the replies.
  lemma SummaryTellsRun(setup: Setup, s0: System, steps: seq<Step>, connModel: string, s: Summary)
    requires Initial(setup, s0) && Run(setup, s0, steps).Some?
    requires Summarises(Run(setup, s0, steps).value, connModel, s)
    ensures var all := AllAttempts(setup, s0, steps, setup.workers);
            var results := Merged(Run(setup, s0, steps).value.workers);
            && s.count == SumBy(all, One(IsKept()))
            && s.errorCount == SumBy(all, IfKept(One(Fails())))
            && Sum(Series(results, TotalOf())) == SumBy(all, CallTime())
            && Sum(Series(results, ServerOf())) == SumBy(all, ServerTime())
  {
    hide Merged, AllAttempts, ElapsedOf, StatsOf, Sort, Run, IsBackends, IsStatusCodes;
    var all := AllAttempts(setup, s0, steps, setup.workers);
    var results := Merged(Run(setup, s0, steps).value.workers);
    AttemptSums(setup, s0, steps);
    SumOfUnits(results);
    SeriesSumIsBusyTime(results);
    SeriesSum(Filter(results, Succeeded()), ServerOf());
    SumFilter(results, Succeeded(), ServerOf(), SuccessServer());
    FilterLength(results, Failed());
    SameSums(all, IfKept(AnyAttempt()), One(IsKept()));
    SameSums(all, IfKept(CallTime()), CallTime());
    SameSums(all, IfKept(ServerTime()), ServerTime());
  }

  function AnyAttempt(): Attempt -> int {
    (a: Attempt) => 1
  }

  lemma AttemptSums(setup: Setup, s0: System, steps: seq<Step>)
    requires Initial(setup, s0) && Run(setup, s0, steps).Some?
    ensures var all := AllAttempts(setup, s0, steps, setup.workers);
            var results := Merged(Run(setup, s0, steps).value.workers);
            && SumBy(results, Unit()) == SumBy(all, IfKept(AnyAttempt()))
            && SumBy(results, One(Failed())) == SumBy(all, IfKept(One(Fails())))
            && SumBy(results, SuccessTime()) == SumBy(all, IfKept(CallTime()))
            && SumBy(results, SuccessServer()) == SumBy(all, IfKept(ServerTime()))
  {
    hide Merged, AllAttempts, Run, SumBy;
    MergedTold(setup, s0, steps, Unit(), AnyAttempt());
    MergedTold(setup, s0, steps, One(Failed()), One(Fails()));
    MergedTold(setup, s0, steps, SuccessTime(), CallTime());
    MergedTold(setup, s0, steps, SuccessServer(), ServerTime());
  }

  // With server times that are int64 and not negative, every order statistic of
  // the network times is at most that of the totals. As long as workers times
  // elapsed fits an int64 the accumulator of a run's durations never wraps: then
  // the mean is the exact one, and the network mean is at most the total mean.
  lemma RunFigures(setup: Setup, t: System, connModel: string, s: Summary)
    requires Reaches(setup, t) && Summarises(t, connModel, s)
    ensures setup.workers * s.elapsed <= MAX && s.total.count > 0 ==>
              s.total.mean == Quot(Sum(Series(Merged(t.workers), TotalOf())), s.total.count)
    ensures (forall r | r in Merged(t.workers) && r.err.None? :: 0 <= r.serverNs <= MAX) ==>
              && (setup.workers * s.elapsed <= MAX ==> s.network.mean <= s.total.mean)
              && s.network.min <= s.total.min && s.network.max <= s.total.max
              && s.network.p50 <= s.total.p50 && s.network.p90 <= s.total.p90 && s.network.p99 <= s.total.p99
  {
    hide Merged, ElapsedOf, StatsOf, Sort, IsBackends, IsStatusCodes, Reaches;
    var results := Merged(t.workers);
    var totals := Series(results, TotalOf());
    LittlesLaw(setup, t, connModel, s);
    StatsCount(totals);
    if totals != [] && Fits(Sum(totals)) { MeanOfSeries(totals); }
    RunDurations(setup, t);
    if forall r | r in results && r.err.None? :: 0 <= r.serverNs <= MAX {
      NetworkDominatedByTotal(results, ElapsedOf(results), connModel, s);
    }
  }

  // The summary has a line for a cancellation code if and only if opening a
  // source or acquiring a connection failed with that code and was recorded.
  lemma CancellationLines(setup: Setup, t: System, connModel: string, s: Summary, code: nat)
    requires Reaches(setup, t) && Summarises(t, connModel, s) && (code == CANCELED || code == DEADLINE_EXCEEDED)
    ensures (exists line :: line in s.errors && line.code == code) <==>
            (exists w, r :: w in t.workers && r in w.results && r.err.Some?
               && r.err.value.code == code && r.err.value.stage != Calling)
  {
    hide Merged, ElapsedOf, IsCancellation, IsStatusCodes, IsBackends, StatsOf, Sort, Reaches;
    var results := Merged(t.workers);
    CodeListedIff(results, s.errors, code);
    if r :| r in results && r.err.Some? && r.err.value.code == code {
      MergedHolds(t.workers, r);
      var w :| w in t.workers && r in w.results;
      CancelledStage(setup, t, w, r);
    }
    if w, r :| w in t.workers && r in w.results && r.err.Some? && r.err.value.code == code {
      MergedHolds(t.workers, r);
    }
  }

  lemma CancelledStage(setup: Setup, t: System, w: Protocol.Worker, r: Result)
    requires Reaches(setup, t) && w in t.workers && r in w.results && r.err.Some?
    requires r.err.value.code == CANCELED || r.err.value.code == DEADLINE_EXCEEDED
    ensures r.err.value.stage != Calling
  {
    hide Reaches;
    WorkerOf(setup, t, w);
    assert HonestError(r);
    CancellationCodes(r.err.value);
  }

  lemma CancellationCodes(e: Error)
    ensures e.code == CANCELED || e.code == DEADLINE_EXCEEDED ==> IsCancellation(e)
  {
  }

  function Answered(): Protocol.Worker -> int {
    (w: Protocol.Worker) => w.answered
  }

  // The summary counts every recorded attempt and, once the run is over, every
  // call that succeeded; it misses at most one attempt per worker.
  lemma SummaryAccounting(setup: Setup, t: System, connModel: string, s: Summary)
    requires Reaches(setup, t) && Summarises(t, connModel, s)
    ensures s.count == SumBy(t.workers, RecordCount())
    ensures s.count <= SumBy(t.workers, AttemptCount()) <= s.count + setup.workers
    ensures t.finished ==> s.total.count == SumBy(t.workers, Answered())
  {
    hide Merged, ElapsedOf, StatsOf, Sort;
    var results := Merged(t.workers);
    CallAccounting(setup, t);
    MergedSum(t.workers, Unit());
    SumOfUnits(results);
    forall w | w in t.workers ensures WorkerSum(Unit())(w) == RecordCount()(w) { SumOfUnits(w.results); }
    SameSums(t.workers, WorkerSum(Unit()), RecordCount());
    if t.finished {
      StatsCount(Series(results, TotalOf()));
      FilterLength(results, Succeeded());
      AnsweredAreRecorded(setup, t);
    }
  }

  lemma AnsweredAreRecorded(setup: Setup, t: System)
    requires Reaches(setup, t) && t.finished
    ensures SumBy(Merged(t.workers), One(Succeeded())) == SumBy(t.workers, Answered())
  {
    hide Merged, Reaches, OwnershipInv, DialsInv;
    WonAreSuccesses(Merged(t.workers));
    MergedSum(t.workers, One(Won()));
    ReachesInv(setup, t);
    forall w | w in t.workers ensures WorkerSum(One(Won()))(w) == Answered()(w) {
      WorkerOf(setup, t, w);
      assert w.pc.Done?;
    }
    SameSums(t.workers, WorkerSum(One(Won())), Answered());
  }

  lemma SameSums<T>(s: seq<T>, f: T -> int, g: T -> int)
    requires forall x :: x in s ==> f(x) == g(x)
    ensures SumBy(s, f) == SumBy(s, g)
  {
    SumMono(s, f, g);
    SumMono(s, g, f);
  }

  lemma WonAreSuccesses(results: seq<Result>)
    ensures SumBy(results, One(Won())) == SumBy(results, One(Succeeded()))
  {
    SameSums(results, One(Won()), One(Succeeded()));
  }

  function Multiplicity(r: Result): Protocol.Worker -> int {
    (w: Protocol.Worker) => multiset(w.results)[r]
  }

  lemma {:induction false} MergedMultiplicity(workers: seq<Protocol.Worker>, r: Result)
    ensures multiset(Merged(workers))[r] == SumBy(workers, Multiplicity(r))
  {
    if workers != [] { MergedMultiplicity(workers[..|workers| - 1], r); }
  }

  lemma ReorderedWorkers(a: seq<Protocol.Worker>, b: seq<Protocol.Worker>)
    requires Permutes(a, b)
    ensures Permutes(Merged(a), Merged(b))
  {
    forall r: Result ensures multiset(Merged(a))[r] == multiset(Merged(b))[r] {
      MergedMultiplicity(a, r);
      MergedMultiplicity(b, r);
      SumPermutation(a, b, Multiplicity(r));
    }
  }

  // Whatever order the workers are joined and merged in, the summary of the run
  // is the same, when no key string has two sources.
  lemma MergeOrderIrrelevant(t: System, u: System, connModel: string, s: Summary, v: Summary)
    requires Permutes(t.workers, u.workers) && OneSourcePerKey(Merged(t.workers))
    requires Summarises(t, connModel, s) && Summarises(u, connModel, v)
    ensures s == v
  {
    hide IsSummary, ElapsedOf, OneSourcePerKey;
    ReorderedWorkers(t.workers, u.workers);
    ScheduleIndependence(Merged(t.workers), Merged(u.workers), connModel, s, v);
  }
}
