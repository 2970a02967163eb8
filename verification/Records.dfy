// What one call leaves behind, and how results are told apart.
module Records {
  import opened Wrappers
  import opened Folds

  const CANCELED: nat := 1
  const DEADLINE_EXCEEDED: nat := 4

  // The step of a worker that an error came out of; in the program it is the
  // prefix put in front of the wrapped error, or none for the call itself.
  datatype Stage = OpeningSource | AcquiringConn | Calling

  // An error as the aggregator sees it: its gRPC status code (Unknown for other
  // errors), the text of Error(), the message reported for it, and whether it
  // wraps one of the two context errors.
  datatype Error = Error(stage: Stage, code: nat, text: string, message: string, contextSignal: bool)

  // fmt.Errorf with %w: the code and the context signal shine through, and the
  // status message becomes the whole text.
  function WrapError(stage: Stage, prefix: string, e: Error): Error {
    Error(stage, e.code, prefix + e.text, prefix + e.text, e.contextSignal)
  }

  predicate IsCancellation(e: Error) {
    e.contextSignal || e.code == CANCELED || e.code == DEADLINE_EXCEEDED
  }

  datatype Result = Result(
    start: int, end: int, total: int,
    serverNs: int, upstreamNs: int, hasUpstream: bool,
    podName: string, podHostname: string, peerAddr: string,
    err: Option<Error>)

  function Succeeded(): Result -> bool {
    (r: Result) => r.err.None?
  }

  function Failed(): Result -> bool {
    (r: Result) => r.err.Some?
  }

  function TotalOf(): Result -> int {
    (r: Result) => r.total
  }

  // The durations of the successful results, in order.
  function Durations(results: seq<Result>): seq<int> {
    Apply(Filter(results, Succeeded()), TotalOf())
  }

  function Unit<T>(): T -> int {
    x => 1
  }

  lemma SumOfUnits<T>(s: seq<T>)
    ensures SumBy(s, Unit()) == |s|
  {
    SumBetween(s, Unit(), 1, 1);
  }

  lemma {:induction false} SuccessesAndFailures(results: seq<Result>)
    ensures |Filter(results, Succeeded())| + |Filter(results, Failed())| == |results|
  {
    if results != [] {
      SuccessesAndFailures(results[..|results| - 1]);
    }
  }

  lemma DurationsAppend(results: seq<Result>, r: Result)
    ensures Durations(results + [r]) == Durations(results) + (if r.err.None? then [r.total] else [])
  {
    FilterAppend(results, r, Succeeded());
    if r.err.None? { ApplyAppend(Filter(results, Succeeded()), r, TotalOf()); }
  }

  // ----- which backend answered

  datatype Source = PodName | Hostname | Peer | Unknown

  function BackendKey(r: Result): (string, Source) {
    if r.podName != "" then (r.podName, PodName)
    else if r.podHostname != "" then (r.podHostname, Hostname)
    else if r.peerAddr != "" then (r.peerAddr, Peer)
    else ("", Unknown)
  }

  // The key is the first name present along the chain, and the source says
  // which; the empty key means there is none.
  lemma KeyIsFirstNamePresent(r: Result)
    ensures var (key, source) := BackendKey(r);
            && (key == "" <==> source == Unknown)
            && (source == Unknown <==> forall n :: n in [r.podName, r.podHostname, r.peerAddr] ==> n == "")
            && (source == PodName <==> r.podName != "")
            && (source == Hostname <==> r.podName == "" && r.podHostname != "")
            && (source == Peer <==> r.podName == "" && r.podHostname == "" && r.peerAddr != "")
            && (source != Unknown ==> key == match source
                                             case PodName => r.podName
                                             case Hostname => r.podHostname
                                             case _ => r.peerAddr)
  {
    var names := [r.podName, r.podHostname, r.peerAddr];
    assert names[0] in names && names[1] in names && names[2] in names;
  }

  function KeyOf(): Result -> string {
    (r: Result) => BackendKey(r).0
  }

  // ----- extremes, kept by a running comparison

  function MaxOf(s: seq<int>): (m: int)
    requires s != []
    ensures m in s && forall x :: x in s ==> x <= m
  {
    if |s| == 1 then s[0]
    else
      var m, last := MaxOf(s[..|s| - 1]), s[|s| - 1];
      assert s == s[..|s| - 1] + [last];
      if last > m then last else m
  }

  function MinOf(s: seq<int>): (m: int)
    requires s != []
    ensures m in s && forall x :: x in s ==> m <= x
  {
    if |s| == 1 then s[0]
    else
      var m, last := MinOf(s[..|s| - 1]), s[|s| - 1];
      assert s == s[..|s| - 1] + [last];
      if last < m then last else m
  }

  lemma ExtremesPermutation(a: seq<int>, b: seq<int>)
    requires a != [] && b != [] && Permutes(a, b)
    ensures MaxOf(a) == MaxOf(b) && MinOf(a) == MinOf(b)
  {
    InPermutation(a, b, MaxOf(a));
    InPermutation(a, b, MaxOf(b));
    InPermutation(a, b, MinOf(a));
    InPermutation(a, b, MinOf(b));
  }
}
