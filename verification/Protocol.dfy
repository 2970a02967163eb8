// The run as an interleaved step system: N workers over one connection pool,
// one context and one clock. A worker's step is a function of an event that
// carries everything the outside decides: dial and call outcomes, the context,
// the clock and the random draw.
module Protocol {
  import opened Wrappers
  import opened Int64
  import opened Records
  import opened Sampler

  datatype ConnModel = PerWorker | Shared | PerRequest

  type Conn = nat

  // What every worker is built with; limit is the most bytes that the platform
  // allocates at once.
  datatype Setup = Setup(model: ConnModel, selector: Selector, sizes: Sizes, workers: nat, limit: nat)

  // ----- one call and what is recorded of it

  datatype Reply =
    | Failure(error: Error, peer: string)
    | Success(serverNs: int, podName: string, podHostname: string, upstreamMs: Option<int>, peer: string)

  const NS_PER_MS: int := 1000000

  // The result of a call from start to end.
  function RecordOf(start: int, end: int, reply: Reply): Result {
    match reply
    case Failure(e, peer) =>
      Result(start, end, Saturate(end - start), 0, 0, false, "", "", peer, Some(e))
    case Success(serverNs, pod, host, upstream, peer) =>
      Result(start, end, Saturate(end - start), serverNs,
             if upstream.Some? then Wrap(upstream.value * NS_PER_MS) else 0, upstream.Some?,
             pod, host, peer, None)
  }

  // The header's milliseconds become nanoseconds exactly when those fit an int64.
  lemma UpstreamExactIff(start: int, end: int, reply: Reply)
    requires reply.Success? && reply.upstreamMs.Some?
    ensures RecordOf(start, end, reply).hasUpstream
    ensures RecordOf(start, end, reply).upstreamNs == reply.upstreamMs.value * NS_PER_MS <==>
            Fits(reply.upstreamMs.value * NS_PER_MS)
  {
    assert Fits(Wrap(reply.upstreamMs.value * NS_PER_MS));
  }

  // A header of MaxInt64 milliseconds is recorded as minus one millisecond.
  lemma HugeUpstream(start: int, end: int)
    ensures RecordOf(start, end, Success(0, "", "", Some(MAX), "")).upstreamNs == -NS_PER_MS
  {
    assert MAX * NS_PER_MS == -NS_PER_MS + 500000 * SPAN;
    assert Wrap(MAX * NS_PER_MS) == -NS_PER_MS;
  }

  // The result of a failure before any call.
  function RecordFailure(now: int, e: Error): Result {
    Result(now, now, 0, 0, 0, false, "", "", "", Some(e))
  }

  function OpeningError(e: Error): Error {
    WrapError(OpeningSource, "opening conn source: ", e)
  }

  function AcquiringError(e: Error): Error {
    WrapError(AcquiringConn, "acquiring conn: ", e)
  }

  // ----- a worker

  datatype Pc =
    | Start                                                       // before NewSource
    | LoopHead                                                    // about to ask the context
    | Acquiring
    | AcquireFailed(error: Error)                                 // about to ask the context again
    | Holding(conn: Conn)                                         // about to call
    | InCall(conn: Conn, start: int, request: Request)
    | Returned(conn: Conn, start: int, end: int, reply: Reply)    // about to record or drop
    | Releasing(conn: Conn, dropped: bool)
    | Closing                                                     // the deferred source close
    | Done

  // What became of an attempt: an Acquire, or a NewSource that failed.
  datatype Fate = Pending | Recorded | Lost

  // results is the program's field; fates, issued and answered are history.
  datatype Worker = Worker(
    pc: Pc, source: Option<Conn>, results: seq<Result>,
    fates: seq<Fate>, issued: nat, answered: nat)

  const FRESH_WORKER := Worker(Start, None, [], [], 0, 0)

  datatype Event =
    | NewSource(given: Outcome<Conn, Error>, now: int)
    | CheckContext(done: bool)
    | Acquire(dialed: Outcome<Conn, Error>)
    | JudgeAcquire(done: bool, now: int)
    | Call(now: int, draw: int)
    | Answer(now: int, reply: Reply)
    | JudgeCall(done: bool)
    | Release
    | CloseSource

  function Settle(fates: seq<Fate>, fate: Fate): seq<Fate> {
    if fates == [] then [] else fates[|fates| - 1 := fate]
  }

  // A failed call is dropped when the run is over or the failure says so.
  predicate Dropped(reply: Reply, done: bool) {
    reply.Failure? && (done || IsCancellation(reply.error))
  }

  function StepWorker(setup: Setup, w: Worker, ev: Event): Option<Worker> {
    match (w.pc, ev)
    case (Start, NewSource(given, now)) =>
      (match setup.model
       case PerRequest => Some(w.(pc := LoopHead))
       case _ =>
         match given
         case Ok(c) => Some(w.(pc := LoopHead, source := Some(c)))
         case Err(e) =>
           Some(w.(pc := Done, results := w.results + [RecordFailure(now, OpeningError(e))],
                   fates := w.fates + [Recorded])))
    case (LoopHead, CheckContext(done)) =>
      Some(w.(pc := if done then Closing else Acquiring))
    case (Acquiring, Acquire(dialed)) =>
      var tried := w.(fates := w.fates + [Pending]);
      if setup.model != PerRequest then
        (if w.source.Some? then Some(tried.(pc := Holding(w.source.value))) else None)
      else
        (match dialed
         case Ok(c) => Some(tried.(pc := Holding(c)))
         case Err(e) => Some(tried.(pc := AcquireFailed(e))))
    case (AcquireFailed(e), JudgeAcquire(done, now)) =>
      if done then Some(w.(pc := Closing, fates := Settle(w.fates, Lost)))
      else
        Some(w.(pc := LoopHead, results := w.results + [RecordFailure(now, AcquiringError(e))],
                fates := Settle(w.fates, Recorded)))
    case (Holding(c), Call(now, draw)) =>
      (match RequestFor(setup.selector, setup.sizes, setup.limit, draw)
       case None => None
       case Some(request) => Some(w.(pc := InCall(c, now, request), issued := w.issued + 1)))
    case (InCall(c, start, _), Answer(now, reply)) =>
      Some(w.(pc := Returned(c, start, now, reply), answered := w.answered + (if reply.Success? then 1 else 0)))
    case (Returned(c, start, end, reply), JudgeCall(done)) =>
      if Dropped(reply, done) then Some(w.(pc := Releasing(c, true), fates := Settle(w.fates, Lost)))
      else
        Some(w.(pc := Releasing(c, false), results := w.results + [RecordOf(start, end, reply)],
                fates := Settle(w.fates, Recorded)))
    case (Releasing(_, dropped), Release) =>
      Some(w.(pc := if dropped then Closing else LoopHead))
    case (Closing, CloseSource) =>
      Some(w.(pc := Done, source := if setup.model == PerWorker then None else w.source))
    case _ => None
  }

  // What a step does to connections.
  datatype Effect = NoEffect | Opens(conn: Conn) | Closes(conn: Conn)

  function EffectOf(setup: Setup, w: Worker, ev: Event): Effect {
    match (w.pc, ev)
    case (Start, NewSource(Ok(c), _)) => if setup.model == PerWorker then Opens(c) else NoEffect
    case (Acquiring, Acquire(Ok(c))) => if setup.model == PerRequest then Opens(c) else NoEffect
    case (Releasing(c, _), Release) => if setup.model == PerRequest then Closes(c) else NoEffect
    case (Closing, CloseSource) =>
      if setup.model == PerWorker && w.source.Some? then Closes(w.source.value) else NoEffect
    case _ => NoEffect
  }

  // The connection the worker's current call runs on.
  function InUse(w: Worker): Option<Conn> {
    match w.pc
    case Holding(c) => Some(c)
    case InCall(c, _, _) => Some(c)
    case Returned(c, _, _, _) => Some(c)
    case Releasing(c, _) => Some(c)
    case _ => None
  }

  // The connection the worker is responsible for closing.
  function Owned(model: ConnModel, w: Worker): Option<Conn> {
    match model
    case PerWorker => w.source
    case PerRequest => InUse(w)
    case Shared => None
  }

  // ----- the whole run

  // closes[c] is how often connection c has been closed; zero means open.
  datatype System = System(
    clock: int, contextDone: bool, closes: seq<nat>, workers: seq<Worker>, finished: bool)

  datatype Step =
    | Tick(to: int)
    | Cancel
    | Act(worker: nat, event: Event)
    | ClosePool

  // The shared pool's connection is the first one dialed.
  const POOL_CONN: Conn := 0

  ghost predicate Initial(setup: Setup, s: System) {
    && 0 <= s.clock <= MAX && !s.finished
    && s.closes == (if setup.model == Shared then [0] else [])
    && |s.workers| == setup.workers
    && forall w :: w in s.workers ==> w == FRESH_WORKER
  }

  // The event reports what the context, the clock, the dialer and the random
  // source can report in this state. A newly dialed connection is a new one.
  predicate Observes(setup: Setup, s: System, ev: Event) {
    match ev
    case NewSource(given, now) =>
      && now == s.clock
      && (match setup.model
          case PerWorker => given.Ok? ==> given.value == |s.closes|
          case Shared => given == Ok(POOL_CONN)
          case PerRequest => true)
    case CheckContext(done) => done == s.contextDone
    case Acquire(dialed) => setup.model == PerRequest && dialed.Ok? ==> dialed.value == |s.closes|
    case JudgeAcquire(done, now) => done == s.contextDone && now == s.clock
    case Call(now, draw) => now == s.clock && LegalDraw(setup.selector, draw)
    case Answer(now, reply) => now == s.clock && (reply.Failure? ==> reply.error.stage == Calling)
    case JudgeCall(done) => done == s.contextDone
    case Release => true
    case CloseSource => true
  }

  function ApplyEffect(closes: seq<nat>, effect: Effect): seq<nat> {
    match effect
    case NoEffect => closes
    case Opens(_) => closes + [0]
    case Closes(c) => if c < |closes| then closes[c := closes[c] + 1] else closes
  }

  predicate AllDone(workers: seq<Worker>) {
    forall w :: w in workers ==> w.pc.Done?
  }

  // The next state, when the step can be taken.
  function Advance(setup: Setup, s: System, step: Step): Option<System> {
    match step
    case Tick(to) => if s.clock <= to <= MAX then Some(s.(clock := to)) else None
    case Cancel => Some(s.(contextDone := true))
    case Act(i, ev) =>
      if i >= |s.workers| || !Observes(setup, s, ev) then None
      else
        (match StepWorker(setup, s.workers[i], ev)
         case None => None
         case Some(w) =>
           Some(s.(workers := s.workers[i := w],
                   closes := ApplyEffect(s.closes, EffectOf(setup, s.workers[i], ev)))))
    case ClosePool =>
      if s.finished || !AllDone(s.workers) then None
      else
        Some(s.(finished := true,
                closes := if setup.model == Shared then ApplyEffect(s.closes, Closes(POOL_CONN)) else s.closes))
  }

  // Any schedule: a sequence of steps, all of which can be taken.
  function Run(setup: Setup, s: System, steps: seq<Step>): Option<System> {
    if steps == [] then Some(s)
    else
      match Run(setup, s, steps[..|steps| - 1])
      case None => None
      case Some(t) => Advance(setup, t, steps[|steps| - 1])
  }

  ghost predicate Reaches(setup: Setup, s: System) {
    exists s0, steps :: Initial(setup, s0) && Run(setup, s0, steps) == Some(s)
  }
}
