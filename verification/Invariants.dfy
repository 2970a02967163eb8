// What every step of every worker keeps, and what every step of the system
// keeps about connections.
module Invariants {
  import opened Wrappers
  import opened Int64
  import opened Folds
  import opened Records
  import opened Sampler
  import opened Protocol

  // ----- one worker: where its connection comes from

  ghost predicate SourceInv(model: ConnModel, w: Worker) {
    match model
    case PerRequest => w.source.None?
    case PerWorker =>
      && (w.source.None? <==> w.pc.Start? || w.pc.Done?)
      && (InUse(w).Some? ==> InUse(w) == w.source)
    case Shared =>
      && (w.source.Some? ==> w.source.value == POOL_CONN)
      && (w.source.None? ==> w.pc.Start?)
      && (InUse(w).Some? ==> InUse(w) == w.source)
  }

  // ----- one worker: every attempt but the last is recorded

  predicate Undecided(pc: Pc) {
    pc.AcquireFailed? || pc.Holding? || pc.InCall? || pc.Returned?
  }

  ghost predicate LastIs(fates: seq<Fate>, fate: Fate) {
    fates != [] && fates[|fates| - 1] == fate
  }

  // n results stand for the recorded attempts, and only the last attempt may be
  // unrecorded.
  ghost predicate FatesMatch(fates: seq<Fate>, n: nat) {
    && (forall k :: 0 <= k < |fates| - 1 ==> fates[k] == Recorded)
    && n == (if fates != [] && !LastIs(fates, Recorded) then |fates| - 1 else |fates|)
  }

  ghost predicate FatesInv(w: Worker) {
    && FatesMatch(w.fates, |w.results|)
    && (Undecided(w.pc) <==> LastIs(w.fates, Pending))
    && (LastIs(w.fates, Lost) ==> w.pc.Closing? || w.pc.Done? || (w.pc.Releasing? && w.pc.dropped))
  }

  lemma FateTried(fates: seq<Fate>, n: nat)
    requires FatesMatch(fates, n) && !LastIs(fates, Pending) && !LastIs(fates, Lost)
    ensures FatesMatch(fates + [Pending], n) && LastIs(fates + [Pending], Pending)
    ensures FatesMatch(fates + [Recorded], n + 1) && LastIs(fates + [Recorded], Recorded)
  {
  }

  lemma FateSettled(fates: seq<Fate>, n: nat)
    requires FatesMatch(fates, n) && LastIs(fates, Pending)
    ensures FatesMatch(Settle(fates, Recorded), n + 1) && LastIs(Settle(fates, Recorded), Recorded)
    ensures FatesMatch(Settle(fates, Lost), n) && LastIs(Settle(fates, Lost), Lost)
  {
  }

  // ----- one worker: successful calls are all recorded, cancelled ones never

  function Won(): Result -> bool {
    (r: Result) => r.err.None?
  }

  // Each failure is the kind of failure its stage can record.
  predicate HonestError(r: Result) {
    r.err.Some? && r.err.value.stage == Calling ==> !IsCancellation(r.err.value)
  }

  ghost predicate OutcomesInv(w: Worker) {
    && SumBy(w.results, One(Won())) == w.answered - (if w.pc.Returned? && w.pc.reply.Success? then 1 else 0)
    && (forall r :: r in w.results ==> HonestError(r))
    && (w.pc.Returned? && w.pc.reply.Failure? ==> w.pc.reply.error.stage == Calling)
  }

  // ----- one worker: recorded intervals are disjoint and in time order

  // The instant before which everything recorded has ended.
  function Horizon(w: Worker, clock: int): int {
    match w.pc
    case InCall(_, start, _) => start
    case Returned(_, start, _, _) => start
    case _ => clock
  }

  ghost predicate Timed(r: Result) {
    0 <= r.start <= r.end && (r.err.None? ==> r.total == r.end - r.start)
  }

  ghost predicate InOrder(results: seq<Result>) {
    && (forall k :: 0 <= k < |results| ==> Timed(results[k]))
    && (forall k, l :: 0 <= k < l < |results| ==> results[k].end <= results[l].start)
  }

  ghost predicate TimeInv(w: Worker, clock: int) {
    && 0 <= Horizon(w, clock) <= clock <= MAX
    && (w.pc.Returned? ==> w.pc.start <= w.pc.end <= clock)
    && InOrder(w.results)
    && forall k :: 0 <= k < |w.results| ==> w.results[k].end <= Horizon(w, clock)
  }

  ghost predicate WorkerInv(model: ConnModel, w: Worker, clock: int) {
    SourceInv(model, w) && FatesInv(w) && OutcomesInv(w) && TimeInv(w, clock)
  }

  lemma FreshWorkerInv(model: ConnModel, clock: int)
    requires 0 <= clock <= MAX
    ensures WorkerInv(model, FRESH_WORKER, clock)
  {
  }

  lemma ClockAdvances(w: Worker, clock: int, to: int)
    requires TimeInv(w, clock) && clock <= to <= MAX
    ensures TimeInv(w, to)
  {
  }

  lemma SourceKept(setup: Setup, s: System, w: Worker, ev: Event)
    requires SourceInv(setup.model, w) && Observes(setup, s, ev) && StepWorker(setup, w, ev).Some?
    ensures SourceInv(setup.model, StepWorker(setup, w, ev).value)
  {
  }

  lemma FatesKept(setup: Setup, w: Worker, ev: Event)
    requires FatesInv(w) && StepWorker(setup, w, ev).Some?
    ensures FatesInv(StepWorker(setup, w, ev).value)
  {
    hide RequestFor, RecordOf, RecordFailure, FatesMatch, Settle, Dropped;
    if LastIs(w.fates, Pending) {
      FateSettled(w.fates, |w.results|);
    } else if !LastIs(w.fates, Lost) {
      FateTried(w.fates, |w.results|);
    }
  }

  lemma WrappedStages()
    ensures forall e: Error :: OpeningError(e).stage != Calling && AcquiringError(e).stage != Calling
  {
  }

  lemma OutcomesKept(setup: Setup, s: System, w: Worker, ev: Event)
    requires OutcomesInv(w) && Observes(setup, s, ev) && StepWorker(setup, w, ev).Some?
    ensures OutcomesInv(StepWorker(setup, w, ev).value)
  {
    hide SumBy, RequestFor, Settle, Saturate, Wrap, OpeningError, AcquiringError;
    WrappedStages();
    var w' := StepWorker(setup, w, ev).value;
    if w'.results != w.results {
      var r := w'.results[|w'.results| - 1];
      assert w'.results == w.results + [r];
      SumAppend(w.results, r, One(Won()));
    }
  }

  lemma TimeKept(setup: Setup, s: System, w: Worker, ev: Event)
    requires TimeInv(w, s.clock) && Observes(setup, s, ev) && StepWorker(setup, w, ev).Some?
    ensures TimeInv(StepWorker(setup, w, ev).value, s.clock)
  {
    hide RequestFor, Wrap;
  }

  lemma WorkerKept(setup: Setup, s: System, w: Worker, ev: Event)
    requires WorkerInv(setup.model, w, s.clock) && Observes(setup, s, ev) && StepWorker(setup, w, ev).Some?
    ensures WorkerInv(setup.model, StepWorker(setup, w, ev).value, s.clock)
  {
    hide StepWorker, SourceInv, FatesInv, OutcomesInv, TimeInv, Observes;
    SourceKept(setup, s, w, ev);
    FatesKept(setup, w, ev);
    OutcomesKept(setup, s, w, ev);
    TimeKept(setup, s, w, ev);
  }

  // ----- connections

  function IsOpen(): nat -> bool {
    n => n == 0
  }

  function OpenCount(closes: seq<nat>): int {
    SumBy(closes, One(IsOpen()))
  }

  function Owns(model: ConnModel): Worker -> bool {
    (w: Worker) => Owned(model, w).Some?
  }

  // Each owned connection is open and has one owner; no connection has been
  // closed twice; every open one is accounted for.
  ghost predicate OwnershipInv(model: ConnModel, workers: seq<Worker>, closes: seq<nat>, poolHolds: bool) {
    && (forall i :: 0 <= i < |workers| && Owned(model, workers[i]).Some? ==>
          Owned(model, workers[i]).value < |closes| && closes[Owned(model, workers[i]).value] == 0)
    && (forall i, j :: 0 <= i < j < |workers| && Owned(model, workers[i]).Some? ==>
          Owned(model, workers[i]) != Owned(model, workers[j]))
    && (forall c :: 0 <= c < |closes| ==> closes[c] <= 1)
    && OpenCount(closes) == SumBy(workers, One(Owns(model))) + (if poolHolds then 1 else 0)
  }

  // A step that opens gains exactly that connection, a step that closes gives
  // up exactly that one, and any other leaves ownership alone.
  lemma OwnershipFollowsEffect(setup: Setup, s: System, w: Worker, ev: Event)
    requires SourceInv(setup.model, w) && Observes(setup, s, ev) && StepWorker(setup, w, ev).Some?
    ensures var w' := StepWorker(setup, w, ev).value;
            match EffectOf(setup, w, ev)
            case NoEffect => Owned(setup.model, w') == Owned(setup.model, w)
            case Opens(c) => c == |s.closes| && Owned(setup.model, w) == None && Owned(setup.model, w') == Some(c)
            case Closes(c) => Owned(setup.model, w) == Some(c) && Owned(setup.model, w') == None
  {
  }

  lemma OwnersUpdate(model: ConnModel, workers: seq<Worker>, i: nat, w: Worker)
    requires i < |workers|
    ensures SumBy(workers[i := w], One(Owns(model))) ==
            SumBy(workers, One(Owns(model))) - (if Owned(model, workers[i]).Some? then 1 else 0)
            + (if Owned(model, w).Some? then 1 else 0)
  {
    SumUpdate(workers, i, w, One(Owns(model)));
  }

  lemma OwnershipUnchanged(model: ConnModel, workers: seq<Worker>, closes: seq<nat>, p: bool, i: nat, w: Worker)
    requires OwnershipInv(model, workers, closes, p) && i < |workers|
    requires Owned(model, w) == Owned(model, workers[i])
    ensures OwnershipInv(model, workers[i := w], closes, p)
  {
    hide Owned, OpenCount;
    OwnersUpdate(model, workers, i, w);
  }

  lemma OwnershipOpened(model: ConnModel, workers: seq<Worker>, closes: seq<nat>, p: bool, i: nat, w: Worker)
    requires OwnershipInv(model, workers, closes, p) && i < |workers|
    requires Owned(model, workers[i]) == None && Owned(model, w) == Some(|closes|)
    ensures OwnershipInv(model, workers[i := w], closes + [0], p)
  {
    hide Owned;
    OwnersUpdate(model, workers, i, w);
    SumAppend(closes, 0, One(IsOpen()));
  }

  lemma OwnershipClosed(model: ConnModel, workers: seq<Worker>, closes: seq<nat>, p: bool, i: nat, w: Worker, c: Conn)
    requires OwnershipInv(model, workers, closes, p) && i < |workers|
    requires Owned(model, workers[i]) == Some(c) && Owned(model, w) == None
    ensures c < |closes| && OwnershipInv(model, workers[i := w], closes[c := closes[c] + 1], p)
  {
    hide Owned;
    OwnersUpdate(model, workers, i, w);
    SumUpdate(closes, c, closes[c] + 1, One(IsOpen()));
  }

  // ----- per request, each dial is for one call

  function Calls(): Worker -> int {
    (w: Worker) => w.issued + (if w.pc.Holding? then 1 else 0)
  }

  ghost predicate DialsInv(setup: Setup, s: System) {
    setup.model == PerRequest ==> |s.closes| == SumBy(s.workers, Calls())
  }

  ghost predicate PoolInv(setup: Setup, s: System) {
    && (setup.model == Shared ==> s.closes == [if s.finished then 1 else 0])
    && (s.finished ==> AllDone(s.workers))
  }

  ghost predicate SystemInv(setup: Setup, s: System) {
    && 0 <= s.clock <= MAX && |s.workers| == setup.workers
    && (forall i :: 0 <= i < |s.workers| ==> WorkerInv(setup.model, s.workers[i], s.clock))
    && OwnershipInv(setup.model, s.workers, s.closes, setup.model == Shared && !s.finished)
    && DialsInv(setup, s) && PoolInv(setup, s)
  }

  lemma InitialInv(setup: Setup, s: System)
    requires Initial(setup, s)
    ensures SystemInv(setup, s)
  {
    FreshWorkerInv(setup.model, s.clock);
    forall i | 0 <= i < |s.workers| ensures s.workers[i] == FRESH_WORKER { assert s.workers[i] in s.workers; }
    SumBetween(s.workers, One(Owns(setup.model)), 0, 0);
    SumBetween(s.workers, Calls(), 0, 0);
    SumAppend([], 0, One(IsOpen()));
  }

  lemma TickKept(setup: Setup, s: System, to: int)
    requires SystemInv(setup, s) && s.clock <= to <= MAX
    ensures SystemInv(setup, s.(clock := to))
  {
    forall i | 0 <= i < |s.workers| ensures WorkerInv(setup.model, s.workers[i], to) {
      ClockAdvances(s.workers[i], s.clock, to);
    }
  }

  lemma PoolClosedKeepsDials(setup: Setup, s: System)
    requires DialsInv(setup, s) && Advance(setup, s, ClosePool).Some?
    ensures DialsInv(setup, Advance(setup, s, ClosePool).value)
  {
    hide SumBy, AllDone;
  }

  lemma ClosePoolKept(setup: Setup, s: System)
    requires SystemInv(setup, s) && Advance(setup, s, ClosePool).Some?
    ensures SystemInv(setup, Advance(setup, s, ClosePool).value)
  {
    hide WorkerInv, DialsInv, SumBy;
    PoolClosedKeepsDials(setup, s);
    if setup.model == Shared {
      SumUpdate(s.closes, POOL_CONN, s.closes[POOL_CONN] + 1, One(IsOpen()));
    }
  }

  lemma ActKeepsOwnership(setup: Setup, s: System, i: nat, ev: Event)
    requires SystemInv(setup, s) && Advance(setup, s, Act(i, ev)).Some?
    ensures var s' := Advance(setup, s, Act(i, ev)).value;
            OwnershipInv(setup.model, s'.workers, s'.closes, setup.model == Shared && !s'.finished)
  {
    hide StepWorker, EffectOf, OwnershipInv, Observes, WorkerInv, DialsInv, PoolInv;
    var w, p := s.workers[i], setup.model == Shared && !s.finished;
    var w' := StepWorker(setup, w, ev).value;
    SourceOf(setup, s, i);
    OwnershipFollowsEffect(setup, s, w, ev);
    match EffectOf(setup, w, ev)
    case NoEffect => OwnershipUnchanged(setup.model, s.workers, s.closes, p, i, w');
    case Opens(c) => OwnershipOpened(setup.model, s.workers, s.closes, p, i, w');
    case Closes(c) => OwnershipClosed(setup.model, s.workers, s.closes, p, i, w', c);
  }

  lemma SourceOf(setup: Setup, s: System, i: nat)
    requires SystemInv(setup, s) && i < |s.workers|
    ensures SourceInv(setup.model, s.workers[i])
  {
  }

  lemma CallsFollowEffect(setup: Setup, w: Worker, ev: Event)
    requires setup.model == PerRequest && StepWorker(setup, w, ev).Some?
    ensures Calls()(StepWorker(setup, w, ev).value) ==
            Calls()(w) + (if EffectOf(setup, w, ev).Opens? then 1 else 0)
  {
  }

  lemma ActKeepsDials(setup: Setup, s: System, i: nat, ev: Event)
    requires SystemInv(setup, s) && Advance(setup, s, Act(i, ev)).Some?
    ensures DialsInv(setup, Advance(setup, s, Act(i, ev)).value)
  {
    if setup.model == PerRequest {
      hide StepWorker, EffectOf, OwnershipInv, Observes, WorkerInv, PoolInv, Calls;
      CallsFollowEffect(setup, s.workers[i], ev);
      SumUpdate(s.workers, i, StepWorker(setup, s.workers[i], ev).value, Calls());
    }
  }

  lemma ActKeepsPool(setup: Setup, s: System, i: nat, ev: Event)
    requires SystemInv(setup, s) && Advance(setup, s, Act(i, ev)).Some?
    ensures PoolInv(setup, Advance(setup, s, Act(i, ev)).value)
  {
    assert s.workers[i] in s.workers;
  }

  lemma ActKept(setup: Setup, s: System, i: nat, ev: Event)
    requires SystemInv(setup, s) && Advance(setup, s, Act(i, ev)).Some?
    ensures SystemInv(setup, Advance(setup, s, Act(i, ev)).value)
  {
    ActKeepsOwnership(setup, s, i, ev);
    ActKeepsDials(setup, s, i, ev);
    ActKeepsPool(setup, s, i, ev);
    hide StepWorker, EffectOf, OwnershipInv, Observes, WorkerInv, PoolInv, DialsInv;
    WorkerKept(setup, s, s.workers[i], ev);
  }

  lemma StepKept(setup: Setup, s: System, step: Step)
    requires SystemInv(setup, s) && Advance(setup, s, step).Some?
    ensures SystemInv(setup, Advance(setup, s, step).value)
  {
    match step
    case Tick(to) => TickKept(setup, s, to);
    case Cancel =>
    case Act(i, ev) => ActKept(setup, s, i, ev);
    case ClosePool => ClosePoolKept(setup, s);
  }

  // Every state of every schedule satisfies the invariant.
  lemma {:induction false} RunInv(setup: Setup, s0: System, steps: seq<Step>)
    requires Initial(setup, s0) && Run(setup, s0, steps).Some?
    ensures SystemInv(setup, Run(setup, s0, steps).value)
  {
    if steps == [] {
      InitialInv(setup, s0);
    } else {
      hide SystemInv, Advance;
      RunInv(setup, s0, steps[..|steps| - 1]);
      StepKept(setup, Run(setup, s0, steps[..|steps| - 1]).value, steps[|steps| - 1]);
    }
  }

  lemma ReachesInv(setup: Setup, s: System)
    requires Reaches(setup, s)
    ensures SystemInv(setup, s)
  {
    var s0, steps :| Initial(setup, s0) && Run(setup, s0, steps) == Some(s);
    RunInv(setup, s0, steps);
  }
}
