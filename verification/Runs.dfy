// What holds of every schedule of a run.
module Runs {
  import opened Wrappers
  import opened Folds
  import opened Records
  import opened Sampler
  import opened Protocol
  import opened Invariants

  // ----- resource safety

  // In every reachable state, for every connection model: calls run on open
  // connections, at most one connection per worker (one in all when shared) is
  // open, and none has been closed twice; when the run is over, every dialed
  // connection has been closed exactly once.
  lemma ResourceSafety(setup: Setup, s: System)
    requires Reaches(setup, s)
    ensures forall i :: 0 <= i < |s.workers| ==>
              var pc := s.workers[i].pc;
              pc.Holding? || pc.InCall? || pc.Returned? || pc.Releasing? ==>
                pc.conn < |s.closes| && s.closes[pc.conn] == 0
    ensures OpenCount(s.closes) <= if setup.model == Shared then 1 else setup.workers
    ensures forall c :: 0 <= c < |s.closes| ==> s.closes[c] <= 1
    ensures s.finished ==> forall c :: 0 <= c < |s.closes| ==> s.closes[c] == 1
  {
    hide Reaches, SystemInv, OpenCount;
    ReachesInv(setup, s);
    forall i | 0 <= i < |s.workers| && InUse(s.workers[i]).Some?
      ensures s.workers[i].pc.conn < |s.closes| && s.closes[s.workers[i].pc.conn] == 0
    {
      UsedIsOpen(setup, s, i);
    }
    OpenBound(setup, s);
    ClosedOnce(setup, s);
    if s.finished { FinishedClosesAll(setup, s); }
  }

  lemma OpenBound(setup: Setup, s: System)
    requires SystemInv(setup, s)
    ensures OpenCount(s.closes) <= if setup.model == Shared then 1 else setup.workers
  {
    hide WorkerInv, DialsInv, PoolInv, OpenCount, SumBy;
    SumBetween(s.workers, One(Owns(setup.model)), 0, 1);
    if setup.model == Shared { SumBetween(s.workers, One(Owns(setup.model)), 0, 0); }
  }

  lemma ClosedOnce(setup: Setup, s: System)
    requires SystemInv(setup, s)
    ensures forall c :: 0 <= c < |s.closes| ==> s.closes[c] <= 1
  {
    hide WorkerInv, DialsInv, PoolInv, OpenCount;
  }

  lemma UsedIsOpen(setup: Setup, s: System, i: nat)
    requires SystemInv(setup, s) && i < |s.workers| && InUse(s.workers[i]).Some?
    ensures InUse(s.workers[i]).value < |s.closes| && s.closes[InUse(s.workers[i]).value] == 0
  {
    var w := s.workers[i];
    assert WorkerInv(setup.model, w, s.clock);
    assert w in s.workers;
  }

  lemma DoneOwnsNothing(setup: Setup, s: System, w: Worker)
    requires SystemInv(setup, s) && s.finished && w in s.workers
    ensures Owned(setup.model, w).None?
  {
    hide OwnershipInv, DialsInv;
    var i: nat :| i < |s.workers| && s.workers[i] == w;
    SourceOf(setup, s, i);
  }

  lemma FinishedClosesAll(setup: Setup, s: System)
    requires SystemInv(setup, s) && s.finished
    ensures forall c :: 0 <= c < |s.closes| ==> s.closes[c] == 1
  {
    hide WorkerInv, DialsInv, PoolInv, Owned;
    forall w | w in s.workers ensures Owned(setup.model, w).None? {
      DoneOwnsNothing(setup, s, w);
    }
    SumBetween(s.workers, One(Owns(setup.model)), 0, 0);
    forall c | 0 <= c < |s.closes| ensures s.closes[c] == 1 {
      SumZero(s.closes, One(IsOpen()), c);
    }
  }

  // ----- accounting

  function AttemptCount(): Worker -> int {
    (w: Worker) => |w.fates|
  }

  function RecordCount(): Worker -> int {
    (w: Worker) => |w.results|
  }

  function Unsettled(): Worker -> int {
    (w: Worker) => |w.fates| - |w.results|
  }

  function Issued(): Worker -> int {
    (w: Worker) => w.issued
  }

  // Attempts minus recorded results lies between zero and the number of
  // workers; each worker misses at most one, its last.
  lemma CallAccounting(setup: Setup, s: System)
    requires Reaches(setup, s)
    ensures 0 <= SumBy(s.workers, AttemptCount()) - SumBy(s.workers, RecordCount()) <= setup.workers
    ensures forall i :: 0 <= i < |s.workers| ==> 0 <= |s.workers[i].fates| - |s.workers[i].results| <= 1
    ensures forall i, k :: 0 <= i < |s.workers| && 0 <= k < |s.workers[i].fates| - 1 ==>
              s.workers[i].fates[k] == Recorded
  {
    hide Reaches, Run, OwnershipInv, DialsInv, PoolInv, SourceInv, OutcomesInv, TimeInv;
    ReachesInv(setup, s);
    forall i | 0 <= i < |s.workers| ensures FatesInv(s.workers[i]) {
      assert WorkerInv(setup.model, s.workers[i], s.clock);
    }
    SumAdd(s.workers, RecordCount(), Unsettled(), AttemptCount());
    forall w | w in s.workers ensures 0 <= Unsettled()(w) <= 1 {
      var i :| 0 <= i < |s.workers| && s.workers[i] == w;
      assert FatesInv(s.workers[i]);
    }
    SumBetween(s.workers, Unsettled(), 0, 1);
  }

  ghost predicate HasLost(w: Worker) {
    LastIs(w.fates, Lost)
  }

  // A worker that has lost an attempt makes no further one, on any schedule.
  lemma {:induction false} LostIsFinal(setup: Setup, s: System, i: nat, steps: seq<Step>)
    requires SystemInv(setup, s) && i < |s.workers| && HasLost(s.workers[i]) && Run(setup, s, steps).Some?
    ensures var s' := Run(setup, s, steps).value;
            SystemInv(setup, s') && |s'.workers| == |s.workers|
            && s'.workers[i].fates == s.workers[i].fates && s'.workers[i].results == s.workers[i].results
  {
    if steps != [] {
      var front, step := steps[..|steps| - 1], steps[|steps| - 1];
      LostIsFinal(setup, s, i, front);
      var t := Run(setup, s, front).value;
      LostStep(setup, t, i, step);
      StepKept(setup, t, step);
    }
  }

  lemma LostWorkerStays(setup: Setup, w: Worker, ev: Event)
    requires FatesInv(w) && HasLost(w) && StepWorker(setup, w, ev).Some?
    ensures var w' := StepWorker(setup, w, ev).value; w'.fates == w.fates && w'.results == w.results
  {
    hide FatesMatch, RequestFor, RecordOf, RecordFailure, Settle;
  }

  lemma LostStep(setup: Setup, s: System, i: nat, step: Step)
    requires SystemInv(setup, s) && i < |s.workers| && HasLost(s.workers[i]) && Advance(setup, s, step).Some?
    ensures var s' := Advance(setup, s, step).value;
            |s'.workers| == |s.workers|
            && s'.workers[i].fates == s.workers[i].fates && s'.workers[i].results == s.workers[i].results
  {
    assert WorkerInv(setup.model, s.workers[i], s.clock);
    hide StepWorker, Observes, FatesInv, HasLost, OwnershipInv, DialsInv, PoolInv, EffectOf;
    match step
    case Act(j, ev) => if i == j { LostWorkerStays(setup, s.workers[i], ev); }
    case _ =>
  }

  // Under per-request, every successful dial is for one call: when the run is
  // over, as many connections were dialed as calls issued.
  lemma DialsMatchCalls(setup: Setup, s: System)
    requires Reaches(setup, s) && setup.model == PerRequest
    ensures SumBy(s.workers, Issued()) <= |s.closes| <= SumBy(s.workers, Issued()) + setup.workers
    ensures s.finished ==> |s.closes| == SumBy(s.workers, Issued())
  {
    hide Reaches, Run, WorkerInv, OwnershipInv;
    ReachesInv(setup, s);
    SumAdd(s.workers, Issued(), Waiting(), Calls());
    SumBetween(s.workers, Waiting(), 0, 1);
    if s.finished { SumBetween(s.workers, Waiting(), 0, 0); }
  }

  // One for a worker that holds a connection it has not called on yet.
  function Waiting(): Worker -> int {
    (w: Worker) => if w.pc.Holding? then 1 else 0
  }

  // ----- cancellation

  // No recorded failure of a call is a cancellation, and every successful call
  // that has returned and been judged is recorded, done context or not.
  lemma CancellationsFiltered(setup: Setup, s: System, i: nat)
    requires Reaches(setup, s) && i < |s.workers|
    ensures forall r :: r in s.workers[i].results && r.err.Some? && r.err.value.stage == Calling ==>
              !IsCancellation(r.err.value)
    ensures !s.workers[i].pc.Returned? ==> SumBy(s.workers[i].results, One(Won())) == s.workers[i].answered
  {
    ReachesInv(setup, s);
    assert WorkerInv(setup.model, s.workers[i], s.clock);
    assert forall r :: r in s.workers[i].results ==> HonestError(r);
  }

  // ----- requests

  // Built from a draw that the random source can return, without a panic.
  ghost predicate DrawnRequest(setup: Setup, request: Request) {
    exists draw ::
      && LegalDraw(setup.selector, draw)
      && RequestFor(setup.selector, setup.sizes, setup.limit, draw) == Some(request)
  }

  // Every request in flight is one.
  lemma {:induction false} RequestsDrawn(setup: Setup, s0: System, steps: seq<Step>)
    requires Initial(setup, s0) && Run(setup, s0, steps).Some?
    ensures forall w :: w in Run(setup, s0, steps).value.workers && w.pc.InCall? ==> DrawnRequest(setup, w.pc.request)
  {
    if steps != [] {
      hide DrawnRequest, Advance;
      var front, step := steps[..|steps| - 1], steps[|steps| - 1];
      RequestsDrawn(setup, s0, front);
      RequestStep(setup, Run(setup, s0, front).value, step);
    }
  }

  lemma RequestsInFlight(setup: Setup, s: System, w: Worker)
    requires Reaches(setup, s) && w in s.workers && w.pc.InCall?
    ensures DrawnRequest(setup, w.pc.request)
  {
    hide DrawnRequest, Run, Initial;
    var s0, steps :| Initial(setup, s0) && Run(setup, s0, steps) == Some(s);
    RequestsDrawn(setup, s0, steps);
  }

  lemma RequestStep(setup: Setup, s: System, step: Step)
    requires Advance(setup, s, step).Some?
    requires forall w :: w in s.workers && w.pc.InCall? ==> DrawnRequest(setup, w.pc.request)
    ensures forall w :: w in Advance(setup, s, step).value.workers && w.pc.InCall? ==> DrawnRequest(setup, w.pc.request)
  {
    hide RequestFor, LegalDraw, ApplyEffect;
    match step
    case Act(i, ev) =>
      assert s.workers[i] in s.workers;
    case _ =>
  }

  // ----- progress

  // There is a draw, and whatever the draw is a request can be built from it.
  ghost predicate Ready(setup: Setup) {
    && CanDraw(setup.selector)
    && forall draw :: LegalDraw(setup.selector, draw) ==>
         RequestFor(setup.selector, setup.sizes, setup.limit, draw).Some?
  }

  // The kind of event a worker waits for at pc.
  predicate Awaits(pc: Pc, ev: Event) {
    match pc
    case Start => ev.NewSource?
    case LoopHead => ev.CheckContext?
    case Acquiring => ev.Acquire?
    case AcquireFailed(_) => ev.JudgeAcquire?
    case Holding(_) => ev.Call?
    case InCall(_, _, _) => ev.Answer?
    case Returned(_, _, _, _) => ev.JudgeCall?
    case Releasing(_, _) => ev.Release?
    case Closing => ev.CloseSource?
    case Done => false
  }

  // An event that the outside can give worker i now.
  predicate Offered(setup: Setup, s: System, i: nat, ev: Event) {
    i < |s.workers| && Awaits(s.workers[i].pc, ev) && Observes(setup, s, ev)
  }

  // Worker i goes on whatever it is given, and it can be given something.
  ghost predicate GoesOn(setup: Setup, s: System, i: nat) {
    && (exists ev :: Offered(setup, s, i, ev))
    && (forall ev :: Offered(setup, s, i, ev) ==> Advance(setup, s, Act(i, ev)).Some?)
  }

  ghost predicate NoWorkerStuck(setup: Setup) {
    forall s, i: nat :: Reaches(setup, s) && i < |s.workers| && !s.workers[i].pc.Done? ==> GoesOn(setup, s, i)
  }

  lemma WorkersMove(setup: Setup)
    requires Ready(setup)
    ensures NoWorkerStuck(setup)
  {
    hide Ready, Observes, Awaits, StepWorker, EffectOf, SystemInv, SourceInv, Reaches;
    forall s, i: nat | Reaches(setup, s) && i < |s.workers| && !s.workers[i].pc.Done? ensures GoesOn(setup, s, i) {
      ReachesInv(setup, s);
      SourceOf(setup, s, i);
      var ev := NextEvent(setup, s, s.workers[i]);
      assert Offered(setup, s, i, ev);
      forall e | Offered(setup, s, i, e) ensures Advance(setup, s, Act(i, e)).Some? {
        EventAccepted(setup, s, s.workers[i], e);
      }
    }
  }

  lemma EventAccepted(setup: Setup, s: System, w: Worker, ev: Event)
    requires Ready(setup) && SourceInv(setup.model, w) && Awaits(w.pc, ev) && Observes(setup, s, ev)
    ensures StepWorker(setup, w, ev).Some?
  {
    hide RequestFor;
  }

  // The first three steps of worker 0: it holds a connection.
  lemma FirstHolds(setup: Setup) returns (s: System)
    requires setup.workers >= 1
    ensures Reaches(setup, s) && s.workers != [] && s.workers[0].pc.Holding?
  {
    hide RequestFor, Run;
    var s0 := System(0, false, if setup.model == Shared then [0] else [], seq(setup.workers, i => FRESH_WORKER), false);
    var given := Ok(if setup.model == Shared then POOL_CONN else |s0.closes|);
    var a := Act(0, NewSource(given, 0));
    var s1 := Advance(setup, s0, a).value;
    var b := Act(0, CheckContext(false));
    var s2 := Advance(setup, s1, b).value;
    var c := Act(0, Acquire(Ok(|s2.closes|)));
    s := Advance(setup, s2, c).value;
    ThreeSteps(setup, s0, a, b, c, s1, s2, s);
  }

  lemma ThreeSteps(setup: Setup, s0: System, a: Step, b: Step, c: Step, s1: System, s2: System, s3: System)
    requires Advance(setup, s0, a) == Some(s1) && Advance(setup, s1, b) == Some(s2) && Advance(setup, s2, c) == Some(s3)
    ensures Run(setup, s0, [a, b, c]) == Some(s3)
  {
    hide Advance;
    RunOne(setup, s0, [], a);
    RunOne(setup, s0, [a], b);
    RunOne(setup, s0, [a, b], c);
    assert [] + [a] == [a] && [a] + [b] == [a, b] && [a, b] + [c] == [a, b, c];
  }

  // Three steps into a run, a worker that has nothing to draw from cannot call.
  lemma NothingToDraw(setup: Setup) returns (s: System)
    requires setup.workers >= 1 && !CanDraw(setup.selector)
    ensures Reaches(setup, s) && s.workers != [] && s.workers[0].pc.Holding?
    ensures forall ev :: Advance(setup, s, Act(0, ev)).None?
  {
    hide Advance, Reaches;
    s := FirstHolds(setup);
    forall ev ensures Advance(setup, s, Act(0, ev)).None? {
      CannotCall(setup, s, ev);
    }
  }

  // Nor can one whose draw gives no request that can be built.
  lemma DrawFails(setup: Setup, draw: int) returns (s: System)
    requires setup.workers >= 1 && LegalDraw(setup.selector, draw)
    requires RequestFor(setup.selector, setup.sizes, setup.limit, draw).None?
    ensures Reaches(setup, s) && s.workers != [] && s.workers[0].pc.Holding?
    ensures Offered(setup, s, 0, Call(s.clock, draw)) && Advance(setup, s, Act(0, Call(s.clock, draw))).None?
  {
    hide RequestFor, LegalDraw, Reaches;
    s := FirstHolds(setup);
  }

  // No worker of any reachable state is stuck, whatever it is given, if and only
  // if there is a draw and every draw gives a request that can be built.
  lemma NoWorkerStuckIff(setup: Setup)
    requires setup.workers >= 1
    ensures NoWorkerStuck(setup) <==> Ready(setup)
  {
    hide NoWorkerStuck, Advance, Reaches, RequestFor, CanDraw, LegalDraw;
    if Ready(setup) {
      WorkersMove(setup);
    } else if !CanDraw(setup.selector) {
      var s := NothingToDraw(setup);
      NothingOffered(setup, s);
      StuckHere(setup, s, 0);
    } else {
      var draw :| LegalDraw(setup.selector, draw) && RequestFor(setup.selector, setup.sizes, setup.limit, draw).None?;
      var s := DrawFails(setup, draw);
      StuckHere(setup, s, 0);
    }
  }

  lemma StuckHere(setup: Setup, s: System, i: nat)
    requires Reaches(setup, s) && i < |s.workers| && !s.workers[i].pc.Done? && !GoesOn(setup, s, i)
    ensures !NoWorkerStuck(setup)
  {
    hide GoesOn, Reaches;
  }

  lemma NothingOffered(setup: Setup, s: System)
    requires !CanDraw(setup.selector) && s.workers != [] && s.workers[0].pc.Holding?
    ensures forall ev :: !Offered(setup, s, 0, ev)
  {
  }

  lemma RunOne(setup: Setup, s0: System, steps: seq<Step>, step: Step)
    requires Run(setup, s0, steps).Some?
    ensures Run(setup, s0, steps + [step]) == Advance(setup, Run(setup, s0, steps).value, step)
  {
    hide Advance;
    assert (steps + [step])[..|steps|] == steps;
  }

  lemma CannotCall(setup: Setup, s: System, ev: Event)
    requires !CanDraw(setup.selector) && s.workers != [] && s.workers[0].pc.Holding?
    ensures Advance(setup, s, Act(0, ev)).None?
  {
    hide RequestFor;
  }

  predicate IsProgramStep(step: Step) {
    step.Act? || step.ClosePool?
  }

  // Until the run is over some step of the program can be taken: no worker can
  // get stuck, whatever happened before.
  lemma Progress(setup: Setup, s: System) returns (step: Step)
    requires Reaches(setup, s) && Ready(setup) && !s.finished
    ensures IsProgramStep(step) && Advance(setup, s, step).Some?
  {
    hide Ready, Observes, Awaits, StepWorker, EffectOf, SystemInv, SourceInv, Run, Reaches;
    ReachesInv(setup, s);
    if AllDone(s.workers) {
      step := ClosePool;
    } else {
      var w :| w in s.workers && !w.pc.Done?;
      var i: nat :| i < |s.workers| && s.workers[i] == w;
      SourceOf(setup, s, i);
      var ev := NextEvent(setup, s, w);
      step := Act(i, ev);
    }
  }

  lemma NextEvent(setup: Setup, s: System, w: Worker) returns (ev: Event)
    requires SourceInv(setup.model, w) && Ready(setup) && !w.pc.Done?
    ensures Awaits(w.pc, ev) && Observes(setup, s, ev) && StepWorker(setup, w, ev).Some?
  {
    hide RequestFor;
    match w.pc
    case Start => ev := NewSource(if setup.model == Shared then Ok(POOL_CONN) else Ok(|s.closes|), s.clock);
    case LoopHead => ev := CheckContext(s.contextDone);
    case Acquiring => ev := Acquire(Ok(|s.closes|));
    case AcquireFailed(_) => ev := JudgeAcquire(s.contextDone, s.clock);
    case Holding(_) =>
      ev := Call(s.clock, 0);
    case InCall(_, _, _) => ev := Answer(s.clock, Success(0, "", "", None, ""));
    case Returned(_, _, _, _) => ev := JudgeCall(s.contextDone);
    case Releasing(_, _) => ev := Release;
    case Closing => ev := CloseSource;
  }

  // ----- shutdown

  // The most steps a worker can still take once the context is done.
  function StepsLeft(): Worker -> int {
    (w: Worker) =>
      match w.pc
      case Start => 3
      case LoopHead => 2
      case Acquiring => 7
      case AcquireFailed(_) => 2
      case Holding(_) => 6
      case InCall(_, _, _) => 5
      case Returned(_, _, _, _) => 4
      case Releasing(_, dropped) => if dropped then 2 else 3
      case Closing => 1
      case Done => 0
  }

  function SystemStepsLeft(s: System): int {
    SumBy(s.workers, StepsLeft()) + (if s.finished then 0 else 1)
  }

  function ProgramStep(): Step -> bool {
    (step: Step) => IsProgramStep(step)
  }

  lemma WorkerWindsDown(setup: Setup, s: System, w: Worker, ev: Event)
    requires s.contextDone && Observes(setup, s, ev) && StepWorker(setup, w, ev).Some?
    ensures 0 <= StepsLeft()(StepWorker(setup, w, ev).value) < StepsLeft()(w)
  {
    hide RequestFor;
  }

  lemma StepWindsDown(setup: Setup, s: System, step: Step)
    requires s.contextDone && Advance(setup, s, step).Some?
    ensures var s' := Advance(setup, s, step).value;
            s'.contextDone && SystemStepsLeft(s') + (if IsProgramStep(step) then 1 else 0) <= SystemStepsLeft(s)
  {
    match step
    case Act(i, ev) =>
      hide StepWorker, Observes, StepsLeft;
      WorkerWindsDown(setup, s, s.workers[i], ev);
      SumUpdate(s.workers, i, StepWorker(setup, s.workers[i], ev).value, StepsLeft());
    case _ =>
  }

  // Once the context is done, however the outside behaves, the program takes at
  // most seven steps per worker and one more before the run is over.
  lemma {:induction false} ShutdownBound(setup: Setup, s: System, steps: seq<Step>)
    requires s.contextDone && Run(setup, s, steps).Some?
    ensures var s' := Run(setup, s, steps).value;
            && s'.contextDone
            && SumBy(steps, One(ProgramStep())) + SystemStepsLeft(s') <= SystemStepsLeft(s)
            && 0 <= SystemStepsLeft(s') && SystemStepsLeft(s) <= 7 * |s.workers| + 1
  {
    SumBetween(s.workers, StepsLeft(), 0, 7);
    SumBetween(Run(setup, s, steps).value.workers, StepsLeft(), 0, 7);
    if steps != [] {
      hide Advance, SystemStepsLeft;
      var front := steps[..|steps| - 1];
      ShutdownBound(setup, s, front);
      StepWindsDown(setup, Run(setup, s, front).value, steps[|steps| - 1]);
    }
  }

  lemma {:induction false} RunFirst(setup: Setup, s: System, step: Step, rest: seq<Step>)
    requires Advance(setup, s, step).Some?
    ensures Run(setup, s, [step] + rest) == Run(setup, Advance(setup, s, step).value, rest)
  {
    hide Advance;
    if rest == [] {
      assert [step] + rest == [] + [step];
      RunOne(setup, s, [], step);
    } else {
      var front := rest[..|rest| - 1];
      RunFirst(setup, s, step, front);
      assert ([step] + rest)[..|rest|] == [step] + front;
    }
  }

  lemma ReachOne(setup: Setup, s: System, step: Step)
    requires Reaches(setup, s) && Advance(setup, s, step).Some?
    ensures Reaches(setup, Advance(setup, s, step).value)
  {
    hide Advance, Initial, Run;
    var s0, steps :| Initial(setup, s0) && Run(setup, s0, steps) == Some(s);
    RunOne(setup, s0, steps, step);
  }

  lemma StepsLeftBounds(setup: Setup, s: System)
    requires Reaches(setup, s)
    ensures 0 <= SystemStepsLeft(s) <= 7 * setup.workers + 1
  {
    hide Reaches, OwnershipInv, WorkerInv, DialsInv, PoolInv;
    ReachesInv(setup, s);
    SumBetween(s.workers, StepsLeft(), 0, 7);
  }

  // Once the context is done the program can wind down to the end of the run.
  lemma {:induction false} CanWindDown(setup: Setup, s: System) returns (steps: seq<Step>)
    requires Reaches(setup, s) && Ready(setup) && s.contextDone
    ensures |steps| <= SystemStepsLeft(s)
    ensures Run(setup, s, steps).Some? && Run(setup, s, steps).value.finished
    decreases SystemStepsLeft(s)
  {
    hide Reaches, Ready, Advance, SystemStepsLeft, Run;
    StepsLeftBounds(setup, s);
    if s.finished {
      steps := [];
      RunNone(setup, s);
    } else {
      var step := Progress(setup, s);
      StepWindsDown(setup, s, step);
      ReachOne(setup, s, step);
      var next := Advance(setup, s, step).value;
      StepsLeftBounds(setup, next);
      var rest := CanWindDown(setup, next);
      steps := [step] + rest;
      RunFirst(setup, s, step, rest);
    }
  }

  lemma RunNone(setup: Setup, s: System)
    ensures Run(setup, s, []) == Some(s)
  {
  }

  lemma CancelKeepsSteps(setup: Setup, s: System)
    ensures Advance(setup, s, Cancel) == Some(s.(contextDone := true))
    ensures SystemStepsLeft(s.(contextDone := true)) == SystemStepsLeft(s)
  {
  }

  // Every reachable state can be brought to the end of its run, by the context
  // getting done and at most seven steps a worker and one more of the program
  // and its server: the end that other results speak of is there to reach.
  lemma CanFinish(setup: Setup, s: System) returns (steps: seq<Step>)
    requires Reaches(setup, s) && Ready(setup)
    ensures |steps| <= 7 * setup.workers + 2
    ensures Run(setup, s, steps).Some? && Run(setup, s, steps).value.finished
  {
    hide Reaches, Ready, Advance, SystemStepsLeft, Run;
    CancelKeepsSteps(setup, s);
    ReachOne(setup, s, Cancel);
    StepsLeftBounds(setup, s);
    var rest := CanWindDown(setup, s.(contextDone := true));
    steps := [Cancel] + rest;
    RunFirst(setup, s, Cancel, rest);
  }

  // ----- time

  function SuccessTime(): Result -> int {
    (r: Result) => if r.err.None? then r.total else 0
  }

  // One worker's successful calls take no longer together than from its first
  // recorded start to its last recorded end.
  lemma {:induction false} WorkerBusyTime(results: seq<Result>)
    requires InOrder(results)
    ensures 0 <= SumBy(results, SuccessTime())
    ensures results != [] ==> SumBy(results, SuccessTime()) <= results[|results| - 1].end - results[0].start
  {
    if results != [] {
      var front := results[..|results| - 1];
      WorkerBusyTime(front);
      assert Timed(results[|results| - 1]);
      if front != [] { assert front[|front| - 1].end <= results[|results| - 1].start; }
    }
  }

  // The results of all workers, in worker order, as the program merges them.
  function Merged(workers: seq<Worker>): seq<Result> {
    if workers == [] then [] else Merged(workers[..|workers| - 1]) + workers[|workers| - 1].results
  }

  // Worker after worker, each one's results in its own order.
  lemma {:induction false} MergedInOrder(workers: seq<Worker>, i: nat, k: nat)
    requires i < |workers| && k < |workers[i].results|
    ensures var at := SumBy(workers[..i], RecordCount()) + k;
            0 <= at < |Merged(workers)| && Merged(workers)[at] == workers[i].results[k]
    ensures |Merged(workers)| == SumBy(workers, RecordCount())
  {
    MergedLength(workers);
    MergedLength(workers[..i]);
    var front := workers[..|workers| - 1];
    if i < |front| {
      MergedInOrder(front, i, k);
      assert front[..i] == workers[..i];
    }
  }

  lemma {:induction false} MergedLength(workers: seq<Worker>)
    ensures |Merged(workers)| == SumBy(workers, RecordCount())
  {
    if workers != [] { MergedLength(workers[..|workers| - 1]); }
  }

  lemma {:induction false} MergedSum(workers: seq<Worker>, f: Result -> int)
    ensures SumBy(Merged(workers), f) == SumBy(workers, WorkerSum(f))
  {
    if workers != [] {
      var front, w := workers[..|workers| - 1], workers[|workers| - 1];
      MergedSum(front, f);
      SumConcat(Merged(front), w.results, f);
    }
  }

  function WorkerSum(f: Result -> int): Worker -> int {
    (w: Worker) => SumBy(w.results, f)
  }

  lemma {:induction false} MergedHolds(workers: seq<Worker>, r: Result)
    ensures r in Merged(workers) <==> exists w :: w in workers && r in w.results
  {
    if workers != [] {
      var front, w := workers[..|workers| - 1], workers[|workers| - 1];
      assert workers == front + [w];
      MergedHolds(front, r);
    }
  }
}
