// What a worker records, told by what happened to it: the clock, the context and
// the events of its own steps, without the worker's state.
module Traces {
  import opened Wrappers
  import opened Int64
  import opened Folds
  import opened Records
  import opened Sampler
  import opened Protocol
  import opened Invariants
  import opened Runs

  // A step of a worker as the outside saw it: the clock, whether the context was
  // done, and the event.
  datatype Moment = Moment(clock: int, done: bool, event: Event)

  // The moments of worker i in a schedule.
  function MomentsOf(setup: Setup, s0: System, steps: seq<Step>, i: nat): seq<Moment> {
    if steps == [] then []
    else
      var front := steps[..|steps| - 1];
      MomentsOf(setup, s0, front, i)
      + (match (Run(setup, s0, front), steps[|steps| - 1])
         case (Some(t), Act(j, ev)) => if j == i then [Moment(t.clock, t.contextDone, ev)] else []
         case _ => [])
  }

  // ----- attempts, read off the moments

  datatype Attempt =
    | NotOpened(at: int, error: Error)
    | NotAcquired(at: int, error: Error, done: bool)
    | Called(start: int, end: int, reply: Reply, done: bool)

  // The attempt that ends at moment k, if one does: a source that was not
  // opened, an acquire that failed and was judged, or a call, its answer and its
  // judgement in a row.
  function AttemptAt(model: ConnModel, tr: seq<Moment>, k: nat): Option<Attempt>
    requires k < |tr|
  {
    match tr[k].event
    case NewSource(Err(e), _) => if model == PerWorker then Some(NotOpened(tr[k].clock, e)) else None
    case JudgeAcquire(_, _) =>
      if k >= 1 && tr[k - 1].event.Acquire? && tr[k - 1].event.dialed.Err?
      then Some(NotAcquired(tr[k].clock, tr[k - 1].event.dialed.error, tr[k].done)) else None
    case JudgeCall(_) =>
      if k >= 2 && tr[k - 1].event.Answer? && tr[k - 2].event.Call?
      then Some(Called(tr[k - 2].clock, tr[k - 1].clock, tr[k - 1].event.reply, tr[k].done)) else None
    case _ => None
  }

  function Attempts(model: ConnModel, tr: seq<Moment>): seq<Attempt> {
    if tr == [] then []
    else
      Attempts(model, tr[..|tr| - 1])
      + (match AttemptAt(model, tr, |tr| - 1) case None => [] case Some(a) => [a])
  }

  // The error is a context error, or its gRPC code is Canceled, which is 1, or
  // DeadlineExceeded, which is 4.
  predicate Cancels(e: Error) {
    e.contextSignal || e.code in {1, 4}
  }

  // What is recorded: any failure to open, a failure to acquire that came before
  // the end, a success whenever it came, and a failed call that came before the
  // end and does not itself speak of it.
  predicate Kept(a: Attempt) {
    match a
    case NotOpened(_, _) => true
    case NotAcquired(_, _, done) => !done
    case Called(_, _, Success(_, _, _, _, _), _) => true
    case Called(_, _, Failure(e, _), done) => !done && !Cancels(e)
  }

  function IsKept(): Attempt -> bool {
    (a: Attempt) => Kept(a)
  }

  // e is cause with this text in front, out of this stage.
  predicate Wraps(e: Error, stage: Stage, prefix: string, cause: Error) {
    && e.stage == stage && e.code == cause.code && e.contextSignal == cause.contextSignal
    && e.text == prefix + cause.text && e.message == e.text
  }

  // A failure before any call: an instant, without figures or names.
  predicate TellsFailure(r: Result, at: int, stage: Stage, prefix: string, cause: Error) {
    && r.start == r.end == at && r.total == r.serverNs == r.upstreamNs == 0 && !r.hasUpstream
    && r.podName == r.podHostname == r.peerAddr == ""
    && r.err.Some? && Wraps(r.err.value, stage, prefix, cause)
  }

  // r says of the attempt when it was and what came of it.
  predicate Tells(r: Result, a: Attempt) {
    match a
    case NotOpened(at, e) => TellsFailure(r, at, OpeningSource, "opening conn source: ", e)
    case NotAcquired(at, e, _) => TellsFailure(r, at, AcquiringConn, "acquiring conn: ", e)
    case Called(start, end, Failure(e, peer), _) =>
      && r.start == start && r.end == end && r.total == end - start
      && r.serverNs == r.upstreamNs == 0 && !r.hasUpstream
      && r.podName == r.podHostname == "" && r.peerAddr == peer && r.err == Some(e)
    case Called(start, end, Success(serverNs, pod, host, upstream, peer), _) =>
      && r.start == start && r.end == end && r.total == end - start && r.serverNs == serverNs
      && r.podName == pod && r.podHostname == host && r.peerAddr == peer && r.err == None
      && r.hasUpstream == upstream.Some?
      && (upstream.None? ==> r.upstreamNs == 0)
      && (upstream.Some? && Fits(upstream.value * 1000000) ==> r.upstreamNs == upstream.value * 1000000)
  }

  // The results are, one for one and in order, those of the attempts kept.
  ghost predicate TellsAll(results: seq<Result>, attempts: seq<Attempt>) {
    |results| == |attempts| && forall k :: 0 <= k < |results| ==> Tells(results[k], attempts[k])
  }

  // ----- the loop, as what may follow what

  // ev may come after these moments in the life of a worker.
  predicate MayFollow(model: ConnModel, before: seq<Moment>, ev: Event) {
    if before == [] then ev.NewSource?
    else
      var m := before[|before| - 1];
      match m.event
      case NewSource(given, _) => ev.CheckContext? && (model == PerWorker ==> given.Ok?)
      case CheckContext(_) => if m.done then ev.CloseSource? else ev.Acquire?
      case Acquire(dialed) => if model == PerRequest && dialed.Err? then ev.JudgeAcquire? else ev.Call?
      case JudgeAcquire(_, _) => if m.done then ev.CloseSource? else ev.CheckContext?
      case Call(_, _) => ev.Answer?
      case Answer(_, _) => ev.JudgeCall?
      case JudgeCall(_) => ev.Release?
      case Release =>
        |before| >= 2
        && (match AttemptAt(model, before, |before| - 2)
            case None => false
            case Some(a) => if Kept(a) then ev.CheckContext? else ev.CloseSource?)
      case CloseSource => false
  }

  ghost predicate FollowsLoop(model: ConnModel, tr: seq<Moment>) {
    forall k :: 0 <= k < |tr| ==> MayFollow(model, tr[..k], tr[k].event)
  }

  // The connection that an event k moments back gave: dialed for the call, or
  // with the source.
  predicate GivenConn(model: ConnModel, tr: seq<Moment>, k: nat, c: Conn) {
    match model
    case PerRequest => k < |tr| && tr[|tr| - 1 - k].event == Acquire(Ok(c))
    case PerWorker => tr != [] && tr[0].event.NewSource? && tr[0].event.given == Ok(c)
    case Shared => c == POOL_CONN
  }

  // ----- what a worker's state has to do with its moments

  ghost predicate AwaitsInv(model: ConnModel, pc: Pc, tr: seq<Moment>) {
    forall ev :: Awaits(pc, ev) <==> MayFollow(model, tr, ev)
  }

  ghost predicate PcInv(model: ConnModel, pc: Pc, tr: seq<Moment>) {
    var n := |tr|;
    match pc
    case Start => n == 0
    case AcquireFailed(e) => n >= 1 && tr[n - 1].event == Acquire(Err(e))
    case Holding(c) => GivenConn(model, tr, 0, c)
    case InCall(c, start, _) =>
      n >= 1 && tr[n - 1].event.Call? && tr[n - 1].clock == start && GivenConn(model, tr, 1, c)
    case Returned(c, start, end, reply) =>
      && n >= 2 && tr[n - 1].event.Answer? && tr[n - 1].event.reply == reply && tr[n - 1].clock == end
      && tr[n - 2].event.Call? && tr[n - 2].clock == start && GivenConn(model, tr, 2, c)
    case Releasing(c, dropped) =>
      && n >= 1 && AttemptAt(model, tr, n - 1).Some? && dropped == !Kept(AttemptAt(model, tr, n - 1).value)
      && GivenConn(model, tr, 3, c)
    case _ => true
  }

  ghost predicate SourceGiven(model: ConnModel, w: Worker, tr: seq<Moment>) {
    model != PerRequest && w.source.Some? ==> GivenConn(model, tr, 0, w.source.value)
  }

  function IsCall(): Moment -> bool {
    (m: Moment) => m.event.Call?
  }

  function IsSuccess(): Moment -> bool {
    (m: Moment) => m.event.Answer? && m.event.reply.Success?
  }

  ghost predicate CountsInv(model: ConnModel, w: Worker, tr: seq<Moment>) {
    && w.issued == SumBy(tr, One(IsCall())) && w.answered == SumBy(tr, One(IsSuccess()))
    && |w.fates| == |Attempts(model, tr)| + (if Undecided(w.pc) then 1 else 0)
  }

  ghost predicate TraceInv(model: ConnModel, w: Worker, tr: seq<Moment>) {
    && PcInv(model, w.pc, tr) && AwaitsInv(model, w.pc, tr)
    && SourceGiven(model, w, tr) && CountsInv(model, w, tr)
    && TellsAll(w.results, Filter(Attempts(model, tr), IsKept()))
    && FollowsLoop(model, tr)
  }

  function Now(s: System, ev: Event): Moment {
    Moment(s.clock, s.contextDone, ev)
  }

  lemma AttemptsAppend(model: ConnModel, tr: seq<Moment>, m: Moment)
    ensures Attempts(model, tr + [m]) ==
            Attempts(model, tr) + (match AttemptAt(model, tr + [m], |tr|) case None => [] case Some(a) => [a])
  {
    assert (tr + [m])[..|tr|] == tr;
  }

  // The attempt that an event ends, from the state of the worker.
  function Ended(w: Worker, s: System, ev: Event, model: ConnModel): Option<Attempt> {
    match (w.pc, ev)
    case (Start, NewSource(Err(e), _)) => if model == PerWorker then Some(NotOpened(s.clock, e)) else None
    case (AcquireFailed(e), JudgeAcquire(_, _)) => Some(NotAcquired(s.clock, e, s.contextDone))
    case (Returned(_, start, end, reply), JudgeCall(_)) => Some(Called(start, end, reply, s.contextDone))
    case _ => None
  }

  lemma EndedIsRead(setup: Setup, s: System, w: Worker, ev: Event, tr: seq<Moment>)
    requires PcInv(setup.model, w.pc, tr) && StepWorker(setup, w, ev).Some?
    ensures AttemptAt(setup.model, tr + [Now(s, ev)], |tr|) == Ended(w, s, ev, setup.model)
  {
    hide RequestFor, RecordOf, RecordFailure, Settle, MayFollow, GivenConn;
  }

  lemma RecordTells(start: int, end: int, reply: Reply, done: bool)
    requires 0 <= start <= end <= MAX
    ensures Tells(RecordOf(start, end, reply), Called(start, end, reply, done))
  {
  }

  lemma FailuresTell(now: int, e: Error, done: bool)
    ensures Tells(RecordFailure(now, OpeningError(e)), NotOpened(now, e))
    ensures Tells(RecordFailure(now, AcquiringError(e)), NotAcquired(now, e, done))
  {
  }

  lemma DroppedIsNotKept(start: int, end: int, reply: Reply, done: bool)
    ensures Kept(Called(start, end, reply, done)) <==> !Dropped(reply, done)
  {
  }

  // A step records exactly the attempt that it ends, if that is one to keep.
  lemma StepTells(setup: Setup, s: System, w: Worker, ev: Event)
    requires TimeInv(w, s.clock) && Observes(setup, s, ev) && StepWorker(setup, w, ev).Some?
    ensures var results := StepWorker(setup, w, ev).value.results;
            match Ended(w, s, ev, setup.model)
            case None => results == w.results
            case Some(a) =>
              if Kept(a) then exists r :: results == w.results + [r] && Tells(r, a) else results == w.results
  {
    hide RequestFor, RecordOf, RecordFailure, Settle, Tells, Kept, OpeningError, AcquiringError, InOrder, Dropped;
    match (w.pc, ev)
    case (Start, NewSource(Err(e), _)) => FailuresTell(s.clock, e, false); KeptFailures(s.clock, e, false);
    case (AcquireFailed(e), JudgeAcquire(_, _)) =>
      FailuresTell(s.clock, e, s.contextDone);
      KeptFailures(s.clock, e, s.contextDone);
    case (Returned(_, start, end, reply), JudgeCall(_)) =>
      RecordTells(start, end, reply, s.contextDone);
      DroppedIsNotKept(start, end, reply, s.contextDone);
    case _ =>
  }

  lemma KeptFailures(at: int, e: Error, done: bool)
    ensures Kept(NotOpened(at, e)) && (Kept(NotAcquired(at, e, done)) <==> !done)
  {
  }

  lemma TellsOneMore(model: ConnModel, w: Worker, w': Worker, tr: seq<Moment>, m: Moment, ended: Option<Attempt>)
    requires TellsAll(w.results, Filter(Attempts(model, tr), IsKept()))
    requires AttemptAt(model, tr + [m], |tr|) == ended
    requires match ended
             case None => w'.results == w.results
             case Some(a) =>
               if Kept(a) then exists r :: w'.results == w.results + [r] && Tells(r, a) else w'.results == w.results
    ensures TellsAll(w'.results, Filter(Attempts(model, tr + [m]), IsKept()))
  {
    hide Tells, Kept, Filter, Attempts, AttemptAt;
    AttemptsAppend(model, tr, m);
    var before := Attempts(model, tr);
    if ended.Some? {
      FilterAppend(before, ended.value, IsKept());
    } else {
      assert before + [] == before;
    }
  }

  // ----- every step keeps it

  lemma EarlierAttempt(model: ConnModel, tr: seq<Moment>, m: Moment, k: nat)
    requires k < |tr|
    ensures AttemptAt(model, tr + [m], k) == AttemptAt(model, tr, k)
  {
  }

  lemma PcKept(setup: Setup, s: System, w: Worker, ev: Event, tr: seq<Moment>)
    requires PcInv(setup.model, w.pc, tr) && SourceGiven(setup.model, w, tr) && SourceInv(setup.model, w)
    requires Observes(setup, s, ev) && StepWorker(setup, w, ev).Some?
    ensures PcInv(setup.model, StepWorker(setup, w, ev).value.pc, tr + [Now(s, ev)])
    ensures SourceGiven(setup.model, StepWorker(setup, w, ev).value, tr + [Now(s, ev)])
  {
    hide RequestFor, RecordOf, RecordFailure, Settle, Kept, AttemptAt, Dropped;
    EndedIsRead(setup, s, w, ev, tr);
    if w.pc.Returned? {
      DroppedIsNotKept(w.pc.start, w.pc.end, w.pc.reply, s.contextDone);
    }
  }

  lemma AwaitsKept(setup: Setup, s: System, w: Worker, ev: Event, tr: seq<Moment>)
    requires PcInv(setup.model, w.pc, tr)
    requires Observes(setup, s, ev) && StepWorker(setup, w, ev).Some?
    ensures AwaitsInv(setup.model, StepWorker(setup, w, ev).value.pc, tr + [Now(s, ev)])
  {
    hide RequestFor, RecordOf, RecordFailure, Settle, Kept, AttemptAt, Dropped, GivenConn;
    if w.pc.Releasing? { EarlierAttempt(setup.model, tr, Now(s, ev), |tr| - 1); }
  }

  lemma CountsKept(setup: Setup, s: System, w: Worker, ev: Event, tr: seq<Moment>)
    requires PcInv(setup.model, w.pc, tr) && CountsInv(setup.model, w, tr) && FatesInv(w)
    requires Observes(setup, s, ev) && StepWorker(setup, w, ev).Some?
    ensures CountsInv(setup.model, StepWorker(setup, w, ev).value, tr + [Now(s, ev)])
  {
    hide RequestFor, RecordOf, RecordFailure, AttemptAt, Attempts, SumBy, FatesMatch, PcInv;
    var m := Now(s, ev);
    EndedIsRead(setup, s, w, ev, tr);
    AttemptsAppend(setup.model, tr, m);
    SumAppend(tr, m, One(IsCall()));
    SumAppend(tr, m, One(IsSuccess()));
  }

  lemma FollowsOneMore(model: ConnModel, tr: seq<Moment>, m: Moment)
    requires FollowsLoop(model, tr) && MayFollow(model, tr, m.event)
    ensures FollowsLoop(model, tr + [m])
  {
    hide MayFollow;
    forall k | 0 <= k < |tr + [m]| ensures MayFollow(model, (tr + [m])[..k], (tr + [m])[k].event) {
      assert (tr + [m])[..k] == tr[..k];
    }
  }

  lemma AcceptedIsAwaited(setup: Setup, w: Worker, ev: Event)
    requires StepWorker(setup, w, ev).Some?
    ensures Awaits(w.pc, ev)
  {
    hide RequestFor;
  }

  lemma TraceKept(setup: Setup, s: System, w: Worker, ev: Event, tr: seq<Moment>)
    requires TraceInv(setup.model, w, tr) && WorkerInv(setup.model, w, s.clock)
    requires Observes(setup, s, ev) && StepWorker(setup, w, ev).Some?
    ensures TraceInv(setup.model, StepWorker(setup, w, ev).value, tr + [Now(s, ev)])
  {
    hide StepWorker, Observes, PcInv, SourceGiven, CountsInv, TellsAll, FollowsLoop, MayFollow, Awaits, Kept, Ended,
      AttemptAt, SourceInv, FatesInv, TimeInv, OutcomesInv;
    var w' := StepWorker(setup, w, ev).value;
    PcKept(setup, s, w, ev, tr);
    AwaitsKept(setup, s, w, ev, tr);
    CountsKept(setup, s, w, ev, tr);
    AcceptedIsAwaited(setup, w, ev);
    FollowsOneMore(setup.model, tr, Now(s, ev));
    EndedIsRead(setup, s, w, ev, tr);
    StepTells(setup, s, w, ev);
    TellsOneMore(setup.model, w, w', tr, Now(s, ev), Ended(w, s, ev, setup.model));
  }

  lemma FreshTrace(model: ConnModel)
    ensures TraceInv(model, FRESH_WORKER, [])
  {
  }

  lemma MomentsGrow(setup: Setup, s0: System, steps: seq<Step>, i: nat)
    requires steps != [] && Run(setup, s0, steps[..|steps| - 1]).Some?
    ensures var t, step := Run(setup, s0, steps[..|steps| - 1]).value, steps[|steps| - 1];
            MomentsOf(setup, s0, steps, i) ==
            MomentsOf(setup, s0, steps[..|steps| - 1], i)
            + (if step.Act? && step.worker == i then [Now(t, step.event)] else [])
  {
    hide Run;
  }

  // What every worker of every schedule records is what happened to it.
  lemma {:induction false} RunTraced(setup: Setup, s0: System, steps: seq<Step>, i: nat)
    requires Initial(setup, s0) && i < setup.workers && Run(setup, s0, steps).Some?
    ensures var s := Run(setup, s0, steps).value;
            |s.workers| == setup.workers && TraceInv(setup.model, s.workers[i], MomentsOf(setup, s0, steps, i))
  {
    hide TraceInv, SystemInv, Advance, MomentsOf;
    RunInv(setup, s0, steps);
    SystemSize(setup, Run(setup, s0, steps).value);
    if steps == [] {
      assert s0.workers[i] in s0.workers;
      FreshTrace(setup.model);
      NoMoments(setup, s0, i);
    } else {
      var front, step := steps[..|steps| - 1], steps[|steps| - 1];
      RunTraced(setup, s0, front, i);
      RunInv(setup, s0, front);
      MomentsGrow(setup, s0, steps, i);
      StepTraced(setup, Run(setup, s0, front).value, step, i, MomentsOf(setup, s0, front, i));
    }
  }

  lemma NoMoments(setup: Setup, s0: System, i: nat)
    ensures MomentsOf(setup, s0, [], i) == []
  {
  }

  lemma SystemSize(setup: Setup, s: System)
    requires SystemInv(setup, s)
    ensures |s.workers| == setup.workers
  {
  }

  lemma StepTraced(setup: Setup, s: System, step: Step, i: nat, tr: seq<Moment>)
    requires SystemInv(setup, s) && i < |s.workers| && TraceInv(setup.model, s.workers[i], tr)
    requires Advance(setup, s, step).Some?
    ensures var s' := Advance(setup, s, step).value;
            |s'.workers| == |s.workers|
            && TraceInv(setup.model, s'.workers[i],
                        tr + (if step.Act? && step.worker == i then [Now(s, step.event)] else []))
  {
    hide TraceInv, WorkerInv, OwnershipInv, DialsInv, PoolInv, Observes, StepWorker, EffectOf;
    if step.Act? && step.worker == i {
      TraceKept(setup, s, s.workers[i], step.event, tr);
    } else {
      assert tr + [] == tr;
    }
  }

  // ----- what follows for every worker of every schedule

  // Its results are, one for one and in order, its kept attempts: each call from
  // the clock at its call to the clock at its answer, with what the reply said.
  lemma ResultsTold(setup: Setup, s0: System, steps: seq<Step>, i: nat)
    requires Initial(setup, s0) && i < setup.workers && Run(setup, s0, steps).Some?
    ensures var s := Run(setup, s0, steps).value;
            |s.workers| == setup.workers
            && TellsAll(s.workers[i].results,
                        Filter(Attempts(setup.model, MomentsOf(setup, s0, steps, i)), IsKept()))
  {
    hide TellsAll, Attempts, MomentsOf, Run;
    RunTraced(setup, s0, steps, i);
  }

  // Its events follow the loop, branch by branch, and once it is done nothing
  // may follow.
  lemma LifeFollowsLoop(setup: Setup, s0: System, steps: seq<Step>, i: nat)
    requires Initial(setup, s0) && i < setup.workers && Run(setup, s0, steps).Some?
    ensures var s := Run(setup, s0, steps).value;
            |s.workers| == setup.workers
            && FollowsLoop(setup.model, MomentsOf(setup, s0, steps, i))
            && (s.workers[i].pc.Done? ==> forall ev :: !MayFollow(setup.model, MomentsOf(setup, s0, steps, i), ev))
  {
    hide MayFollow, MomentsOf, Run;
    RunTraced(setup, s0, steps, i);
  }

  // The history it keeps counts them: attempts, calls made and calls that
  // succeeded.
  lemma AttemptsCounted(setup: Setup, s0: System, steps: seq<Step>, i: nat)
    requires Initial(setup, s0) && i < setup.workers && Run(setup, s0, steps).Some?
    ensures var s := Run(setup, s0, steps).value;
            |s.workers| == setup.workers
            && var w, tr := s.workers[i], MomentsOf(setup, s0, steps, i);
            && |w.fates| == |Attempts(setup.model, tr)| + (if Undecided(w.pc) then 1 else 0)
            && w.issued == SumBy(tr, One(IsCall())) && w.answered == SumBy(tr, One(IsSuccess()))
  {
    hide MomentsOf, Run, Attempts;
    RunTraced(setup, s0, steps, i);
  }

  // Each call runs on the connection dialed for it, or on the one its source was
  // given.
  lemma CallsOnGivenConn(setup: Setup, s0: System, steps: seq<Step>, i: nat)
    requires Initial(setup, s0) && i < setup.workers && Run(setup, s0, steps).Some?
    ensures var s := Run(setup, s0, steps).value;
            |s.workers| == setup.workers
            && var pc, tr := s.workers[i].pc, MomentsOf(setup, s0, steps, i);
            && (pc.Holding? ==> GivenConn(setup.model, tr, 0, pc.conn))
            && (pc.InCall? ==> GivenConn(setup.model, tr, 1, pc.conn))
            && (pc.Returned? ==> GivenConn(setup.model, tr, 2, pc.conn))
            && (pc.Releasing? ==> GivenConn(setup.model, tr, 3, pc.conn))
  {
    hide GivenConn, MomentsOf, Run, AttemptAt;
    RunTraced(setup, s0, steps, i);
  }

  // ----- sums over what was recorded are sums over the kept attempts

  function IfKept(g: Attempt -> int): Attempt -> int {
    (a: Attempt) => if Kept(a) then g(a) else 0
  }

  lemma {:induction false} ToldSum(results: seq<Result>, kept: seq<Attempt>, f: Result -> int, g: Attempt -> int)
    requires TellsAll(results, kept) && forall r, a :: Tells(r, a) ==> f(r) == g(a)
    ensures SumBy(results, f) == SumBy(kept, g)
  {
    if results != [] {
      hide Tells;
      ToldSum(results[..|results| - 1], kept[..|kept| - 1], f, g);
    }
  }

  lemma AttemptSum(results: seq<Result>, attempts: seq<Attempt>, f: Result -> int, g: Attempt -> int)
    requires TellsAll(results, Filter(attempts, IsKept())) && forall r, a :: Tells(r, a) ==> f(r) == g(a)
    ensures SumBy(results, f) == SumBy(attempts, IfKept(g))
  {
    hide Tells, Kept, TellsAll, Filter;
    ToldSum(results, Filter(attempts, IsKept()), f, g);
    SumFilter(attempts, IsKept(), g, IfKept(g));
  }

  function AttemptsOf(setup: Setup, s0: System, steps: seq<Step>, i: nat): seq<Attempt> {
    Attempts(setup.model, MomentsOf(setup, s0, steps, i))
  }

  // The attempts of the first n workers.
  function AllAttempts(setup: Setup, s0: System, steps: seq<Step>, n: nat): seq<Attempt> {
    if n == 0 then []
    else AllAttempts(setup, s0, steps, n - 1) + AttemptsOf(setup, s0, steps, n - 1)
  }

  lemma MergedOneMore(workers: seq<Worker>, n: nat, f: Result -> int)
    requires 0 < n <= |workers|
    ensures SumBy(Merged(workers[..n]), f) ==
            SumBy(Merged(workers[..n - 1]), f) + SumBy(workers[n - 1].results, f)
  {
    assert workers[..n][..n - 1] == workers[..n - 1];
    SumConcat(Merged(workers[..n - 1]), workers[n - 1].results, f);
  }

  lemma AllOneMore(setup: Setup, s0: System, steps: seq<Step>, n: nat, h: Attempt -> int)
    requires n > 0
    ensures SumBy(AllAttempts(setup, s0, steps, n), h) ==
            SumBy(AllAttempts(setup, s0, steps, n - 1), h) + SumBy(AttemptsOf(setup, s0, steps, n - 1), h)
  {
    hide SumBy, Attempts, MomentsOf;
    SumConcat(AllAttempts(setup, s0, steps, n - 1), AttemptsOf(setup, s0, steps, n - 1), h);
  }

  lemma WorkerTold(setup: Setup, s0: System, steps: seq<Step>, i: nat, f: Result -> int, g: Attempt -> int)
    requires Initial(setup, s0) && i < setup.workers && Run(setup, s0, steps).Some?
    requires forall r, a :: Tells(r, a) ==> f(r) == g(a)
    ensures var workers := Run(setup, s0, steps).value.workers;
            |workers| == setup.workers
            && SumBy(workers[i].results, f) == SumBy(AttemptsOf(setup, s0, steps, i), IfKept(g))
  {
    hide Tells, Attempts, MomentsOf, Run, TellsAll, Initial, SumBy, Filter;
    ResultsTold(setup, s0, steps, i);
    AttemptSum(Run(setup, s0, steps).value.workers[i].results, AttemptsOf(setup, s0, steps, i), f, g);
  }

  lemma {:induction false} MergedToldUpTo(setup: Setup, s0: System, steps: seq<Step>, n: nat,
                                          f: Result -> int, g: Attempt -> int)
    requires Initial(setup, s0) && Run(setup, s0, steps).Some? && n <= setup.workers
    requires |Run(setup, s0, steps).value.workers| == setup.workers
    requires forall r, a :: Tells(r, a) ==> f(r) == g(a)
    ensures SumBy(Merged(Run(setup, s0, steps).value.workers[..n]), f) ==
            SumBy(AllAttempts(setup, s0, steps, n), IfKept(g))
  {
    if n == 0 {
      hide Run, Tells, Initial;
    } else {
      hide Tells, AttemptsOf, AllAttempts, Run, Merged, Initial, SumBy;
      MergedToldUpTo(setup, s0, steps, n - 1, f, g);
      WorkerTold(setup, s0, steps, n - 1, f, g);
      MergedOneMore(Run(setup, s0, steps).value.workers, n, f);
      AllOneMore(setup, s0, steps, n, IfKept(g));
    }
  }

  lemma MergedTold(setup: Setup, s0: System, steps: seq<Step>, f: Result -> int, g: Attempt -> int)
    requires Initial(setup, s0) && Run(setup, s0, steps).Some?
    requires forall r, a :: Tells(r, a) ==> f(r) == g(a)
    ensures var workers := Run(setup, s0, steps).value.workers;
            SumBy(Merged(workers), f) == SumBy(AllAttempts(setup, s0, steps, setup.workers), IfKept(g))
  {
    hide Tells, AllAttempts, Run, Merged, SystemInv;
    RunInv(setup, s0, steps);
    SystemSize(setup, Run(setup, s0, steps).value);
    MergedToldUpTo(setup, s0, steps, setup.workers, f, g);
    var workers := Run(setup, s0, steps).value.workers;
    assert workers[..setup.workers] == workers;
  }
}
