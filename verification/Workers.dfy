// The program's own objects: the pool and its sources, and the worker whose
// run loop appends to its results. Each is tied to the step system.
module Workers {
  import opened Wrappers
  import opened Int64
  import opened Records
  import opened Sampler
  import opened Protocol

  // ----- conn.go

  // What a step of the system closes, as a list.
  function ClosedBy(effect: Effect): seq<Conn> {
    if effect.Closes? then [effect.conn] else []
  }

  // The connection that the pool of a run holds.
  function PooledConn(model: ConnModel): Option<Conn> {
    if model == Shared then Some(POOL_CONN) else None
  }

  // A worker's view of the pool. The three source types differ in what Acquire
  // and the release function do, and in whether Close closes.
  class ConnSource {
    const model: ConnModel
    var conn: Option<Conn>

    constructor (model: ConnModel, conn: Option<Conn>)
      ensures this.model == model && this.conn == conn
    {
      this.model := model;
      this.conn := conn;
    }

    // Only the per-request source dials; the others hand out what they hold.
    method Acquire(dialed: Outcome<Conn, Error>) returns (acquired: Option<Conn>, err: Option<Error>)
      ensures model != PerRequest ==> acquired == conn && err == None
      ensures model == PerRequest && dialed.Ok? ==> acquired == Some(dialed.value) && err == None
      ensures model == PerRequest && dialed.Err? ==> acquired == None && err == Some(dialed.error)
    {
      if model != PerRequest {
        return conn, None;
      }
      match dialed
      case Ok(c) => return Some(c), None;
      case Err(e) => return None, Some(e);
    }

    // The release function Acquire returned for c; closed is what it closes,
    // and it is what the release step of the system closes.
    method ReleaseConn(c: Conn, ghost setup: Setup, ghost w: Protocol.Worker) returns (closed: seq<Conn>)
      requires setup.model == model && w.pc.Releasing? && w.pc.conn == c
      ensures closed == ClosedBy(EffectOf(setup, w, Release))
    {
      return if model == PerRequest then [c] else [];
    }

    // A per-worker source forgets its connection before closing it, so a second
    // Close closes nothing. The first closes what the system's last step does.
    method Close(ghost setup: Setup, ghost w: Protocol.Worker) returns (closed: seq<Conn>)
      requires setup.model == model && w.pc == Closing && w.source == conn
      modifies this
      ensures closed == ClosedBy(EffectOf(setup, w, CloseSource))
      ensures conn == if model == PerWorker then None else old(conn)
    {
      closed := [];
      if model == PerWorker && conn.Some? {
        closed := [conn.value];
        conn := None;
      }
    }
  }

  class ConnPool {
    const model: ConnModel
    const conn: Option<Conn>

    constructor (model: ConnModel, conn: Option<Conn>)
      ensures this.model == model && this.conn == conn
    {
      this.model := model;
      this.conn := conn;
    }

    method NewSource(dialed: Outcome<Conn, Error>) returns (source: Outcome<ConnSource, Error>)
      ensures model == PerWorker && dialed.Err? ==> source == Err(dialed.error)
      ensures !(model == PerWorker && dialed.Err?) ==>
                && source.Ok? && fresh(source.value) && source.value.model == model
                && source.value.conn == (match model
                                         case PerWorker => Some(dialed.value)
                                         case Shared => conn
                                         case PerRequest => None)
    {
      match model
      case PerWorker =>
        match dialed {
          case Err(e) => return Err(e);
          case Ok(c) =>
            var s := new ConnSource(model, Some(c));
            return Ok(s);
        }
      case Shared =>
        var s := new ConnSource(model, conn);
        return Ok(s);
      case PerRequest =>
        var s := new ConnSource(model, None);
        return Ok(s);
    }

    // Closing the pool closes what the step that ends the run closes.
    method Close(ghost setup: Setup, ghost s: System) returns (closed: seq<Conn>)
      requires setup.model == model && conn == PooledConn(model)
      requires Advance(setup, s, ClosePool).Some?
      ensures |closed| <= 1
      ensures Advance(setup, s, ClosePool).value.closes ==
              if closed == [] then s.closes else ApplyEffect(s.closes, Closes(closed[0]))
    {
      return if model == Shared && conn.Some? then [conn.value] else [];
    }
  }

  // A pool by the name of its model; the shared one is dialed at once.
  datatype PoolError = UnknownModel | DialFailed(error: Error)

  function ModelNamed(name: string): Option<ConnModel> {
    if name == "per-worker" then Some(PerWorker)
    else if name == "shared" then Some(Shared)
    else if name == "per-request" then Some(PerRequest)
    else None
  }

  // The three names of the flag.
  lemma ModelNames(name: string)
    ensures ModelNamed(name) == Some(PerWorker) <==> name == "per-worker"
    ensures ModelNamed(name) == Some(Shared) <==> name == "shared"
    ensures ModelNamed(name) == Some(PerRequest) <==> name == "per-request"
  {
  }

  method NewConnPool(name: string, dialed: Outcome<Conn, Error>) returns (pool: Outcome<ConnPool, PoolError>)
    ensures ModelNamed(name).None? ==> pool == Err(UnknownModel)
    ensures ModelNamed(name) == Some(Shared) && dialed.Err? ==> pool == Err(DialFailed(dialed.error))
    ensures ModelNamed(name).Some? && (ModelNamed(name) == Some(Shared) ==> dialed.Ok?) ==>
              && pool.Ok? && fresh(pool.value) && pool.value.model == ModelNamed(name).value
              && pool.value.conn == (if pool.value.model == Shared then Some(dialed.value) else None)
  {
    var model := ModelNamed(name);
    if model.None? {
      return Err(UnknownModel);
    }
    if model.value == Shared {
      match dialed
      case Err(e) => return Err(DialFailed(e));
      case Ok(c) =>
        var p := new ConnPool(Shared, Some(c));
        return Ok(p);
    }
    var p := new ConnPool(model.value, None);
    return Ok(p);
  }

  // ----- worker.go

  // What the outside answers during one turn of the loop, after a context check
  // that found the run still on.
  datatype Turn = Turn(
    dialed: Outcome<Conn, Error>, doneAfterAcquire: bool, failedAt: int,
    draw: int, start: int, end: int, reply: Reply, doneAfterCall: bool)

  // The worker machine driven through one turn.
  function StepTurn(setup: Setup, w: Protocol.Worker, t: Turn): Option<Protocol.Worker> {
    var w1 :- StepWorker(setup, w, CheckContext(false));
    var w2 :- StepWorker(setup, w1, Acquire(t.dialed));
    if w2.pc.AcquireFailed? then StepWorker(setup, w2, JudgeAcquire(t.doneAfterAcquire, t.failedAt))
    else
      var w3 :- StepWorker(setup, w2, Call(t.start, t.draw));
      var w4 :- StepWorker(setup, w3, Answer(t.end, t.reply));
      var w5 :- StepWorker(setup, w4, JudgeCall(t.doneAfterCall));
      StepWorker(setup, w5, Release)
  }

  // Turn after turn until a turn leaves the loop or the context is done.
  function StepTurns(setup: Setup, w: Protocol.Worker, turns: seq<Turn>): Option<Protocol.Worker>
    decreases |turns|
  {
    if turns == [] then
      var w1 :- StepWorker(setup, w, CheckContext(true));
      StepWorker(setup, w1, CloseSource)
    else
      var w1 :- StepTurn(setup, w, turns[0]);
      if w1.pc.Closing? then StepWorker(setup, w1, CloseSource) else StepTurns(setup, w1, turns[1..])
  }

  // A whole life: open a source, then turn after turn.
  function StepScript(setup: Setup, given: Outcome<Conn, Error>, openedAt: int, turns: seq<Turn>)
    : Option<Protocol.Worker>
  {
    var w :- StepWorker(setup, FRESH_WORKER, NewSource(given, openedAt));
    if w.pc.Done? then Some(w) else StepTurns(setup, w, turns)
  }

  // The turn gets as far as the call.
  predicate Calls(model: ConnModel, t: Turn) {
    model == PerRequest ==> t.dialed.Ok?
  }

  // Whether the turn leaves the loop.
  predicate Leaves(model: ConnModel, t: Turn) {
    if Calls(model, t) then Dropped(t.reply, t.doneAfterCall) else t.doneAfterAcquire
  }

  // A turn that calls draws something that a request can be built from.
  predicate Buildable(setup: Setup, t: Turn) {
    Calls(setup.model, t) ==> RequestFor(setup.selector, setup.sizes, setup.limit, t.draw).Some?
  }

  // So does every turn up to the first that leaves.
  predicate AllBuildable(setup: Setup, turns: seq<Turn>) {
    turns != [] ==> Buildable(setup, turns[0]) && (Leaves(setup.model, turns[0]) || AllBuildable(setup, turns[1..]))
  }

  // The worker gets a source.
  predicate Opened(model: ConnModel, given: Outcome<Conn, Error>) {
    model == PerWorker ==> given.Ok?
  }

  // What run asks of the answers it gets: a shared pool gives out the connection
  // it holds, and requests can be built from what is drawn for the calls.
  predicate Answers(setup: Setup, pooled: Option<Conn>, given: Outcome<Conn, Error>, turns: seq<Turn>) {
    && (setup.model == Shared ==> given.Ok? && pooled == Some(given.value))
    && (Opened(setup.model, given) ==> AllBuildable(setup, turns))
  }

  // The connections dialed during the turns up to the first that leaves.
  function DialedDuring(turns: seq<Turn>): seq<Conn> {
    if turns == [] then []
    else
      (if turns[0].dialed.Ok? then [turns[0].dialed.value] else [])
      + (if Leaves(PerRequest, turns[0]) then [] else DialedDuring(turns[1..]))
  }

  // Every connection the worker dials over its life.
  function DialedBy(model: ConnModel, given: Outcome<Conn, Error>, turns: seq<Turn>): seq<Conn> {
    match model
    case Shared => []
    case PerWorker => if given.Ok? then [given.value] else []
    case PerRequest => DialedDuring(turns)
  }

  lemma LoopStep(setup: Setup, w: Protocol.Worker, turns: seq<Turn>, i: nat, w': Protocol.Worker)
    requires i < |turns| && StepTurn(setup, w, turns[i]) == Some(w')
    ensures StepTurns(setup, w, turns[i..]) ==
            if w'.pc.Closing? then StepWorker(setup, w', CloseSource) else StepTurns(setup, w', turns[i + 1..])
  {
    hide StepTurn, StepWorker;
    assert turns[i..][0] == turns[i] && turns[i..][1..] == turns[i + 1..];
  }

  lemma DialedStep(turns: seq<Turn>, i: nat)
    requires i < |turns|
    ensures DialedDuring(turns[i..]) ==
            (if turns[i].dialed.Ok? then [turns[i].dialed.value] else [])
            + (if Leaves(PerRequest, turns[i]) then [] else DialedDuring(turns[i + 1..]))
  {
    hide Leaves;
    assert turns[i..][0] == turns[i] && turns[i..][1..] == turns[i + 1..];
  }

  lemma BuildableStep(setup: Setup, turns: seq<Turn>, i: nat)
    requires i < |turns| && AllBuildable(setup, turns[i..])
    ensures Buildable(setup, turns[i])
    ensures Leaves(setup.model, turns[i]) || AllBuildable(setup, turns[i + 1..])
  {
    hide Buildable, Leaves;
    assert turns[i..][0] == turns[i] && turns[i..][1..] == turns[i + 1..];
  }

  lemma DialedNothing()
    ensures DialedDuring([]) == []
  {
  }

  lemma TurnsOver(setup: Setup, w: Protocol.Worker)
    requires w.pc == LoopHead
    ensures StepWorker(setup, w, CheckContext(true)) == Some(w.(pc := Closing))
    ensures StepTurns(setup, w, []) == StepWorker(setup, w.(pc := Closing), CloseSource)
  {
  }

  // The machine's turn when the acquire fails.
  lemma FailedTurn(setup: Setup, w: Protocol.Worker, t: Turn) returns (w': Protocol.Worker)
    requires w.pc == LoopHead && !Calls(setup.model, t)
    ensures StepTurn(setup, w, t) == Some(w')
    ensures w'.source == w.source && w'.pc == (if t.doneAfterAcquire then Closing else LoopHead)
    ensures w'.results == w.results + (if t.doneAfterAcquire then []
                                       else [RecordFailure(t.failedAt, AcquiringError(t.dialed.error))])
  {
    hide RecordFailure, AcquiringError, Settle;
    w' := StepTurn(setup, w, t).value;
  }

  // The machine's turn when it calls on c; w5 is about to release it.
  lemma CalledTurn(setup: Setup, w: Protocol.Worker, t: Turn, c: Conn)
    returns (w5: Protocol.Worker, w': Protocol.Worker)
    requires w.pc == LoopHead && Calls(setup.model, t) && Buildable(setup, t)
    requires if setup.model == PerRequest then t.dialed == Ok(c) else w.source == Some(c)
    ensures w5.pc.Releasing? && w5.pc.conn == c
    ensures ClosedBy(EffectOf(setup, w5, Release)) == if setup.model == PerRequest then [c] else []
    ensures StepTurn(setup, w, t) == Some(w')
    ensures var dropped := Dropped(t.reply, t.doneAfterCall);
            && w'.source == w.source && w'.pc == (if dropped then Closing else LoopHead)
            && w'.results == w.results + (if dropped then [] else [RecordOf(t.start, t.end, t.reply)])
  {
    hide RequestFor, RecordOf, Settle, Dropped;
    var w1 := StepWorker(setup, w, CheckContext(false)).value;
    var w2 := StepWorker(setup, w1, Acquire(t.dialed)).value;
    var w3 := StepWorker(setup, w2, Call(t.start, t.draw)).value;
    var w4 := StepWorker(setup, w3, Answer(t.end, t.reply)).value;
    w5 := StepWorker(setup, w4, JudgeCall(t.doneAfterCall)).value;
    w' := StepWorker(setup, w5, Release).value;
  }

  class Worker {
    const setup: Setup
    var results: seq<Result>

    constructor (setup: Setup)
      ensures this.setup == setup && results == []
    {
      this.setup := setup;
      results := [];
    }

    // One call: build the request, then record the outcome or drop it.
    method DoCall(t: Turn) returns (dropped: bool, request: Request)
      requires RequestFor(setup.selector, setup.sizes, setup.limit, t.draw).Some?
      modifies this
      ensures dropped == Dropped(t.reply, t.doneAfterCall)
      ensures Some(request) == RequestFor(setup.selector, setup.sizes, setup.limit, t.draw)
      ensures results == old(results) + (if dropped then [] else [RecordOf(t.start, t.end, t.reply)])
    {
      var shape := PickShape(setup.selector, t.draw);
      request := BuildEchoRequest(shape.value, setup.sizes);
      if t.reply.Failure? && (t.doneAfterCall || IsCancellation(t.reply.error)) {
        return true, request;
      }
      var r := Result(
        t.start, t.end, Saturate(t.end - t.start), 0, 0, false, "", "", t.reply.peer,
        if t.reply.Failure? then Some(t.reply.error) else None);
      if t.reply.Success? {
        r := r.(serverNs := t.reply.serverNs, podName := t.reply.podName, podHostname := t.reply.podHostname);
        if t.reply.upstreamMs.Some? {
          r := r.(hasUpstream := true, upstreamNs := Wrap(t.reply.upstreamMs.value * NS_PER_MS));
        }
      }
      results := results + [r];
      return false, request;
    }

    // One turn: acquire, then call and release, or judge the failure. closed
    // lists what the turn closes.
    method TakeTurn(source: ConnSource, t: Turn, ghost w: Protocol.Worker)
      returns (leave: bool, closed: seq<Conn>, ghost w': Protocol.Worker)
      requires source.model == setup.model && Buildable(setup, t)
      requires w.pc == LoopHead && w.source == source.conn && w.results == results
      requires setup.model != PerRequest ==> source.conn.Some?
      modifies this
      ensures StepTurn(setup, w, t) == Some(w')
      ensures w'.results == results && w'.source == w.source && w'.pc == (if leave then Closing else LoopHead)
      ensures leave == Leaves(setup.model, t)
      ensures closed == if setup.model == PerRequest && t.dialed.Ok? then [t.dialed.value] else []
    {
      hide StepTurn, EffectOf, RequestFor, RecordOf, RecordFailure, AcquiringError, Dropped;
      var conn, err := source.Acquire(t.dialed);
      if err.Some? {
        w' := FailedTurn(setup, w, t);
        if t.doneAfterAcquire {
          return true, [], w';
        }
        results := results + [RecordFailure(t.failedAt, AcquiringError(err.value))];
        return false, [], w';
      }
      ghost var w5;
      w5, w' := CalledTurn(setup, w, t, conn.value);
      var dropped, request := DoCall(t);
      closed := source.ReleaseConn(conn.value, setup, w5);
      leave := dropped;
    }

    // The whole life of a worker. The loop ends when a turn leaves it, or when
    // the context is found done, which here is when the turns run out.
    method Run(pool: ConnPool, given: Outcome<Conn, Error>, openedAt: int, turns: seq<Turn>)
      returns (closed: seq<Conn>, ghost w: Protocol.Worker)
      requires pool.model == setup.model && results == []
      requires Answers(setup, pool.conn, given, turns)
      modifies this
      ensures StepScript(setup, given, openedAt, turns) == Some(w)
      ensures w.pc.Done? && w.results == results
      ensures closed == DialedBy(setup.model, given, turns)
    {
      var attempt := pool.NewSource(given);
      w := StepWorker(setup, FRESH_WORKER, NewSource(given, openedAt)).value;
      if attempt.Err? {
        results := results + [RecordFailure(openedAt, OpeningError(attempt.error))];
        return [], w;
      }
      var source := attempt.value;
      closed, w := Loop(source, turns, w);
      var last := source.Close(setup, w);
      w := StepWorker(setup, w, CloseSource).value;
      closed := closed + last;
    }

    method Loop(source: ConnSource, turns: seq<Turn>, ghost start: Protocol.Worker)
      returns (closed: seq<Conn>, ghost w: Protocol.Worker)
      requires source.model == setup.model && (setup.model != PerRequest ==> source.conn.Some?)
      requires start.pc == LoopHead && start.source == source.conn && start.results == results
      requires AllBuildable(setup, turns)
      modifies this
      ensures w.pc == Closing && w.source == source.conn && w.results == results
      ensures StepTurns(setup, start, turns) == StepWorker(setup, w, CloseSource)
      ensures closed == if setup.model == PerRequest then DialedDuring(turns) else []
    {
      hide StepTurn, StepTurns, StepWorker, DialedDuring, Leaves, Buildable, AllBuildable;
      closed, w := [], start;
      assert turns[0..] == turns;
      var i := 0;
      while i < |turns|
        invariant 0 <= i <= |turns|
        invariant w.pc == LoopHead && w.source == source.conn && w.results == results
        invariant AllBuildable(setup, turns[i..])
        invariant StepTurns(setup, start, turns) == StepTurns(setup, w, turns[i..])
        invariant setup.model != PerRequest ==> closed == []
        invariant setup.model == PerRequest ==> DialedDuring(turns) == closed + DialedDuring(turns[i..])
      {
        BuildableStep(setup, turns, i);
        DialedStep(turns, i);
        var leave, c, w' := TakeTurn(source, turns[i], w);
        LoopStep(setup, w, turns, i, w');
        closed := closed + c;
        w := w';
        if leave {
          return;
        }
        i := i + 1;
      }
      assert turns[i..] == [];
      TurnsOver(setup, w);
      DialedNothing();
      w := StepWorker(setup, w, CheckContext(true)).value;
    }
  }
}
