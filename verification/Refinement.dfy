// The interleaved system and the program's loop are the same worker: what a
// worker does in any schedule is a life of the loop on some answers of the
// outside.
module Refinement {
  import opened Wrappers
  import opened Records
  import opened Sampler
  import opened Protocol
  import opened Invariants
  import W = Workers

  // A worker alone, event after event.
  function StepAll(setup: Setup, w: Worker, events: seq<Event>): Option<Worker> {
    if events == [] then Some(w)
    else
      match StepAll(setup, w, events[..|events| - 1])
      case None => None
      case Some(v) => StepWorker(setup, v, events[|events| - 1])
  }

  // The events of worker i in a schedule.
  function EventsOf(steps: seq<Step>, i: nat): seq<Event> {
    if steps == [] then []
    else
      EventsOf(steps[..|steps| - 1], i)
      + (match steps[|steps| - 1]
         case Act(j, ev) => if j == i then [ev] else []
         case _ => [])
  }

  // Interleaving does not show in a worker: its state depends on its own events.
  lemma {:induction false} ScheduleProjects(setup: Setup, s0: System, steps: seq<Step>, i: nat)
    requires i < |s0.workers| && Run(setup, s0, steps).Some?
    ensures var s := Run(setup, s0, steps).value;
            |s.workers| == |s0.workers| && StepAll(setup, s0.workers[i], EventsOf(steps, i)) == Some(s.workers[i])
  {
    if steps != [] {
      hide Advance, StepAll, EventsOf;
      var front, step := steps[..|steps| - 1], steps[|steps| - 1];
      ScheduleProjects(setup, s0, front, i);
      StepProjects(setup, Run(setup, s0, front).value, step, i);
      EventsOfLast(setup, s0.workers[i], steps, i);
    }
  }

  lemma EventsOfLast(setup: Setup, w: Worker, steps: seq<Step>, i: nat)
    requires steps != [] && StepAll(setup, w, EventsOf(steps[..|steps| - 1], i)).Some?
    ensures var step := steps[|steps| - 1]; var before := StepAll(setup, w, EventsOf(steps[..|steps| - 1], i));
            StepAll(setup, w, EventsOf(steps, i)) ==
            if step.Act? && step.worker == i then StepWorker(setup, before.value, step.event) else before
  {
    hide StepWorker, StepAll, EventsOf;
    var step := steps[|steps| - 1];
    EventsGrow(steps, i);
    if step.Act? && step.worker == i {
      StepAllOneMore(setup, w, EventsOf(steps[..|steps| - 1], i), step.event);
    }
  }

  lemma EventsGrow(steps: seq<Step>, i: nat)
    requires steps != []
    ensures var step := steps[|steps| - 1]; var before := EventsOf(steps[..|steps| - 1], i);
            EventsOf(steps, i) == if step.Act? && step.worker == i then before + [step.event] else before
  {
  }

  lemma StepAllOneMore(setup: Setup, w: Worker, events: seq<Event>, ev: Event)
    requires StepAll(setup, w, events).Some?
    ensures StepAll(setup, w, events + [ev]) == StepWorker(setup, StepAll(setup, w, events).value, ev)
  {
    hide StepWorker;
    assert (events + [ev])[..|events|] == events;
  }

  lemma StepProjects(setup: Setup, s: System, step: Step, i: nat)
    requires i < |s.workers| && Advance(setup, s, step).Some?
    ensures var s' := Advance(setup, s, step).value;
            && |s'.workers| == |s.workers|
            && Some(s'.workers[i]) ==
               if step.Act? && step.worker == i then StepWorker(setup, s.workers[i], step.event) else Some(s.workers[i])
  {
    hide StepWorker, Observes, ApplyEffect, EffectOf;
  }

  // The first event of a life that goes somewhere.
  lemma {:induction false} FirstEvent(setup: Setup, w: Worker, events: seq<Event>)
    requires StepAll(setup, w, events).Some? && events != []
    ensures StepWorker(setup, w, events[0]).Some?
    ensures StepAll(setup, StepWorker(setup, w, events[0]).value, events[1..]) == StepAll(setup, w, events)
  {
    hide StepWorker;
    var front := events[..|events| - 1];
    if front == [] {
      assert events[1..] == [];
      assert StepAll(setup, w, front) == Some(w);
    } else {
      FirstEvent(setup, w, front);
      assert events[1..][..|events| - 2] == front[1..];
      assert front[0] == events[0];
    }
  }

  // A life that ends Done but is not there yet has a first event.
  lemma Onward(setup: Setup, w: Worker, events: seq<Event>) returns (ev: Event, next: Worker, rest: seq<Event>)
    requires StepAll(setup, w, events).Some? && StepAll(setup, w, events).value.pc.Done? && !w.pc.Done?
    ensures events == [ev] + rest && StepWorker(setup, w, ev) == Some(next)
    ensures StepAll(setup, next, rest) == StepAll(setup, w, events)
  {
    hide StepWorker;
    assert events != [];
    FirstEvent(setup, w, events);
    ev, rest := events[0], events[1..];
    next := StepWorker(setup, w, ev).value;
  }

  lemma DoneStays(setup: Setup, w: Worker, events: seq<Event>)
    requires w.pc.Done? && StepAll(setup, w, events).Some?
    ensures StepAll(setup, w, events) == Some(w)
  {
    if events != [] {
      FirstEvent(setup, w, events);
      assert false;
    }
  }

  // From the loop head, the events up to the next loop head, or up to closing,
  // are one turn of the loop.
  lemma OneTurn(setup: Setup, w: Worker, events: seq<Event>)
    returns (t: W.Turn, next: Worker, rest: seq<Event>)
    requires w.pc == Acquiring && StepAll(setup, w, events).Some? && StepAll(setup, w, events).value.pc.Done?
    ensures |rest| < |events| && (next.pc == LoopHead || next.pc == Closing)
    ensures StepAll(setup, next, rest) == StepAll(setup, w, events)
    ensures W.StepTurn(setup, w.(pc := LoopHead), t) == Some(next)
    ensures W.Buildable(setup, t) && (next.pc == Closing <==> W.Leaves(setup.model, t))
  {
    hide RequestFor, RecordOf, RecordFailure, Settle, Dropped, StepAll;
    var e2, w2, r2 := Onward(setup, w, events);
    var someReply := Success(0, "", "", None, "");
    if w2.pc.AcquireFailed? {
      var e3, w3, r3 := Onward(setup, w2, r2);
      t := W.Turn(e2.dialed, e3.done, e3.now, 0, 0, 0, someReply, false);
      next, rest := w3, r3;
    } else {
      var e3, w3, r3 := Onward(setup, w2, r2);
      var e4, w4, r4 := Onward(setup, w3, r3);
      var e5, w5, r5 := Onward(setup, w4, r4);
      var e6, w6, r6 := Onward(setup, w5, r5);
      t := W.Turn(e2.dialed, false, 0, e3.draw, e3.now, e4.now, e4.reply, e5.done);
      next, rest := w6, r6;
    }
  }

  lemma {:induction false} LoopLife(setup: Setup, w: Worker, events: seq<Event>) returns (turns: seq<W.Turn>)
    requires w.pc == LoopHead && StepAll(setup, w, events).Some? && StepAll(setup, w, events).value.pc.Done?
    ensures W.StepTurns(setup, w, turns) == StepAll(setup, w, events) && W.AllBuildable(setup, turns)
    decreases |events|
  {
    hide StepAll, W.StepTurn, W.Buildable, W.Leaves;
    var e1, w1, r1 := Onward(setup, w, events);
    if e1.done {
      var e2, w2, r2 := Onward(setup, w1, r1);
      DoneStays(setup, w2, r2);
      turns := [];
    } else {
      var t, next, rest := OneTurn(setup, w1, r1);
      assert w1.(pc := LoopHead) == w;
      if next.pc == LoopHead {
        var more := LoopLife(setup, next, rest);
        turns := [t] + more;
        assert turns[1..] == more;
      } else {
        var e3, w3, r3 := Onward(setup, next, rest);
        DoneStays(setup, w3, r3);
        turns := [t];
      }
    }
  }

  // A shared source never changes.
  lemma {:induction false} SharedSourceStays(setup: Setup, w: Worker, events: seq<Event>)
    requires setup.model == Shared && !w.pc.Start? && StepAll(setup, w, events).Some?
    ensures StepAll(setup, w, events).value.source == w.source && !StepAll(setup, w, events).value.pc.Start?
  {
    hide RequestFor, RecordOf, RecordFailure, Settle, Dropped;
    if events != [] { SharedSourceStays(setup, w, events[..|events| - 1]); }
  }

  // A whole life of the worker machine is a life of the program's run.
  lemma WholeLife(setup: Setup, events: seq<Event>)
    returns (given: Outcome<Conn, Error>, openedAt: int, turns: seq<W.Turn>)
    requires StepAll(setup, FRESH_WORKER, events).Some? && StepAll(setup, FRESH_WORKER, events).value.pc.Done?
    ensures W.StepScript(setup, given, openedAt, turns) == StepAll(setup, FRESH_WORKER, events)
    ensures W.AllBuildable(setup, turns)
    ensures setup.model == Shared ==>
              StepAll(setup, FRESH_WORKER, events).value.source == if given.Ok? then Some(given.value) else None
  {
    hide StepAll, W.StepTurns;
    var e, w, rest := Onward(setup, FRESH_WORKER, events);
    given, openedAt := e.given, e.now;
    if setup.model == Shared { SharedSourceStays(setup, w, rest); }
    if w.pc.Done? {
      DoneStays(setup, w, rest);
      turns := [];
    } else {
      turns := LoopLife(setup, w, rest);
    }
  }

  // When a run is over, each worker is what the program's run computes, and
  // leaves in its results, on some answers that meet what run asks for,
  // whatever the interleaving was.
  lemma FinishedWorkersRanTheLoop(setup: Setup, s: System, i: nat)
    requires Reaches(setup, s) && s.finished && i < |s.workers|
    ensures exists given, openedAt, turns ::
              && W.Answers(setup, W.PooledConn(setup.model), given, turns)
              && W.StepScript(setup, given, openedAt, turns) == Some(s.workers[i])
  {
    hide SystemInv, W.StepScript, StepAll, Advance, W.AllBuildable;
    var s0, steps :| Initial(setup, s0) && Run(setup, s0, steps) == Some(s);
    RunInv(setup, s0, steps);
    FinishedAreDone(setup, s, i);
    SourceOf(setup, s, i);
    RunKeepsWorkers(setup, s0, steps);
    ScheduleProjects(setup, s0, steps, i);
    assert s0.workers[i] in s0.workers;
    var given, openedAt, turns := WholeLife(setup, EventsOf(steps, i));
    assert W.Answers(setup, W.PooledConn(setup.model), given, turns);
  }

  lemma FinishedAreDone(setup: Setup, s: System, i: nat)
    requires SystemInv(setup, s) && s.finished && i < |s.workers|
    ensures s.workers[i].pc.Done? && |s.workers| == setup.workers
  {
    assert s.workers[i] in s.workers;
  }

  lemma {:induction false} RunKeepsWorkers(setup: Setup, s0: System, steps: seq<Step>)
    requires Run(setup, s0, steps).Some?
    ensures |Run(setup, s0, steps).value.workers| == |s0.workers|
  {
    if steps != [] {
      RunKeepsWorkers(setup, s0, steps[..|steps| - 1]);
    }
  }
}
