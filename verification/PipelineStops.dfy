/**
  What ends the runs of internal/engine/engine.go that a deadline or a cancellation stops.
 */
module PipelineStops {
  import opened Options
  import opened TaskPipeline

  // ---- A run that is stopped ends ----

  predicate IsClosing(g: Generator) {
    g.Closing? || g.Closed?
  }

  /** Nothing keeps the generator going. */
  predicate Stopping(s: State) {
    s.cancelled || IsClosing(s.gen)
  }

  function StoppingRank(g: Generator): nat {
    match g
    case Timing => 9
    case Acquiring => 8
    case Sending => 7
    case Checking => 3
    case Polling => 2
    case Closing(_) => 1
    case Closed(_) => 0
  }

  /** The tasks that the generator can still send. */
  function MaySend(g: Generator): nat {
    if g.Timing? || g.Acquiring? || g.Sending? then 1 else 0
  }

  /** What is left to do then. */
  function LeftStopping(s: State): int {
    StoppingRank(s.gen) + 3 * (s.generated - s.taken) + WorkersRank(s.workers)
    + (if s.cancelled then 0 else 1) + (if s.final == None then 1 else 0)
  }

  lemma WorkerStoppingFalls(s: State, e: Event, w: nat)
    requires w < |s.workers| && StepWorker(s, e, w).Some?
    ensures LeftStopping(StepWorker(s, e, w).value) < LeftStopping(s)
  {
    SetWorkerRank(s.workers, w, StepWorker(s, e, w).value.workers[w]);
  }

  lemma StoppingStep(c: Config, s: State, e: Event)
    requires Stopping(s) && Step(c, s, e).Some?
    ensures var d := Step(c, s, e).value;
      && Stopping(d) && (IsClosing(s.gen) ==> IsClosing(d.gen))
      && LeftStopping(d) < LeftStopping(s)
      && s.generated <= d.generated && d.generated + MaySend(d.gen) <= s.generated + MaySend(s.gen)
  {
    if IsWorkerEvent(e) {
      WorkerStoppingFalls(s, e, e.w);
    }
  }

  lemma {:induction false} RankBound(workers: seq<Worker>)
    ensures WorkersRank(workers) <= 3 * |workers|
  {
    if workers != [] {
      RankBound(workers[..|workers| - 1]);
    }
  }

  /** The events after a stop: how many, and how many of them send a task. */
  lemma {:induction false} AfterStopping(c: Config, events: seq<Event>, n: nat)
    requires n <= |events| && Run(c, events).Some? && Run(c, events[..n]).Some? && Stopping(Run(c, events[..n]).value)
    ensures var s, d := Run(c, events[..n]).value, Run(c, events).value;
      && Stopping(d) && |events| - n + LeftStopping(d) <= LeftStopping(s)
      && s.generated <= d.generated && d.generated + MaySend(d.gen) <= s.generated + MaySend(s.gen)
    decreases |events|
  {
    if n == |events| {
      assert events[..n] == events;
    } else {
      var m := |events| - 1;
      assert events[..m][..n] == events[..n];
      AfterStopping(c, events[..m], n);
      StoppingStep(c, Run(c, events[..m]).value, events[m]);
    }
  }

  /** Every part of a run can happen. */
  lemma {:induction false} RunPrefix(c: Config, events: seq<Event>, n: nat)
    requires n <= |events| && Run(c, events).Some?
    ensures Run(c, events[..n]).Some?
    decreases |events|
  {
    if n == |events| {
      assert events[..n] == events;
    } else {
      var m := |events| - 1;
      assert events[..m][..n] == events[..n];
      RunPrefix(c, events[..m], n);
    }
  }

  lemma LeftStoppingBound(c: Config, s: State)
    requires Inv(c, s)
    ensures 0 <= LeftStopping(s) <= StoppingRank(s.gen) + 9 * |s.workers| + 2
  {
    RankBound(s.workers);
  }

  lemma StepOf(c: Config, events: seq<Event>, n: nat)
    requires n < |events| && Run(c, events).Some?
    ensures Run(c, events[..n]).Some? && Run(c, events[..n + 1]) == Step(c, Run(c, events[..n]).value, events[n])
    ensures Run(c, events[..n + 1]).Some?
  {
    RunPrefix(c, events, n);
    RunPrefix(c, events, n + 1);
    assert events[..n + 1][..n] == events[..n];
  }

  lemma {:induction false} CancelIsEvent(c: Config, events: seq<Event>)
    requires Run(c, events).Some?
    ensures Run(c, events).value.cancelled <==> Cancel in events
  {
    if events != [] {
      var n := |events| - 1;
      CancelIsEvent(c, events[..n]);
      assert events == events[..n] + [events[n]];
      if IsWorkerEvent(events[n]) {
        assert Run(c, events).value.cancelled == Run(c, events[..n]).value.cancelled;
      }
    }
  }

  /** Once the channel is about to be closed no task is sent, and the events are numbered. */
  lemma ClosedForGood(c: Config, events: seq<Event>, n: nat)
    requires n <= |events| && Run(c, events).Some?
    requires Run(c, events[..n]).Some? && IsClosing(Run(c, events[..n]).value.gen)
    ensures Run(c, events).value.generated == Run(c, events[..n]).value.generated
    ensures |events| - n <= 9 * (if c.workers <= 0 then 4 else c.workers) + 3
  {
    AfterStopping(c, events, n);
    RunKeeps(c, events[..n]);
    RunKeeps(c, events);
    LeftStoppingBound(c, Run(c, events[..n]).value);
    LeftStoppingBound(c, Run(c, events).value);
  }

  /**
    With a deadline: once the timer has fired and the generator has seen it, no task is
    sent any more, and the run ends within a number of events that depends on the workers only.
   */
  lemma DeadlineTheorem(c: Config, events: seq<Event>, n: nat)
    requires c.timed && n < |events| && events[n] == Clock(true) && Run(c, events).Some?
    ensures Run(c, events[..n]).Some?
    ensures Run(c, events).value.generated == Run(c, events[..n]).value.generated
    ensures |events| - n <= 9 * (if c.workers <= 0 then 4 else c.workers) + 4
  {
    StepOf(c, events, n);
    assert Run(c, events[..n + 1]).value.gen == Closing(Deadline);
    ClosedForGood(c, events, n + 1);
  }

  /** So it is once the generator has seen a cancellation: at the head of the loop, at the limiter or at the channel. */
  lemma CancelSeen(c: Config, events: seq<Event>, n: nat)
    requires n < |events| && Cancel in events[..n] && events[n] in {Poll, Acquire(true), GiveUp} && Run(c, events).Some?
    ensures Run(c, events[..n]).Some?
    ensures Run(c, events).value.generated == Run(c, events[..n]).value.generated
    ensures |events| - n <= 9 * (if c.workers <= 0 then 4 else c.workers) + 4
  {
    StepOf(c, events, n);
    CancelIsEvent(c, events[..n]);
    assert Run(c, events[..n + 1]).value.gen == Closing(Context);
    ClosedForGood(c, events, n + 1);
  }

  /** After a cancellation at most one more task is sent, and the run ends as well. */
  lemma CancelTheorem(c: Config, events: seq<Event>, n: nat)
    requires n < |events| && events[n] == Cancel && Run(c, events).Some?
    ensures Run(c, events[..n]).Some?
    ensures Run(c, events).value.generated <= Run(c, events[..n]).value.generated + 1
    ensures |events| - n <= 9 * (if c.workers <= 0 then 4 else c.workers) + 12
  {
    StepOf(c, events, n);
    var s := Run(c, events[..n + 1]).value;
    AfterStopping(c, events, n + 1);
    RunKeeps(c, events[..n + 1]);
    RunKeeps(c, events);
    LeftStoppingBound(c, s);
    LeftStoppingBound(c, Run(c, events).value);
  }

  // ---- Nothing else ends a run ----

  predicate Caused(c: Config, s: State, events: seq<Event>, reason: Reason) {
    match reason
    case MaxTests => c.maxTests > 0 && s.generated == c.maxTests
    case Deadline => c.timed && Clock(true) in events
    case Context => Cancel in events
  }

  lemma ClosingStep(c: Config, s: State, e: Event)
    requires GeneratorFits(c, s) && Step(c, s, e).Some? && IsClosing(Step(c, s, e).value.gen)
    ensures var d := Step(c, s, e).value;
      if IsClosing(s.gen) then d.gen.reason == s.gen.reason && d.generated == s.generated
      else
        match d.gen.reason
        case MaxTests => c.maxTests > 0 && d.generated == c.maxTests
        case Deadline => c.timed && e == Clock(true)
        case Context => s.cancelled
  {
  }

  /** The channel is closed only because max_tests is reached, the deadline has passed, or the run was cancelled. */
  lemma {:induction false} ClosedTheorem(c: Config, events: seq<Event>)
    requires Run(c, events).Some? && IsClosing(Run(c, events).value.gen)
    ensures Caused(c, Run(c, events).value, events, Run(c, events).value.gen.reason)
  {
    var n := |events| - 1;
    assert events == events[..n] + [events[n]];
    CancelIsEvent(c, events[..n]);
    RunKeeps(c, events[..n]);
    ClosingStep(c, Run(c, events[..n]).value, events[n]);
    if IsClosing(Run(c, events[..n]).value.gen) {
      ClosedTheorem(c, events[..n]);
    }
  }

  // ---- What a cancellation leaves undone ----

  /**
    Once the run is cancelled, a waiting worker can leave although tasks are in the
    channel, and a worker with a task can drop it, which is then never counted.
   */
  lemma CancelledWorkers(c: Config, events: seq<Event>, w: nat)
    requires Run(c, events).Some? && w < |Run(c, events).value.workers| && Cancel in events
    ensures var s := Run(c, events).value;
      match s.workers[w]
      case Receiving =>
        var left := Step(c, s, SeeCancel(w));
        left.Some? && left.value.workers[w] == Exited && left.value.taken == s.taken
      case Replaying(t) => Drops(c, s, ReplayFails(w), t)
      case Counting(t) => Drops(c, s, CountFails(w), t)
      case Exited => true
  {
    CancelIsEvent(c, events);
    RunKeeps(c, events);
    assert WorkerFits(Run(c, events).value, w);
  }

  predicate Drops(c: Config, s: State, e: Event, t: nat) {
    && Step(c, s, e).Some?
    && t in Step(c, s, e).value.abandoned && t !in Step(c, s, e).value.counted
  }

  lemma AbandonedStays(c: Config, s: State, e: Event)
    requires Step(c, s, e).Some?
    ensures s.abandoned <= Step(c, s, e).value.abandoned
  {
  }

  lemma {:induction false} StaysAbandoned(c: Config, events: seq<Event>, n: nat)
    requires n <= |events| && Run(c, events).Some? && Run(c, events[..n]).Some?
    ensures Run(c, events[..n]).value.abandoned <= Run(c, events).value.abandoned
    decreases |events|
  {
    if n == |events| {
      assert events[..n] == events;
    } else {
      var m := |events| - 1;
      assert events[..m][..n] == events[..n];
      StaysAbandoned(c, events[..m], n);
      AbandonedStays(c, Run(c, events[..m]).value, events[m]);
    }
  }

  /** A task that was dropped is not counted later. */
  lemma DroppedForGood(c: Config, events: seq<Event>, n: nat, t: nat)
    requires n <= |events| && Run(c, events).Some? && Run(c, events[..n]).Some?
    requires t in Run(c, events[..n]).value.abandoned
    ensures t !in Run(c, events).value.counted
  {
    RunKeeps(c, events);
    StaysAbandoned(c, events, n);
    assert Accounted(Run(c, events).value, t);
  }
}
