/**
  The pipeline of a run: the task generator and the workers of runCampaign in
  internal/engine/engine.go, Worker.Run and processTask in internal/engine/worker.go.

  One generator sends tasks into a bounded channel, several workers receive from it.
  Tasks are numbered in the order of sending; the channel holds those from taken up to
  generated.  A replay gives an error only once the context is cancelled, and so does
  the update that counts a test.
 */
module TaskPipeline {
  import opened Options
  import Lifecycle = CampaignLifecycle

  datatype Config = Config(maxTests: int, timed: bool, workers: int)

  function NumWorkers(c: Config): (n: nat)
    ensures n > 0
  {
    if c.workers <= 0 then 4 else c.workers
  }

  datatype Reason = MaxTests | Deadline | Context

  datatype Generator =
    | Checking           // at the head of the loop
    | Polling            // looks at the context
    | Timing             // looks at the deadline
    | Acquiring          // waits for the rate limiter
    | Sending            // waits for the channel
    | Closing(reason: Reason)
    | Closed(reason: Reason)

  datatype Worker =
    | Receiving
    | Replaying(task: nat)
    | Counting(task: nat)
    | Exited

  datatype State = State(
    generated: nat,
    taken: nat,
    gen: Generator,
    workers: seq<Worker>,
    cancelled: bool,
    counted: set<nat>,
    abandoned: set<nat>,
    testsDone: nat,
    final: Option<Lifecycle.Status>)

  datatype Event =
    | Check | Poll | Clock(expired: bool) | Acquire(error: bool) | Send | GiveUp | Close
    | Receive(w: nat) | SeeCancel(w: nat) | ReplayFails(w: nat) | ReplayDone(w: nat)
    | CountFails(w: nat) | Count(w: nat)
    | Cancel | Finish

  function Start(c: Config): State {
    State(0, 0, Checking, seq(NumWorkers(c), i => Receiving), false, {}, {}, 0, None)
  }

  predicate AllExited(workers: seq<Worker>) {
    forall w | 0 <= w < |workers| :: workers[w] == Exited
  }

  function StepGenerator(c: Config, s: State, e: Event): Option<State> {
    match (e, s.gen)
    case (Check, Checking) =>
      Some(s.(gen := if c.maxTests > 0 && s.generated >= c.maxTests then Closing(MaxTests) else Polling))
    case (Poll, Polling) => Some(s.(gen := if s.cancelled then Closing(Context) else Timing))
    case (Clock(expired), Timing) => Some(s.(gen := if c.timed && expired then Closing(Deadline) else Acquiring))
    case (Acquire(error), Acquiring) =>
      if error && !s.cancelled then None
      else Some(s.(gen := if error then Closing(Context) else Sending))
    case (Send, Sending) =>
      if s.generated - s.taken < 2 * NumWorkers(c)
      then Some(s.(generated := s.generated + 1, gen := Checking))
      else None
    case (GiveUp, Sending) => if s.cancelled then Some(s.(gen := Closing(Context))) else None
    case (Close, Closing(reason)) => Some(s.(gen := Closed(reason)))
    case (_, _) => None
  }

  function SetWorker(s: State, w: nat, pc: Worker): State
    requires w < |s.workers|
  {
    s.(workers := s.workers[w := pc])
  }

  function StepWorker(s: State, e: Event, w: nat): Option<State>
    requires w < |s.workers|
  {
    match (e, s.workers[w])
    case (Receive(_), Receiving) =>
      if s.taken < s.generated then Some(SetWorker(s, w, Replaying(s.taken)).(taken := s.taken + 1))
      else if s.gen.Closed? then Some(SetWorker(s, w, Exited))
      else None
    case (SeeCancel(_), Receiving) => if s.cancelled then Some(SetWorker(s, w, Exited)) else None
    case (ReplayFails(_), Replaying(t)) =>
      if s.cancelled then Some(SetWorker(s, w, Receiving).(abandoned := s.abandoned + {t})) else None
    case (ReplayDone(_), Replaying(t)) => Some(SetWorker(s, w, Counting(t)))
    case (CountFails(_), Counting(t)) =>
      if s.cancelled then Some(SetWorker(s, w, Receiving).(abandoned := s.abandoned + {t})) else None
    case (Count(_), Counting(t)) =>
      Some(SetWorker(s, w, Receiving).(counted := s.counted + {t}, testsDone := s.testsDone + 1))
    case (_, _) => None
  }

  predicate IsWorkerEvent(e: Event) {
    e.Receive? || e.SeeCancel? || e.ReplayFails? || e.ReplayDone? || e.CountFails? || e.Count?
  }

  function Step(c: Config, s: State, e: Event): Option<State> {
    if e == Cancel then
      if s.cancelled then None else Some(s.(cancelled := true))
    else if e == Finish then
      if s.final == None && s.gen.Closed? && AllExited(s.workers)
      then Some(s.(final := Some(if s.cancelled then Lifecycle.Stopped else Lifecycle.Finished)))
      else None
    else if IsWorkerEvent(e) then
      if e.w < |s.workers| then StepWorker(s, e, e.w) else None
    else StepGenerator(c, s, e)
  }

  function Run(c: Config, events: seq<Event>): Option<State> {
    if events == [] then Some(Start(c))
    else
      match Run(c, events[..|events| - 1])
      case None => None
      case Some(s) => Step(c, s, events[|events| - 1])
  }

  // ---- The invariant ----

  predicate HoldsTask(pc: Worker, t: nat) {
    match pc
    case Replaying(task) => task == t
    case Counting(task) => task == t
    case _ => false
  }

  predicate WorkerFits(s: State, w: nat) {
    w < |s.workers| ==>
      match s.workers[w]
      case Receiving => true
      case Replaying(t) => t < s.taken && t !in s.counted && t !in s.abandoned
      case Counting(t) => t < s.taken && t !in s.counted && t !in s.abandoned
      case Exited => s.cancelled || (s.gen.Closed? && s.taken == s.generated)
  }

  predicate Apart(s: State, v: nat, w: nat, t: nat) {
    v < |s.workers| && w < |s.workers| && HoldsTask(s.workers[v], t) && HoldsTask(s.workers[w], t) ==> v == w
  }

  ghost predicate Held(s: State, t: nat) {
    exists w :: 0 <= w < |s.workers| && HoldsTask(s.workers[w], t)
  }

  /** A task that was taken is counted, abandoned or held; no other task is. */
  ghost predicate Accounted(s: State, t: nat) {
    && (t in s.counted ==> t < s.taken && t !in s.abandoned)
    && (t in s.abandoned ==> t < s.taken && s.cancelled)
    && (t < s.taken ==> t in s.counted || t in s.abandoned || Held(s, t))
  }

  predicate GeneratorFits(c: Config, s: State) {
    && s.taken <= s.generated <= s.taken + 2 * NumWorkers(c)
    && (c.maxTests > 0 ==> s.generated <= c.maxTests)
    && match s.gen
       case Checking => true
       case Closing(reason) => ReasonFits(c, s, reason)
       case Closed(reason) => ReasonFits(c, s, reason)
       case _ => c.maxTests > 0 ==> s.generated < c.maxTests
  }

  /** Why the generator has stopped. */
  predicate ReasonFits(c: Config, s: State, reason: Reason) {
    match reason
    case MaxTests => c.maxTests > 0 && s.generated == c.maxTests
    case Deadline => c.timed
    case Context => s.cancelled
  }

  /** The tasks with numbers below n. */
  function Upto(n: nat): (tasks: set<nat>)
    ensures |tasks| == n && forall t: nat :: t in tasks <==> t < n
  {
    if n == 0 then {} else Upto(n - 1) + {n - 1}
  }

  predicate FinalFits(s: State) {
    s.final.Some? ==>
      && s.gen.Closed? && AllExited(s.workers)
      && (s.final == Some(Lifecycle.Finished) || (s.final == Some(Lifecycle.Stopped) && s.cancelled))
      && (s.final == Some(Lifecycle.Finished) ==> s.counted == Upto(s.generated))
  }

  ghost predicate Inv(c: Config, s: State) {
    && |s.workers| == NumWorkers(c)
    && GeneratorFits(c, s)
    && (forall w: nat :: WorkerFits(s, w))
    && (forall v: nat, w: nat, t: nat :: Apart(s, v, w, t))
    && (forall t: nat :: Accounted(s, t))
    && |s.counted| == s.testsDone
    && FinalFits(s)
  }

  lemma StartFits(c: Config)
    ensures Inv(c, Start(c))
  {
  }

  /** The generator moves; the tasks and their holders stay. */
  lemma GeneratorKeeps(c: Config, s: State, e: Event)
    requires Inv(c, s) && StepGenerator(c, s, e).Some?
    ensures Inv(c, StepGenerator(c, s, e).value)
  {
    var d := StepGenerator(c, s, e).value;
    forall w: nat ensures WorkerFits(d, w) { assert WorkerFits(s, w); }
    forall v: nat, w: nat, t: nat ensures Apart(d, v, w, t) { assert Apart(s, v, w, t); }
    forall t: nat ensures Accounted(d, t) { HeldStays(s, d, t); }
  }

  lemma HeldStays(s: State, d: State, t: nat)
    requires Accounted(s, t) && d.workers == s.workers && d.taken == s.taken
    requires d.counted == s.counted && d.abandoned == s.abandoned && (s.cancelled ==> d.cancelled)
    ensures Accounted(d, t)
  {
    if Held(s, t) {
      var w :| 0 <= w < |s.workers| && HoldsTask(s.workers[w], t);
      assert HoldsTask(d.workers[w], t);
    }
  }

  /** A worker moves on with a task, or with none. */
  lemma WorkerTasks(s: State, d: State, w: nat, t: nat)
    requires w < |s.workers| == |d.workers| && d.workers == s.workers[w := d.workers[w]] && d.cancelled == s.cancelled
    requires Accounted(s, t) && WorkerFits(s, w) && (forall v: nat :: Apart(s, v, w, t))
    requires s.taken <= d.taken && s.counted <= d.counted && s.abandoned <= d.abandoned
    requires t in d.counted ==> t in s.counted || HoldsTask(s.workers[w], t)
    requires t in d.abandoned ==> t in s.abandoned || (HoldsTask(s.workers[w], t) && s.cancelled)
    requires t in d.counted ==> t !in d.abandoned
    requires HoldsTask(s.workers[w], t) ==> HoldsTask(d.workers[w], t) || t in d.counted || t in d.abandoned
    requires s.taken <= t < d.taken ==> HoldsTask(d.workers[w], t)
    ensures Accounted(d, t)
  {
    if Held(s, t) {
      var v :| 0 <= v < |s.workers| && HoldsTask(s.workers[v], t);
      if v != w {
        assert HoldsTask(d.workers[v], t);
      } else if HoldsTask(d.workers[w], t) {
        assert Held(d, t);
      }
    } else if HoldsTask(d.workers[w], t) {
      assert Held(d, t);
    }
  }

  lemma WorkerAccounts(c: Config, s: State, e: Event, w: nat)
    requires Inv(c, s) && w < |s.workers| && StepWorker(s, e, w).Some?
    ensures forall t: nat :: Accounted(StepWorker(s, e, w).value, t)
  {
    assert WorkerFits(s, w) && Accounted(s, s.taken);
    forall t: nat ensures Accounted(StepWorker(s, e, w).value, t) {
      assert Accounted(s, t) && forall v: nat :: Apart(s, v, w, t);
      WorkerTasks(s, StepWorker(s, e, w).value, w, t);
    }
  }

  lemma WorkersFit(c: Config, s: State, e: Event, w: nat)
    requires Inv(c, s) && w < |s.workers| && StepWorker(s, e, w).Some?
    ensures forall v: nat :: WorkerFits(StepWorker(s, e, w).value, v)
  {
    var d := StepWorker(s, e, w).value;
    assert WorkerFits(s, w) && Accounted(s, s.taken);
    forall v: nat ensures WorkerFits(d, v) {
      assert WorkerFits(s, v);
      if v != w && v < |s.workers| {
        OthersKeepTasks(s, d, e, w, v);
      }
    }
  }

  lemma WorkersApart(c: Config, s: State, e: Event, w: nat)
    requires Inv(c, s) && w < |s.workers| && StepWorker(s, e, w).Some?
    ensures forall u: nat, v: nat, t: nat :: Apart(StepWorker(s, e, w).value, u, v, t)
  {
    forall u: nat, v: nat, t: nat ensures Apart(StepWorker(s, e, w).value, u, v, t) {
      assert Apart(s, u, v, t) && Apart(s, u, w, t) && Apart(s, w, v, t);
      assert u < |s.workers| ==> WorkerFits(s, u);
      assert v < |s.workers| ==> WorkerFits(s, v);
    }
  }

  lemma WorkerKeeps(c: Config, s: State, e: Event, w: nat)
    requires Inv(c, s) && w < |s.workers| && StepWorker(s, e, w).Some?
    ensures Inv(c, StepWorker(s, e, w).value)
  {
    assert WorkerFits(s, w);
    WorkerAccounts(c, s, e, w);
    WorkersFit(c, s, e, w);
    WorkersApart(c, s, e, w);
  }

  lemma OthersKeepTasks(s: State, d: State, e: Event, w: nat, v: nat)
    requires w < |s.workers| && v < |s.workers| && v != w && StepWorker(s, e, w) == Some(d)
    requires forall t: nat :: Apart(s, v, w, t)
    requires WorkerFits(s, v)
    ensures WorkerFits(d, v)
  {
    match s.workers[w]
    case Replaying(t) => assert Apart(s, v, w, t);
    case Counting(t) => assert Apart(s, v, w, t);
    case _ =>
  }

  lemma CancelKeeps(c: Config, s: State)
    requires Inv(c, s)
    ensures Inv(c, s.(cancelled := true))
  {
    var d := s.(cancelled := true);
    forall w: nat ensures WorkerFits(d, w) { assert WorkerFits(s, w); }
    forall v: nat, w: nat, t: nat ensures Apart(d, v, w, t) { assert Apart(s, v, w, t); }
    forall t: nat ensures Accounted(d, t) { HeldStays(s, d, t); }
  }

  /** When everybody has left and nothing was cancelled, every task is counted. */
  lemma AllCounted(c: Config, s: State)
    requires Inv(c, s) && AllExited(s.workers) && !s.cancelled
    ensures s.counted == Upto(s.generated) && s.gen.Closed?
  {
    assert WorkerFits(s, 0);
    forall t: nat ensures t in s.counted <==> t in Upto(s.generated) {
      assert Accounted(s, t);
    }
  }

  lemma FinishKeeps(c: Config, s: State)
    requires Inv(c, s) && Step(c, s, Finish).Some?
    ensures Inv(c, Step(c, s, Finish).value)
  {
    var d := Step(c, s, Finish).value;
    if !s.cancelled {
      AllCounted(c, s);
    }
    forall w: nat ensures WorkerFits(d, w) { assert WorkerFits(s, w); }
    forall v: nat, w: nat, t: nat ensures Apart(d, v, w, t) { assert Apart(s, v, w, t); }
    forall t: nat ensures Accounted(d, t) { HeldStays(s, d, t); }
  }

  lemma StepKeeps(c: Config, s: State, e: Event)
    requires Inv(c, s) && Step(c, s, e).Some?
    ensures Inv(c, Step(c, s, e).value)
  {
    if e == Cancel {
      CancelKeeps(c, s);
    } else if e == Finish {
      FinishKeeps(c, s);
    } else if IsWorkerEvent(e) {
      WorkerKeeps(c, s, e, e.w);
    } else {
      GeneratorKeeps(c, s, e);
    }
  }

  lemma {:induction false} RunKeeps(c: Config, events: seq<Event>)
    requires Run(c, events).Some?
    ensures Inv(c, Run(c, events).value)
  {
    if events == [] {
      StartFits(c);
    } else {
      RunKeeps(c, events[..|events| - 1]);
      StepKeeps(c, Run(c, events[..|events| - 1]).value, events[|events| - 1]);
    }
  }

  // ---- What a run comes to ----

  /**
    A run that ends FINISHED was not cancelled before its workers had left: it has
    processed every task exactly once, and tests_done is their number, which is max_tests
    if that is what stopped the generator.
   */
  lemma FinishedTheorem(c: Config, events: seq<Event>)
    requires Run(c, events).Some?
    ensures var s := Run(c, events).value;
      && (c.maxTests > 0 ==> s.generated <= c.maxTests)
      && |s.workers| == (if c.workers <= 0 then 4 else c.workers)
      && s.generated - s.taken <= 2 * |s.workers|
      && s.testsDone <= s.generated
      && (s.final == Some(Lifecycle.Finished) ==> s.counted == Upto(s.generated) && s.testsDone == s.generated)
      && (s.final == Some(Lifecycle.Finished) && s.gen == Closed(MaxTests) ==> s.testsDone == c.maxTests)
      && (s.final == Some(Lifecycle.Stopped) ==> s.cancelled)
  {
    RunKeeps(c, events);
    var s := Run(c, events).value;
    assert forall t :: t in s.counted ==> t in Upto(s.generated) by {
      forall t | t in s.counted ensures t in Upto(s.generated) {
        assert Accounted(s, t);
      }
    }
    SubsetSize(s.counted, Upto(s.generated));
  }

  lemma {:induction false} SubsetSize(a: set<nat>, b: set<nat>)
    requires a <= b
    ensures |a| <= |b|
  {
    if a != {} {
      var t :| t in a;
      SubsetSize(a - {t}, b - {t});
    }
  }

  /** A task is counted at most once: counting it always enlarges the set of counted tasks. */
  lemma CountedOnce(c: Config, events: seq<Event>, w: nat)
    requires Run(c, events).Some? && Step(c, Run(c, events).value, Count(w)).Some?
    ensures var s := Run(c, events).value;
      var d := Step(c, s, Count(w)).value;
      d.testsDone == s.testsDone + 1 && |d.counted| == |s.counted| + 1
  {
    RunKeeps(c, events);
    var s := Run(c, events).value;
    StepKeeps(c, s, Count(w));
    assert WorkerFits(s, w);
  }

  ghost predicate CanMove(c: Config, s: State) {
    exists e :: e != Cancel && Step(c, s, e).Some?
  }

  lemma MovesBy(c: Config, s: State, e: Event)
    requires e != Cancel && Step(c, s, e).Some?
    ensures CanMove(c, s)
  {
  }

  lemma GeneratorMoves(c: Config, s: State)
    requires !s.gen.Sending? && !s.gen.Closed?
    ensures CanMove(c, s)
  {
    var e := match s.gen
      case Checking => Check
      case Polling => Poll
      case Timing => Clock(false)
      case Acquiring => Acquire(false)
      case _ => Close;
    MovesBy(c, s, e);
  }

  /** A sender that is blocked waits for a worker, and a receiver that is blocked for the generator. */
  lemma WorkerOrSenderMoves(c: Config, s: State, w: nat)
    requires Inv(c, s) && (s.gen.Sending? || s.gen.Closed?) && w < |s.workers| && s.workers[w] != Exited
    ensures CanMove(c, s)
  {
    match s.workers[w]
    case Replaying(_) => MovesBy(c, s, ReplayDone(w));
    case Counting(_) => MovesBy(c, s, Count(w));
    case _ =>
      if s.taken < s.generated || s.gen.Closed? {
        MovesBy(c, s, Receive(w));
      } else {
        MovesBy(c, s, Send);
      }
  }

  /** The system never blocks: until the final status is set, something other than a cancellation can happen. */
  lemma NeverBlocks(c: Config, events: seq<Event>)
    requires Run(c, events).Some? && Run(c, events).value.final == None
    ensures CanMove(c, Run(c, events).value)
  {
    RunKeeps(c, events);
    var s := Run(c, events).value;
    if !s.gen.Sending? && !s.gen.Closed? {
      GeneratorMoves(c, s);
    } else if AllExited(s.workers) {
      assert WorkerFits(s, 0);
      MovesBy(c, s, if s.gen.Closed? then Finish else GiveUp);
    } else {
      var w :| 0 <= w < |s.workers| && s.workers[w] != Exited;
      WorkerOrSenderMoves(c, s, w);
    }
  }

  // ---- A run with max_tests ends ----

  function GeneratorRank(g: Generator): nat {
    match g
    case Checking => 6
    case Polling => 5
    case Timing => 4
    case Acquiring => 3
    case Sending => 2
    case Closing(_) => 1
    case Closed(_) => 0
  }

  function WorkerRank(pc: Worker): nat {
    match pc
    case Receiving => 1
    case Replaying(_) => 3
    case Counting(_) => 2
    case Exited => 0
  }

  function WorkersRank(workers: seq<Worker>): nat {
    if workers == [] then 0 else WorkersRank(workers[..|workers| - 1]) + WorkerRank(workers[|workers| - 1])
  }

  lemma {:induction false} SetWorkerRank(workers: seq<Worker>, w: nat, pc: Worker)
    requires w < |workers|
    ensures WorkersRank(workers[w := pc]) == WorkersRank(workers) - WorkerRank(workers[w]) + WorkerRank(pc)
  {
    var n := |workers| - 1;
    if w < n {
      SetWorkerRank(workers[..n], w, pc);
      assert workers[w := pc][..n] == workers[..n][w := pc];
    } else {
      assert workers[w := pc][..n] == workers[..n];
    }
  }

  /** What is left to do, if max_tests is set. */
  function Left(c: Config, s: State): int {
    8 * (c.maxTests - s.generated) + GeneratorRank(s.gen) + 3 * (s.generated - s.taken) + WorkersRank(s.workers)
    + (if s.cancelled then 0 else 1) + (if s.final == None then 1 else 0)
  }

  lemma WorkerLeftFalls(c: Config, s: State, e: Event, w: nat)
    requires w < |s.workers| && StepWorker(s, e, w).Some?
    ensures Left(c, StepWorker(s, e, w).value) < Left(c, s)
  {
    SetWorkerRank(s.workers, w, StepWorker(s, e, w).value.workers[w]);
  }

  lemma LeftFalls(c: Config, s: State, e: Event)
    requires c.maxTests > 0 && Step(c, s, e).Some?
    ensures Left(c, Step(c, s, e).value) < Left(c, s)
  {
    if IsWorkerEvent(e) {
      WorkerLeftFalls(c, s, e, e.w);
    }
  }

  lemma LeftIsBounded(c: Config, s: State)
    requires Inv(c, s) && c.maxTests > 0
    ensures Left(c, s) >= 0
  {
  }

  lemma {:induction false} ReceivingRank(n: nat)
    ensures WorkersRank(seq(n, i => Receiving)) == n
  {
    if n > 0 {
      ReceivingRank(n - 1);
      assert seq(n, i => Receiving)[..n - 1] == seq(n - 1, i => Receiving);
    }
  }

  /**
    With max_tests set no run is longer than this, so every run that goes on as long as it
    can sets its final status.
   */
  lemma {:induction false} RunsAreBounded(c: Config, events: seq<Event>)
    requires c.maxTests > 0 && Run(c, events).Some?
    ensures |events| + Left(c, Run(c, events).value) <= 8 * c.maxTests + NumWorkers(c) + 8
    ensures Left(c, Run(c, events).value) >= 0
  {
    RunKeeps(c, events);
    LeftIsBounded(c, Run(c, events).value);
    if events == [] {
      ReceivingRank(NumWorkers(c));
    } else {
      var n := |events| - 1;
      RunsAreBounded(c, events[..n]);
      LeftFalls(c, Run(c, events[..n]).value, events[n]);
    }
  }
}
