/**
  The lifecycle of one campaign: StartCampaign, runCampaign, StopCampaign, StopAll and
  RecoverStuckCampaigns of internal/engine/engine.go, over UpdateStatus of
  internal/db/campaigns.go.

  Any number of starts and stops run at once.  Each event is one atomic action of one
  of them: a compare-and-swap in the database, or a critical section of the mutex.  A
  run of the system is a list of events.
 */
module CampaignLifecycle {
  import opened Options

  datatype Status = Created | Starting | Running | Stopping | Stopped | Finished | Failed

  /** The states in which the API accepts a start. */
  predicate Startable(s: Status) {
    s == Created || s == Stopped || s == Finished || s == Failed
  }

  datatype Outcome = Applied | Refused | Errored

  /** UPDATE campaigns SET status = to WHERE status = from; a faulty one changes nothing. */
  function Cas(status: Status, from: Status, to: Status, fault: bool): (Status, Outcome) {
    if fault then (status, Errored)
    else if status == from then (to, Applied)
    else (status, Refused)
  }

  /** Where a start, its run, or a stop has got to. */
  datatype Pc =
    | Seen(status: Status)           // a start, after reading the campaign
    | Loading                        // it has claimed the campaign, and loads the seeds
    | Registered                     // its cancel function is in the running map
    | Launching                      // the campaign is RUNNING, and it builds the planner
    | Working                        // the goroutine of the run
    | Ending(final: Status)          // its workers are done; first final update
    | EndingAgain(final: Status)     // second final update
    | Leaving                        // the deferred delete from the running map
    | Withdrawing(from: Status)      // a start that gives up: cancel, delete
    | Failing(from: Status)          // failCampaign
    | StopSeen(run: nat)             // a stop, after reading the running map
    | StopAgain(run: nat)
    | StopAllSeen(run: nat)
    | Cancelling(run: nat)
    | Done

  /** running holds the start whose cancel function is in the map; faulty, whether an update has failed. */
  datatype State = State(status: Status, running: Option<nat>, procs: map<nat, Pc>, cancelled: set<nat>, faulty: bool)

  datatype Event =
    | Read(p: nat) | Claim(p: nat, fault: bool) | LoadFails(p: nat) | Register(p: nat)
    | Activate(p: nat, fault: bool) | PlanFails(p: nat) | Launch(p: nat)
    | WorkersDone(p: nat) | End(p: nat, fault: bool) | EndAgain(p: nat, fault: bool) | Leave(p: nat)
    | Withdraw(p: nat) | Fail(p: nat, fault: bool)
    | Stop(p: nat) | StopRunning(p: nat, fault: bool) | StopStarting(p: nat, fault: bool)
    | StopAll(p: nat) | StopAllRunning(p: nat, fault: bool) | Cancel(p: nat)
    | Restart

  /** The process moves on, and the status with it. */
  function Move(s: State, p: nat, pc: Pc, status: Status, fault: bool): State {
    s.(procs := s.procs[p := pc], status := status, faulty := s.faulty || fault)
  }

  function Goto(s: State, p: nat, pc: Pc): State {
    Move(s, p, pc, s.status, false)
  }

  /** The state after an event, or None if the event cannot happen now. */
  function Step(s: State, e: Event): Option<State> {
    match e
    case Read(p) =>
      if p !in s.procs && Startable(s.status) then Some(Goto(s, p, Seen(s.status))) else None
    case Restart => Some(Recovered(s))
    case Stop(p) =>
      if p !in s.procs && s.running.Some? then Some(Goto(s, p, StopSeen(s.running.value))) else None
    case StopAll(p) =>
      if p !in s.procs && s.running.Some? then Some(Goto(s, p, StopAllSeen(s.running.value))) else None
    case _ => if e.p in s.procs then ProcStep(s, e, s.procs[e.p]) else None
  }

  function ProcStep(s: State, e: Event, pc: Pc): Option<State>
    requires !e.Restart?
  {
    match (e, pc)
    case (Claim(p, fault), Seen(seen)) =>
      var (status, outcome) := Cas(s.status, seen, Starting, fault);
      Some(Move(s, p, if outcome == Applied then Loading else Done, status, fault))
    case (LoadFails(p), Loading) => Some(Goto(s, p, Failing(Starting)))
    case (Register(p), Loading) => Some(Goto(s, p, Registered).(running := Some(p)))
    case (Activate(p, fault), Registered) =>
      var (status, outcome) := Cas(s.status, Starting, Running, fault);
      Some(Move(s, p, if outcome == Applied then Launching else Withdrawing(Starting), status, fault))
    case (PlanFails(p), Launching) => Some(Goto(s, p, Withdrawing(Running)))
    case (Launch(p), Launching) => Some(Goto(s, p, Working))
    case (WorkersDone(p), Working) => Some(Goto(s, p, Ending(if p in s.cancelled then Stopped else Finished)))
    case (End(p, fault), Ending(final)) =>
      var (status, outcome) := Cas(s.status, Running, final, fault);
      Some(Move(s, p, if outcome == Applied then Leaving else EndingAgain(final), status, fault))
    case (EndAgain(p, fault), EndingAgain(final)) =>
      Some(Move(s, p, Leaving, Cas(s.status, Stopping, final, fault).0, fault))
    case (Leave(p), Leaving) => Some(Goto(s, p, Done).(running := None))
    case (Withdraw(p), Withdrawing(from)) =>
      Some(Goto(s, p, Failing(from)).(running := None, cancelled := s.cancelled + {p}))
    case (Fail(p, fault), Failing(from)) =>
      Some(Move(s, p, Done, Cas(s.status, from, Failed, fault).0, fault))
    case (StopRunning(p, fault), StopSeen(run)) =>
      var (status, outcome) := Cas(s.status, Running, Stopping, fault);
      Some(Move(s, p, if outcome == Refused then StopAgain(run) else Cancelling(run), status, fault))
    case (StopStarting(p, fault), StopAgain(run)) =>
      Some(Move(s, p, Cancelling(run), Cas(s.status, Starting, Stopping, fault).0, fault))
    case (StopAllRunning(p, fault), StopAllSeen(run)) =>
      Some(Move(s, p, Cancelling(run), Cas(s.status, Running, Stopping, fault).0, fault))
    case (Cancel(p), Cancelling(run)) => Some(Goto(s, p, Done).(cancelled := s.cancelled + {run}))
    case (_, _) => None
  }

  /** A new process: nothing runs, and RecoverStuckCampaigns has updated the status from each of three states. */
  function Recovered(s: State): State {
    var first := Cas(s.status, Starting, Stopped, false).0;
    var second := Cas(first, Running, Stopped, false).0;
    State(Cas(second, Stopping, Stopped, false).0, None, map[], {}, false)
  }

  function Run(s: State, events: seq<Event>): Option<State> {
    if events == [] then Some(s)
    else
      match Run(s, events[..|events| - 1])
      case None => None
      case Some(t) => Step(t, events[|events| - 1])
  }

  predicate Initial(s: State) {
    s.running == None && s.procs == map[] && s.cancelled == {} && !s.faulty && Startable(s.status)
  }

  // ---- Ownership ----

  /** From a successful claim to the last update of the status. */
  predicate Owning(pc: Pc) {
    match pc
    case Loading | Registered | Launching | Working => true
    case Ending(_) | EndingAgain(_) | Withdrawing(_) | Failing(_) => true
    case _ => false
  }

  predicate Owner(s: State, p: nat) {
    p in s.procs && Owning(s.procs[p])
  }

  ghost predicate Owned(s: State) {
    exists p :: Owner(s, p)
  }

  /** The statuses that an owner at pc can find. */
  predicate Fits(pc: Pc, status: Status, faulty: bool) {
    match pc
    case Seen(seen) => Startable(seen)
    case Loading | Registered => status == Starting || status == Stopping
    case Launching | Working => status == Running || status == Stopping
    case Ending(final) => (final == Stopped || final == Finished) && (status == Running || status == Stopping)
    case EndingAgain(final) =>
      (final == Stopped || final == Finished) && (status == Stopping || (faulty && status == Running))
    case Withdrawing(from) =>
      || (from == Starting && (status == Stopping || (faulty && status == Starting)))
      || (from == Running && (status == Running || status == Stopping))
    case Failing(from) => (from == Starting || from == Running) && (status == from || status == Stopping)
    case _ => true
  }

  predicate ProcFits(s: State, p: nat) {
    p in s.procs ==> Fits(s.procs[p], s.status, s.faulty)
  }

  predicate NotBoth(s: State, p: nat, q: nat) {
    Owner(s, p) && Owner(s, q) ==> p == q
  }

  ghost predicate Inv(s: State) {
    && (forall p :: ProcFits(s, p))
    && (forall p, q :: NotBoth(s, p, q))
    && (!Owned(s) && !s.faulty ==> Startable(s.status) || s.status == Stopping)
  }

  /** What may happen to the status while somebody else owns the campaign. */
  predicate ByStop(before: Status, after: Status) {
    after == before || (after == Stopping && (before == Starting || before == Running))
  }

  /** One process moves: as the owner, or by becoming it, or without touching more than a stop does. */
  ghost predicate Moves(s: State, p: nat, t: State) {
    && p in t.procs && t.procs == s.procs[p := t.procs[p]] && (s.faulty ==> t.faulty)
    && Fits(t.procs[p], t.status, t.faulty)
    && (Owner(s, p) || !Owned(s) || (ByStop(s.status, t.status) && !Owning(t.procs[p])))
    && (!Owning(t.procs[p]) && (Owner(s, p) || !Owned(s)) && !t.faulty ==> Startable(t.status) || t.status == Stopping)
  }

  lemma MoveKeeps(s: State, p: nat, t: State)
    requires Inv(s) && Moves(s, p, t)
    ensures Inv(t)
  {
    forall q ensures ProcFits(t, q) {
      assert ProcFits(s, q) && NotBoth(s, p, q);
      if q != p && q in s.procs {
        assert !Owned(s) ==> !Owner(s, q);
      }
    }
    forall q, r ensures NotBoth(t, q, r) {
      assert NotBoth(s, q, r) && NotBoth(s, p, q) && NotBoth(s, p, r);
      assert !Owned(s) ==> !Owner(s, q) && !Owner(s, r);
    }
    if !Owned(t) && !t.faulty {
      assert !Owner(t, p);
      if Owned(s) && !Owner(s, p) {
        var q :| Owner(s, q);
        assert Owner(t, q);
      }
    }
  }

  lemma StartableIsUnowned(s: State)
    requires Inv(s)
    ensures Startable(s.status) ==> !Owned(s)
  {
    forall p | Startable(s.status) ensures !Owner(s, p) {
      assert ProcFits(s, p);
    }
  }

  predicate IsStopEvent(e: Event) {
    e.Stop? || e.StopRunning? || e.StopStarting? || e.StopAll? || e.StopAllRunning? || e.Cancel?
  }

  lemma StopMoves(s: State, e: Event)
    requires Inv(s) && Step(s, e).Some? && IsStopEvent(e)
    ensures Moves(s, e.p, Step(s, e).value)
  {
    assert ProcFits(s, e.p);
  }

  lemma StartMoves(s: State, e: Event)
    requires Inv(s) && Step(s, e).Some? && !IsStopEvent(e) && !e.Restart?
    ensures Moves(s, e.p, Step(s, e).value)
  {
    assert ProcFits(s, e.p);
    StartableIsUnowned(s);
  }

  lemma StepKeeps(s: State, e: Event)
    requires Inv(s) && Step(s, e).Some?
    ensures Inv(Step(s, e).value)
  {
    if e.Restart? {
      assert !Owned(Step(s, e).value);
    } else {
      if IsStopEvent(e) { StopMoves(s, e); } else { StartMoves(s, e); }
      MoveKeeps(s, e.p, Step(s, e).value);
    }
  }

  lemma {:induction false} RunKeeps(s: State, events: seq<Event>)
    requires Inv(s) && Run(s, events).Some?
    ensures Inv(Run(s, events).value)
  {
    if events != [] {
      RunKeeps(s, events[..|events| - 1]);
      StepKeeps(Run(s, events[..|events| - 1]).value, events[|events| - 1]);
    }
  }

  ghost predicate Reachable(s: State) {
    exists start, events :: Initial(start) && Run(start, events) == Some(s)
  }

  lemma ReachableKeeps(s: State)
    requires Reachable(s)
    ensures Inv(s)
  {
    var start, events :| Initial(start) && Run(start, events) == Some(s);
    assert !Owned(start);
    RunKeeps(start, events);
  }

  /** In every interleaving, with or without failing updates, at most one start owns the campaign. */
  lemma AtMostOneOwner(s: State, p: nat, q: nat)
    requires Reachable(s) && Owner(s, p) && Owner(s, q)
    ensures p == q
    ensures s.status == Starting || s.status == Running || s.status == Stopping
  {
    ReachableKeeps(s);
    assert NotBoth(s, p, q) && ProcFits(s, p);
  }

  /** Without failing updates, a campaign that nobody owns can be started again or is stuck in STOPPING. */
  lemma UnownedStatus(s: State)
    requires Reachable(s) && !s.faulty && !Owned(s)
    ensures Startable(s.status) || s.status == Stopping
  {
    ReachableKeeps(s);
  }

  /**
    How an owner leaves, if no update fails: a run that was launched always lands its
    final status; a start that gives up lands FAILED unless a stop came before.
   */
  lemma OwnerLeaves(s: State, e: Event, p: nat)
    requires Reachable(s) && Step(s, e).Some? && !e.Restart? && !Step(s, e).value.faulty
    requires Owner(s, p) && !Owner(Step(s, e).value, p)
    ensures var t := Step(s, e).value;
      match s.procs[p]
      case Ending(final) => t.status == final && (final == Finished || final == Stopped)
      case EndingAgain(final) => t.status == final && (final == Finished || final == Stopped)
      case Failing(from) => t.status == if s.status == Stopping then Stopping else Failed
      case _ => false
  {
    ReachableKeeps(s);
    assert ProcFits(s, p);
  }

  // ---- Runs without a restart ----

  predicate Lives(events: seq<Event>) {
    forall e :: e in events ==> !e.Restart?
  }

  lemma {:induction false} RunConcat(s: State, first: seq<Event>, rest: seq<Event>)
    requires Run(s, first).Some?
    ensures Run(s, first + rest) == Run(Run(s, first).value, rest)
  {
    if rest == [] {
      assert first + rest == first;
    } else {
      var n := |rest| - 1;
      RunConcat(s, first, rest[..n]);
      assert (first + rest)[..|first + rest| - 1] == first + rest[..n];
    }
  }

  /** A start that nothing disturbs works, from every state that can be started, and it is listed. */
  lemma CanStart(s: State, p: nat)
    requires s.status in {Created, Stopped, Finished, Failed} && p !in s.procs
    ensures var started := Run(s, [Read(p), Claim(p, false), Register(p), Activate(p, false), Launch(p)]);
      && started.Some? && started.value.status == Running && started.value.running == Some(p)
      && p in started.value.procs && started.value.procs[p] == Working
  {
    var e1 := [Read(p)];
    var e2 := e1 + [Claim(p, false)];
    var e3 := e2 + [Register(p)];
    var e4 := e3 + [Activate(p, false)];
    assert e4 + [Launch(p)] == [Read(p), Claim(p, false), Register(p), Activate(p, false), Launch(p)];
    assert [] + e1 == e1;
    var t := RunsOn(s, [], s, Read(p));
    t := RunsOn(s, e1, t, Claim(p, false));
    t := RunsOn(s, e2, t, Register(p));
    t := RunsOn(s, e3, t, Activate(p, false));
    t := RunsOn(s, e4, t, Launch(p));
  }

  lemma RunsOn(s: State, events: seq<Event>, t: State, e: Event) returns (u: State)
    requires Run(s, events) == Some(t) && Step(t, e).Some?
    ensures Run(s, events + [e]) == Some(u) == Step(t, e)
  {
    u := Step(t, e).value;
    assert (events + [e])[..|events|] == events;
  }

  /** RecoverStuckCampaigns brings the campaign back from every state. */
  lemma RestartRecovers(s: State)
    ensures Step(s, Restart).Some? && Initial(Step(s, Restart).value)
    ensures Startable(s.status) ==> Step(s, Restart).value.status == s.status
    ensures !Startable(s.status) ==> Step(s, Restart).value.status == Stopped
  {
  }
}
