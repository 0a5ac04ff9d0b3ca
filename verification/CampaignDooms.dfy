/**
  Stops in internal/engine/engine.go that come before the run is launched.
 */
module CampaignDooms {
  import opened Options
  import opened CampaignLifecycle

  predicate Doom(pc: Pc) {
    Owning(pc) ==> pc.Loading? || pc.Registered? || pc.Withdrawing? || pc.Failing?
  }

  /** The status is STOPPING, and whoever owns the campaign has no run and will get none. */
  ghost predicate Doomed(s: State) {
    s.status == Stopping && forall p | p in s.procs :: Doom(s.procs[p])
  }

  lemma DoomedStep(s: State, e: Event)
    requires Inv(s) && Doomed(s) && Step(s, e).Some? && !e.Restart?
    ensures Doomed(Step(s, e).value)
  {
    assert ProcFits(s, e.p);
  }

  /** Until the process is restarted, a doomed campaign stays in STOPPING. */
  lemma {:induction false} DoomedForever(s: State, events: seq<Event>)
    requires Inv(s) && Doomed(s) && Lives(events) && Run(s, events).Some?
    ensures Doomed(Run(s, events).value) && Run(s, events).value.status == Stopping
  {
    if events != [] {
      var n := |events| - 1;
      assert events[n] in events && forall e :: e in events[..n] ==> e in events;
      DoomedForever(s, events[..n]);
      RunKeeps(s, events[..n]);
      DoomedStep(Run(s, events[..n]).value, events[n]);
    }
  }

  /** What can doom a campaign: a stop that takes the status to STOPPING, or a planner that fails under a stop. */
  predicate Dooms(s: State, e: Event) {
    match e
    case StopStarting(_, fault) => !fault && s.status == Starting
    case StopRunning(_, fault) => !fault && s.status == Running
    case StopAllRunning(_, fault) => !fault && s.status == Running
    case PlanFails(_) => s.status == Stopping
    case _ => false
  }

  lemma AllFit(s: State)
    requires Reachable(s)
    ensures forall p | p in s.procs :: Fits(s.procs[p], s.status, s.faulty)
  {
    ReachableKeeps(s);
    forall p | p in s.procs ensures Fits(s.procs[p], s.status, s.faulty) {
      assert ProcFits(s, p);
    }
  }

  lemma ProcsStay(s: State, e: Event, p: nat)
    requires p in s.procs && Step(s, e).Some? && !e.Restart?
    ensures p in Step(s, e).value.procs
  {
  }

  lemma BecomesStopping(s: State, e: Event)
    requires Step(s, e).Some? && s.status != Stopping && Step(s, e).value.status == Stopping
    requires forall p | p in s.procs :: Fits(s.procs[p], s.status, s.faulty)
    ensures Dooms(s, e)
  {
  }

  lemma OwnerIsDoomed(s: State, e: Event, p: nat)
    requires p in s.procs && !Doom(s.procs[p]) && Fits(s.procs[p], s.status, s.faulty) && s.status == Stopping
    requires Step(s, e).Some? && !e.Restart? && !Step(s, e).value.faulty
    requires Step(s, e).value.status == Stopping && Doom(Step(s, e).value.procs[p])
    ensures Dooms(s, e)
  {
  }

  /** Without failing updates nothing else dooms a campaign. */
  lemma DoomedBy(s: State, e: Event)
    requires Reachable(s) && Step(s, e).Some? && !Doomed(s) && Doomed(Step(s, e).value) && !Step(s, e).value.faulty
    ensures Dooms(s, e)
  {
    AllFit(s);
    RestartRecovers(s);
    var t := Step(s, e).value;
    if s.status != Stopping {
      BecomesStopping(s, e);
    } else {
      var p :| p in s.procs && !Doom(s.procs[p]);
      ProcsStay(s, e, p);
      assert Doom(t.procs[p]);
      OwnerIsDoomed(s, e, p);
    }
  }

  /** A stop of a start that is not RUNNING yet dooms the campaign. */
  lemma EarlyStopDooms(s: State, q: nat, p: nat)
    requires Reachable(s) && Owner(s, p) && s.status == Starting && q in s.procs && s.procs[q] == StopAgain(p)
    ensures Step(s, StopStarting(q, false)).Some? && Doomed(Step(s, StopStarting(q, false)).value)
  {
    ReachableKeeps(s);
    assert ProcFits(s, p);
    OnlyDoomedAfter(s, q, p);
  }

  lemma OnlyDoomedAfter(s: State, q: nat, p: nat)
    requires Inv(s) && Owner(s, p) && s.status == Starting && q in s.procs && !Owning(s.procs[q])
    ensures forall r | r in s.procs && r != q :: Doom(s.procs[r])
  {
    forall r | r in s.procs && r != q ensures Doom(s.procs[r]) {
      assert ProcFits(s, r) && NotBoth(s, p, r);
    }
  }

  /** Some continuation without a restart brings the campaign to a state in which it can be started again. */
  ghost predicate CanEnd(s: State) {
    exists events :: Lives(events) && Run(s, events).Some? && Startable(Run(s, events).value.status)
  }

  lemma {:induction false} RunFirst(s: State, e: Event, events: seq<Event>)
    requires Step(s, e).Some?
    ensures Run(s, [e] + events) == Run(Step(s, e).value, events)
  {
    var all := [e] + events;
    if events == [] {
      assert all[..0] == [];
    } else {
      var n := |events| - 1;
      assert all[..|all| - 1] == [e] + events[..n];
      RunFirst(s, e, events[..n]);
    }
  }

  lemma CanEndBy(s: State, e: Event)
    requires !e.Restart? && Step(s, e).Some? && CanEnd(Step(s, e).value)
    ensures CanEnd(s)
  {
    var t := Step(s, e).value;
    var events :| Lives(events) && Run(t, events).Some? && Startable(Run(t, events).value.status);
    RunFirst(s, e, events);
    assert Lives([e] + events);
  }

  lemma EndedCanEnd(s: State)
    requires Startable(s.status)
    ensures CanEnd(s)
  {
    assert Lives([]) && Run(s, []) == Some(s);
  }

  /** The next event of an owner on its way to the end. */
  function NextOf(s: State, p: nat): Event
    requires p in s.procs
  {
    match s.procs[p]
    case Loading => LoadFails(p)
    case Registered => Activate(p, false)
    case Launching => Launch(p)
    case Working => WorkersDone(p)
    case Ending(_) => End(p, false)
    case EndingAgain(_) => EndAgain(p, false)
    case Withdrawing(_) => Withdraw(p)
    case _ => Fail(p, false)
  }

  function Rank(pc: Pc): nat {
    match pc
    case Registered => 6
    case Launching => 5
    case Working => 4
    case Ending(_) => 3
    case Loading => 2
    case EndingAgain(_) | Withdrawing(_) => 2
    case Failing(_) => 1
    case _ => 0
  }

  lemma {:induction false} OwnerCanEnd(s: State, p: nat)
    requires Inv(s) && !s.faulty && Owner(s, p) && !Doomed(s)
    ensures CanEnd(s)
    decreases Rank(s.procs[p])
  {
    assert ProcFits(s, p);
    OnlyDoomed(s, p);
    var e := NextOf(s, p);
    var t := Step(s, e).value;
    StepKeeps(s, e);
    if Owner(t, p) {
      assert !Doom(t.procs[p]) || t.status != Stopping;
      OwnerCanEnd(t, p);
    } else {
      EndedCanEnd(t);
    }
    CanEndBy(s, e);
  }

  /** It is the owner that decides whether the campaign is doomed. */
  lemma OnlyDoomed(s: State, p: nat)
    requires Inv(s) && Owner(s, p)
    ensures Doomed(s) <==> s.status == Stopping && Doom(s.procs[p])
  {
    forall q | q in s.procs && q != p ensures Doom(s.procs[q]) {
      assert NotBoth(s, p, q);
    }
  }

  /** If no update has failed, the campaign can still come to an end if and only if it is not doomed. */
  lemma EndTheorem(s: State)
    requires Reachable(s) && !s.faulty
    ensures CanEnd(s) <==> !Doomed(s)
  {
    ReachableKeeps(s);
    if Doomed(s) {
      forall events | Lives(events) && Run(s, events).Some? ensures !Startable(Run(s, events).value.status) {
        DoomedForever(s, events);
      }
    } else if Owned(s) {
      var p :| Owner(s, p);
      OwnerCanEnd(s, p);
    } else {
      forall p | p in s.procs ensures Doom(s.procs[p]) {
        assert !Owner(s, p);
      }
      EndedCanEnd(s);
    }
  }
}
