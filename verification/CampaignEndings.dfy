/**
  How the runs of internal/engine/engine.go end, and what stops come to.
 */
module CampaignEndings {
  import opened Options
  import opened CampaignLifecycle

  // ---- Which final status a run lands ----

  predicate EndsWith(s: State, p: nat, final: Status) {
    p in s.procs && (s.procs[p] == Ending(final) || s.procs[p] == EndingAgain(final))
  }

  predicate IsEnding(s: State, p: nat) {
    p in s.procs && (s.procs[p].Ending? || s.procs[p].EndingAgain?)
  }

  /** The workers of run p are done by event n, and final is STOPPED if it was cancelled by then. */
  predicate DecidedAt(s: State, events: seq<Event>, p: nat, n: nat, final: Status) {
    && n < |events| && events[n] == WorkersDone(p) && Run(s, events[..n]).Some?
    && final == if p in Run(s, events[..n]).value.cancelled then Stopped else Finished
  }

  lemma EndingStep(s: State, e: Event, p: nat, final: Status)
    requires Step(s, e).Some? && !e.Restart? && EndsWith(Step(s, e).value, p, final)
    ensures EndsWith(s, p, final)
      || (e == WorkersDone(p) && final == if p in s.cancelled then Stopped else Finished)
  {
  }

  /** The status that a run is about to land was decided when its workers were done. */
  lemma {:induction false} EndingDecided(s: State, events: seq<Event>, p: nat, final: Status) returns (n: nat)
    requires !IsEnding(s, p) && Lives(events) && Run(s, events).Some? && EndsWith(Run(s, events).value, p, final)
    ensures DecidedAt(s, events, p, n, final)
  {
    n := |events| - 1;
    var init := events[..n];
    assert events[n] in events && forall e :: e in init ==> e in events;
    EndingStep(Run(s, init).value, events[n], p, final);
    if EndsWith(Run(s, init).value, p, final) {
      n := EndingDecided(s, init, p, final);
      assert events[..n] == init[..n];
    }
  }

  /** The event by which p gives up the campaign, from a state that some events lead to. */
  ghost predicate Lands(s: State, events: seq<Event>, e: Event, p: nat, final: Status) {
    && Lives(events) && !e.Restart? && Run(s, events).Some? && Step(Run(s, events).value, e).Some?
    && var t := Run(s, events).value;
       var u := Step(t, e).value;
      && Owner(t, p) && IsEnding(t, p) && !Owner(u, p) && !u.faulty && u.status == final
  }

  /** Without failing updates a run lands STOPPED if it was cancelled before its workers were done, else FINISHED. */
  lemma LandingTheorem(s: State, events: seq<Event>, e: Event, p: nat, final: Status)
    requires Inv(s) && !IsEnding(s, p) && Lands(s, events, e, p, final)
    ensures exists n: nat :: DecidedAt(s, events, p, n, final)
  {
    RunKeeps(s, events);
    var t := Run(s, events).value;
    assert ProcFits(t, p);
    assert EndsWith(t, p, final);
    var n := EndingDecided(s, events, p, final);
  }

  lemma {:induction false} CancelledStays(s: State, events: seq<Event>, p: nat)
    requires p in s.cancelled && Lives(events) && Run(s, events).Some?
    ensures p in Run(s, events).value.cancelled
  {
    if events != [] {
      var n := |events| - 1;
      assert events[n] in events && forall e :: e in events[..n] ==> e in events;
      CancelledStays(s, events[..n], p);
    }
  }

  /** A run that is cancelled while it works lands STOPPED. */
  lemma CancelledLandsStopped(s: State, events: seq<Event>, e: Event, p: nat, final: Status)
    requires Inv(s) && p in s.procs && s.procs[p] == Working && p in s.cancelled && Lands(s, events, e, p, final)
    ensures final == Stopped
  {
    LandingTheorem(s, events, e, p, final);
    var n: nat :| DecidedAt(s, events, p, n, final);
    assert forall d :: d in events[..n] ==> d in events;
    CancelledStays(s, events[..n], p);
  }

  lemma CancelledUntil(s: State, events: seq<Event>, n: nat, p: nat)
    requires n <= |events| && Lives(events) && Run(s, events).Some? && Run(s, events[..n]).Some?
    ensures p in Run(s, events[..n]).value.cancelled ==> p in Run(s, events).value.cancelled
  {
    assert events == events[..n] + events[n..];
    RunConcat(s, events[..n], events[n..]);
    assert forall d :: d in events[n..] ==> d in events;
    if p in Run(s, events[..n]).value.cancelled {
      CancelledStays(Run(s, events[..n]).value, events[n..], p);
    }
  }

  /** A run that nobody has cancelled when it lands, lands FINISHED. */
  lemma UncancelledLandsFinished(s: State, events: seq<Event>, e: Event, p: nat, final: Status)
    requires Inv(s) && !IsEnding(s, p) && Lands(s, events, e, p, final)
    requires p !in Run(s, events).value.cancelled
    ensures final == Finished
  {
    LandingTheorem(s, events, e, p, final);
    var n: nat :| DecidedAt(s, events, p, n, final);
    CancelledUntil(s, events, n, p);
  }

  // ---- What a stop comes to ----

  /** A stop of run p that has not cancelled it yet. */
  predicate Stops(pc: Pc, p: nat) {
    pc == StopSeen(p) || pc == StopAgain(p) || pc == StopAllSeen(p) || pc == Cancelling(p)
  }

  /** The stop has read the running map, but not updated the status. */
  predicate StopIsOpen(pc: Pc, p: nat) {
    pc == StopSeen(p) || pc == StopAllSeen(p)
  }

  predicate Ran(s: State, p: nat) {
    p in s.procs && (s.procs[p].Working? || IsEnding(s, p) || s.procs[p].Leaving? || s.procs[p].Done?)
  }

  /** Between reading the running map and the end of stop q of run p. */
  predicate UnderStop(s: State, q: nat, p: nat) {
    && Ran(s, p) && q in s.procs && (Stops(s.procs[q], p) || (s.procs[q] == Done && p in s.cancelled))
    && (StopIsOpen(s.procs[q], p) || s.status == Stopping || !Owner(s, p))
  }

  lemma StopStepOfRun(s: State, e: Event, q: nat, p: nat)
    requires Inv(s) && UnderStop(s, q, p) && Step(s, e).Some? && !e.Restart? && e.p == p != q
    ensures UnderStop(Step(s, e).value, q, p)
  {
    assert ProcFits(s, p);
  }

  lemma StopStepOfOther(s: State, e: Event, q: nat, p: nat)
    requires Inv(s) && UnderStop(s, q, p) && Step(s, e).Some? && !e.Restart? && e.p != q && e.p != p
    ensures UnderStop(Step(s, e).value, q, p)
  {
    assert ProcFits(s, p) && ProcFits(s, e.p) && NotBoth(s, p, e.p);
    assert Owner(s, p) && s.status == Stopping ==> Step(s, e).value.status == Stopping;
  }

  lemma StopStepOfStop(s: State, e: Event, q: nat, p: nat)
    requires Inv(s) && UnderStop(s, q, p) && Step(s, e).Some? && !e.Restart? && e.p == q && q != p
    requires !Step(s, e).value.faulty
    ensures UnderStop(Step(s, e).value, q, p)
  {
    assert ProcFits(s, p);
  }

  lemma StopStep(s: State, e: Event, q: nat, p: nat)
    requires Inv(s) && UnderStop(s, q, p) && Step(s, e).Some? && !e.Restart? && !Step(s, e).value.faulty
    ensures UnderStop(Step(s, e).value, q, p)
  {
    if e.p == q && q != p {
      StopStepOfStop(s, e, q, p);
    } else if e.p == p && q != p {
      StopStepOfRun(s, e, q, p);
    } else if e.p != q {
      StopStepOfOther(s, e, q, p);
    }
  }

  lemma {:induction false} StopRun(s: State, events: seq<Event>, q: nat, p: nat)
    requires Inv(s) && UnderStop(s, q, p) && Lives(events) && Run(s, events).Some? && !Run(s, events).value.faulty
    ensures UnderStop(Run(s, events).value, q, p)
  {
    if events != [] {
      var n := |events| - 1;
      assert events[n] in events && forall e :: e in events[..n] ==> e in events;
      RunKeeps(s, events[..n]);
      StopRun(s, events[..n], q, p);
      StopStep(Run(s, events[..n]).value, events[n], q, p);
    }
  }

  /**
    A stop of a run that works, by a user or at shutdown: when it is done and no update
    has failed, the run is cancelled, and the status is STOPPING until the run lands.
   */
  lemma StopTheorem(s: State, q: nat, p: nat, events: seq<Event>)
    requires Inv(s) && p in s.procs && s.procs[p] == Working && q in s.procs && StopIsOpen(s.procs[q], p)
    requires Lives(events) && Run(s, events).Some?
    requires var t := Run(s, events).value;
      !t.faulty && q in t.procs && t.procs[q] == Done
    ensures var t := Run(s, events).value;
      p in t.cancelled && (Owner(t, p) ==> t.status == Stopping)
  {
    StopRun(s, events, q, p);
  }

  /** A run leaves after its first final update only if that has landed, also if updates fail. */
  lemma FirstUpdateLands(s: State, e: Event, p: nat)
    requires Reachable(s) && p in s.procs && s.procs[p].Ending? && Step(s, e).Some? && !e.Restart?
    requires var t := Step(s, e).value;
      t.procs[p] == Leaving
    ensures Step(s, e).value.status == s.procs[p].final && s.status == Running
  {
    ReachableKeeps(s);
    assert ProcFits(s, p);
  }

  /** A stop at shutdown, once it has read the running map. */
  predicate StopsAll(pc: Pc, p: nat) {
    pc == StopAllSeen(p) || pc == Cancelling(p) || pc == Done
  }

  lemma StopAllStep(s: State, e: Event, q: nat, p: nat)
    requires q in s.procs && StopsAll(s.procs[q], p) && Step(s, e).Some? && !e.Restart?
    ensures q in Step(s, e).value.procs && StopsAll(Step(s, e).value.procs[q], p)
  {
  }

  /** A stop at shutdown never makes the second update, by which a user's stop takes a STARTING campaign to STOPPING. */
  lemma {:induction false} StopAllSparesStarting(s: State, events: seq<Event>, q: nat, p: nat)
    requires q in s.procs && StopsAll(s.procs[q], p) && Lives(events) && Run(s, events).Some?
    ensures q in Run(s, events).value.procs && StopsAll(Run(s, events).value.procs[q], p)
  {
    if events != [] {
      var n := |events| - 1;
      assert events[n] in events && forall e :: e in events[..n] ==> e in events;
      StopAllSparesStarting(s, events[..n], q, p);
      StopAllStep(Run(s, events[..n]).value, events[n], q, p);
    }
  }

  /** A stop whose update fails makes no other one, and cancels the run. */
  lemma FailedStopCancels(s: State, e: Event, q: nat, p: nat)
    requires q in s.procs && Stops(s.procs[q], p) && Step(s, e).Some? && !e.Restart? && e.p == q
    requires (e.StopRunning? || e.StopStarting? || e.StopAllRunning?) && e.fault
    ensures var t := Step(s, e).value;
      t.status == s.status && Step(t, Cancel(q)).Some? && p in Step(t, Cancel(q)).value.cancelled
  {
  }
}
