/**
  Two runs of internal/engine/engine.go that go wrong.
 */
module CampaignExamples {
  import opened Options
  import opened CampaignLifecycle
  import opened CampaignDooms

  const FRESH := State(Created, None, map[], {}, false)

  /** Some events, none of them a restart, lead from s to t. */
  ghost predicate Reaches(s: State, t: State) {
    exists events :: Lives(events) && Run(s, events) == Some(t)
  }

  predicate StepsTo(t: State, e: Event, u: State) {
    && Step(t, e).Some?
    && var v := Step(t, e).value;
      && v.status == u.status && v.running == u.running && v.faulty == u.faulty
      && v.procs == u.procs && v.cancelled == u.cancelled
  }

  /** The last event of a run from s to u; states are compared field by field. */
  lemma Then(s: State, t: State, e: Event, u: State)
    requires Reaches(s, t) && !e.Restart? && StepsTo(t, e, u)
    ensures Reaches(s, u)
  {
    var events :| Lives(events) && Run(s, events) == Some(t);
    assert (events + [e])[..|events|] == events;
    assert Lives(events + [e]) && Run(s, events + [e]) == Some(u);
  }

  lemma ReachesSelf(s: State)
    ensures Reaches(s, s)
  {
    assert Lives([]) && Run(s, []) == Some(s);
  }

  /** A start that gets as far as registering, for a campaign that nobody has touched. */
  lemma Registers(registered: State)
    requires registered == State(Starting, Some(0), map[0 := Registered], {}, false)
    ensures Reaches(FRESH, registered)
  {
    var s1 := State(Created, None, map[0 := Seen(Created)], {}, false);
    var s2 := State(Starting, None, map[0 := Loading], {}, false);
    ReachesSelf(FRESH);
    assert Reaches(FRESH, s1) by { Then(FRESH, FRESH, Read(0), s1); }
    assert Reaches(FRESH, s2) by { Then(FRESH, s1, Claim(0, false), s2); }
    assert Reaches(FRESH, registered) by { Then(FRESH, s2, Register(0), registered); }
  }

  lemma StopReads(registered: State, seen: State)
    requires registered == State(Starting, Some(0), map[0 := Registered], {}, false) && Reaches(FRESH, registered)
    requires seen == State(Starting, Some(0), map[0 := Registered, 1 := StopSeen(0)], {}, false)
    ensures Reaches(FRESH, seen)
  {
    Then(FRESH, registered, Stop(1), seen);
  }

  lemma StopIsRefused(seen: State, refused: State)
    requires seen == State(Starting, Some(0), map[0 := Registered, 1 := StopSeen(0)], {}, false) && Reaches(FRESH, seen)
    requires refused == State(Starting, Some(0), map[0 := Registered, 1 := StopAgain(0)], {}, false)
    ensures Reaches(FRESH, refused)
  {
    Then(FRESH, seen, StopRunning(1, false), refused);
  }

  lemma StopApplies(refused: State, applied: State)
    requires refused == State(Starting, Some(0), map[0 := Registered, 1 := StopAgain(0)], {}, false)
      && Reaches(FRESH, refused)
    requires applied == State(Stopping, Some(0), map[0 := Registered, 1 := Cancelling(0)], {}, false)
    ensures Reaches(FRESH, applied)
  {
    Then(FRESH, refused, StopStarting(1, false), applied);
  }

  lemma StopCancels(applied: State, stopped: State)
    requires applied == State(Stopping, Some(0), map[0 := Registered, 1 := Cancelling(0)], {}, false)
      && Reaches(FRESH, applied)
    requires stopped == State(Stopping, Some(0), map[0 := Registered, 1 := Done], {0}, false)
    ensures Reaches(FRESH, stopped)
  {
    Then(FRESH, applied, Cancel(1), stopped);
  }

  lemma StartIsRefused(stopped: State, refused: State)
    requires stopped == State(Stopping, Some(0), map[0 := Registered, 1 := Done], {0}, false) && Reaches(FRESH, stopped)
    requires refused == State(Stopping, Some(0), map[0 := Withdrawing(Starting), 1 := Done], {0}, false)
    ensures Reaches(FRESH, refused)
  {
    Then(FRESH, stopped, Activate(0, false), refused);
  }

  lemma StartWithdraws(refused: State, withdrawn: State)
    requires refused == State(Stopping, Some(0), map[0 := Withdrawing(Starting), 1 := Done], {0}, false)
      && Reaches(FRESH, refused)
    requires withdrawn == State(Stopping, None, map[0 := Failing(Starting), 1 := Done], {0}, false)
    ensures Reaches(FRESH, withdrawn)
  {
    Then(FRESH, refused, Withdraw(0), withdrawn);
  }

  lemma StartGivesUp(refused: State, stuck: State)
    requires refused == State(Stopping, None, map[0 := Failing(Starting), 1 := Done], {0}, false)
      && Reaches(FRESH, refused)
    requires stuck == State(Stopping, None, map[0 := Done, 1 := Done], {0}, false)
    ensures Reaches(FRESH, stuck)
  {
    Then(FRESH, refused, Fail(0, false), stuck);
  }

  /** A stop comes before the start is RUNNING: everybody ends, and the campaign stays in STOPPING for good. */
  lemma EarlyStopSticks(stuck: State)
    requires stuck == State(Stopping, None, map[0 := Done, 1 := Done], {0}, false)
    ensures Initial(FRESH) && Reaches(FRESH, stuck) && Doomed(stuck)
  {
    var registered := State(Starting, Some(0), map[0 := Registered], {}, false);
    var refused := State(Starting, Some(0), map[0 := Registered, 1 := StopAgain(0)], {}, false);
    var stopped := State(Stopping, Some(0), map[0 := Registered, 1 := Done], {0}, false);
    Registers(registered);
    var seen := State(Starting, Some(0), map[0 := Registered, 1 := StopSeen(0)], {}, false);
    StopReads(registered, seen);
    StopIsRefused(seen, refused);
    var applied := State(Stopping, Some(0), map[0 := Registered, 1 := Cancelling(0)], {}, false);
    StopApplies(refused, applied);
    StopCancels(applied, stopped);
    var withdrawn := State(Stopping, None, map[0 := Failing(Starting), 1 := Done], {0}, false);
    var withdrawing := State(Stopping, Some(0), map[0 := Withdrawing(Starting), 1 := Done], {0}, false);
    StartIsRefused(stopped, withdrawing);
    StartWithdraws(withdrawing, withdrawn);
    StartGivesUp(withdrawn, stuck);
  }

  lemma RunStarts(registered: State, working: State)
    requires registered == State(Starting, Some(0), map[0 := Registered], {}, false) && Reaches(FRESH, registered)
    requires working == State(Running, Some(0), map[0 := Working], {}, false)
    ensures Reaches(FRESH, working)
  {
    var s1 := State(Running, Some(0), map[0 := Launching], {}, false);
    assert Reaches(FRESH, s1) by { Then(FRESH, registered, Activate(0, false), s1); }
    assert Reaches(FRESH, working) by { Then(FRESH, s1, Launch(0), working); }
  }

  lemma RunEnds(working: State, leaving: State)
    requires working == State(Running, Some(0), map[0 := Working], {}, false) && Reaches(FRESH, working)
    requires leaving == State(Finished, Some(0), map[0 := Leaving], {}, false)
    ensures Reaches(FRESH, leaving)
  {
    var s1 := State(Running, Some(0), map[0 := Ending(Finished)], {}, false);
    assert Reaches(FRESH, s1) by { Then(FRESH, working, WorkersDone(0), s1); }
    assert Reaches(FRESH, leaving) by { Then(FRESH, s1, End(0, false), leaving); }
  }

  lemma NextRegisters(leaving: State, registered: State)
    requires leaving == State(Finished, Some(0), map[0 := Leaving], {}, false) && Reaches(FRESH, leaving)
    requires registered == State(Starting, Some(1), map[0 := Leaving, 1 := Registered], {}, false)
    ensures Reaches(FRESH, registered)
  {
    var s1 := State(Finished, Some(0), map[0 := Leaving, 1 := Seen(Finished)], {}, false);
    var s2 := State(Starting, Some(0), map[0 := Leaving, 1 := Loading], {}, false);
    assert Reaches(FRESH, s1) by { Then(FRESH, leaving, Read(1), s1); }
    assert Reaches(FRESH, s2) by { Then(FRESH, s1, Claim(1, false), s2); }
    assert Reaches(FRESH, registered) by { Then(FRESH, s2, Register(1), registered); }
  }

  lemma NextWorks(registered: State, working: State)
    requires registered == State(Starting, Some(1), map[0 := Leaving, 1 := Registered], {}, false)
      && Reaches(FRESH, registered)
    requires working == State(Running, Some(1), map[0 := Leaving, 1 := Working], {}, false)
    ensures Reaches(FRESH, working)
  {
    var s1 := State(Running, Some(1), map[0 := Leaving, 1 := Launching], {}, false);
    assert Reaches(FRESH, s1) by { Then(FRESH, registered, Activate(1, false), s1); }
    assert Reaches(FRESH, working) by { Then(FRESH, s1, Launch(1), working); }
  }

  lemma PreviousLeaves(working: State, hidden: State)
    requires working == State(Running, Some(1), map[0 := Leaving, 1 := Working], {}, false) && Reaches(FRESH, working)
    requires hidden == State(Running, None, map[0 := Done, 1 := Working], {}, false)
    ensures Reaches(FRESH, hidden)
  {
    Then(FRESH, working, Leave(0), hidden);
  }

  lemma NoStop(s: State)
    requires s.running == None
    ensures forall p :: Step(s, Stop(p)) == None && Step(s, StopAll(p)) == None
  {
  }

  /** A run deletes the entry of its successor, which no stop can find then. */
  lemma LateDeleteHides(hidden: State)
    requires hidden == State(Running, None, map[0 := Done, 1 := Working], {}, false)
    ensures Reaches(FRESH, hidden) && Owner(hidden, 1)
    ensures forall p :: Step(hidden, Stop(p)) == None && Step(hidden, StopAll(p)) == None
  {
    var first := State(Starting, Some(0), map[0 := Registered], {}, false);
    var leaving := State(Finished, Some(0), map[0 := Leaving], {}, false);
    var second := State(Starting, Some(1), map[0 := Leaving, 1 := Registered], {}, false);
    Registers(first);
    var running := State(Running, Some(0), map[0 := Working], {}, false);
    RunStarts(first, running);
    RunEnds(running, leaving);
    NextRegisters(leaving, second);
    var working := State(Running, Some(1), map[0 := Leaving, 1 := Working], {}, false);
    NextWorks(second, working);
    PreviousLeaves(working, hidden);
    NoStop(hidden);
  }
}
