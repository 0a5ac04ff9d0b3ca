/**
  The running map of internal/engine/engine.go, by which stops find runs.
 */
module CampaignListing {
  import opened Options
  import opened CampaignLifecycle

  // ---- The running map ----

  /** From registering to the deletion from the running map. */
  predicate Listable(pc: Pc) {
    Live(pc) || pc.Leaving? || pc.Withdrawing?
  }

  /** The running map holds a start that will delete its entry; one that failed after it was RUNNING is cancelled. */
  predicate MapFits(s: State) {
    EntryFits(s) && FailedFits(s)
  }

  predicate EntryFits(s: State) {
    s.running.Some? ==> s.running.value in s.procs && Listable(s.procs[s.running.value])
  }

  predicate FailedFits(s: State) {
    forall p | p in s.procs && s.procs[p] == Failing(Running) :: p in s.cancelled
  }

  lemma EntryStep(s: State, e: Event)
    requires EntryFits(s) && Step(s, e).Some?
    ensures EntryFits(Step(s, e).value)
  {
  }

  lemma FailedStep(s: State, e: Event)
    requires FailedFits(s) && Step(s, e).Some?
    ensures FailedFits(Step(s, e).value)
  {
  }

  lemma {:induction false} MapRun(s: State, events: seq<Event>)
    requires MapFits(s) && Run(s, events).Some?
    ensures MapFits(Run(s, events).value)
  {
    if events != [] {
      var n := |events| - 1;
      MapRun(s, events[..n]);
      EntryStep(Run(s, events[..n]).value, events[n]);
      FailedStep(Run(s, events[..n]).value, events[n]);
    }
  }

  /** In every interleaving the running map holds only starts that still delete their entry. */
  lemma MapTheorem(s: State, p: nat)
    requires Reachable(s)
    ensures s.running == Some(p) ==> p in s.procs && Listable(s.procs[p])
    ensures p in s.procs && s.procs[p] == Failing(Running) ==> p in s.cancelled
  {
    var start, events :| Initial(start) && Run(start, events) == Some(s);
    MapRun(start, events);
  }

  // ---- The entry of a live run in the running map ----

  /** From registering to the last update of the status. */
  predicate Live(pc: Pc) {
    pc.Registered? || pc.Launching? || pc.Working? || pc.Ending? || pc.EndingAgain?
  }

  predicate LiveAt(s: State, p: nat) {
    p in s.procs && Live(s.procs[p])
  }

  /** Past that, for good. */
  predicate Over(s: State, p: nat) {
    p in s.procs && (s.procs[p].Leaving? || s.procs[p].Withdrawing? || s.procs[p].Failing? || s.procs[p].Done?)
  }

  predicate NotLeaving(s: State, p: nat, q: nat) {
    q in s.procs && q != p ==> s.procs[q] != Leaving
  }

  /** No other run has its deferred delete still before it. */
  ghost predicate NobodyLeaves(s: State, p: nat) {
    forall q :: NotLeaving(s, p, q)
  }

  ghost predicate Safe(s: State, p: nat) {
    (LiveAt(s, p) && s.running == Some(p) && NobodyLeaves(s, p)) || Over(s, p)
  }

  lemma LiveStep(s: State, e: Event, p: nat)
    requires Inv(s) && LiveAt(s, p) && s.running == Some(p) && NobodyLeaves(s, p)
    requires Step(s, e).Some? && !e.Restart?
    ensures Over(Step(s, e).value, p) || (LiveAt(Step(s, e).value, p) && Step(s, e).value.running == Some(p))
    ensures Over(Step(s, e).value, p) || NobodyLeaves(Step(s, e).value, p)
  {
    assert NotBoth(s, p, e.p) && NotLeaving(s, p, e.p);
    if !Over(Step(s, e).value, p) {
      forall q ensures NotLeaving(Step(s, e).value, p, q) {
        assert NotLeaving(s, p, q) && NotBoth(s, p, q);
      }
    }
  }

  lemma OverStep(s: State, e: Event, p: nat)
    requires Over(s, p) && Step(s, e).Some? && !e.Restart?
    ensures Over(Step(s, e).value, p)
  {
  }

  lemma SafeStep(s: State, e: Event, p: nat)
    requires Inv(s) && Safe(s, p) && Step(s, e).Some? && !e.Restart?
    ensures Safe(Step(s, e).value, p)
  {
    if Over(s, p) {
      OverStep(s, e, p);
    } else {
      LiveStep(s, e, p);
    }
  }

  lemma {:induction false} SafeRun(s: State, events: seq<Event>, p: nat)
    requires Inv(s) && Safe(s, p) && Lives(events) && Run(s, events).Some?
    ensures Safe(Run(s, events).value, p)
  {
    if events != [] {
      var n := |events| - 1;
      assert events[n] in events && forall e :: e in events[..n] ==> e in events;
      SafeRun(s, events[..n], p);
      RunKeeps(s, events[..n]);
      SafeStep(Run(s, events[..n]).value, events[n], p);
    }
  }

  /** Whatever happens, as long as the run lives its cancel function is in the map. */
  ghost predicate StaysListed(s: State, p: nat) {
    forall events :: Lives(events) && Run(s, events).Some? && LiveAt(Run(s, events).value, p)
      ==> Run(s, events).value.running == Some(p)
  }

  /**
    A live run that is in the running map stays there for as long as it lives, if and
    only if no earlier run has its deferred delete still before it.
   */
  lemma ListedTheorem(s: State, p: nat)
    requires Reachable(s) && LiveAt(s, p) && s.running == Some(p)
    ensures StaysListed(s, p) <==> NobodyLeaves(s, p)
  {
    ReachableKeeps(s);
    if NobodyLeaves(s, p) {
      forall events | Lives(events) && Run(s, events).Some? && LiveAt(Run(s, events).value, p)
        ensures Run(s, events).value.running == Some(p)
      {
        SafeRun(s, events, p);
      }
    } else {
      var q :| !NotLeaving(s, p, q);
      var events := [Leave(q)];
      assert events[..0] == [];
      assert Run(s, events) == Step(s, Leave(q));
      assert Lives(events) && LiveAt(Run(s, events).value, p) && Run(s, events).value.running == None;
    }
  }
}
