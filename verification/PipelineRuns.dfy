/**
  Runs of internal/engine/engine.go that nothing stops.
 */
module PipelineRuns {
  import opened Options
  import opened TaskPipeline

  /** A run without a cancellation and without a look at an expired timer. */
  predicate Undisturbed(events: seq<Event>) {
    Cancel !in events && Clock(true) !in events
  }

  ghost predicate Reaches(c: Config, s: State) {
    exists events :: Undisturbed(events) && Run(c, events) == Some(s)
  }

  lemma Then(c: Config, s: State, e: Event) returns (d: State)
    requires Reaches(c, s) && e != Cancel && e != Clock(true) && Step(c, s, e).Some?
    ensures Some(d) == Step(c, s, e) && Reaches(c, d)
  {
    var events :| Undisturbed(events) && Run(c, events) == Some(s);
    d := Step(c, s, e).value;
    assert (events + [e])[..|events|] == events;
    assert Undisturbed(events + [e]) && Run(c, events + [e]) == Some(d);
  }

  /** At the head of the loop: n tasks are sent, of which done were received and counted, and the first worker waits. */
  ghost predicate AtHead(c: Config, s: State, n: nat, done: nat) {
    && Reaches(c, s) && s.gen == Checking && !s.cancelled && s.generated == n
    && s.taken == done && s.testsDone == done && |s.workers| > 0 && s.workers[0] == Receiving
  }

  lemma AsksLimiter(c: Config, s: State) returns (d: State)
    requires Reaches(c, s) && s.gen == Checking && !s.cancelled && (c.maxTests <= 0 || s.generated < c.maxTests)
    ensures Reaches(c, d) && d.gen == Acquiring && !d.cancelled && d.generated == s.generated
    ensures d.taken == s.taken && d.testsDone == s.testsDone && d.workers == s.workers
  {
    d := Then(c, s, Check);
    d := Then(c, d, Poll);
    d := Then(c, d, Clock(false));
  }

  lemma SendsOne(c: Config, s: State, n: nat, done: nat) returns (d: State)
    requires AtHead(c, s, n, done) && n - done < 2 * NumWorkers(c) && (c.maxTests <= 0 || n < c.maxTests)
    ensures AtHead(c, d, n + 1, done)
  {
    d := AsksLimiter(c, s);
    d := Then(c, d, Acquire(false));
    d := Then(c, d, Send);
  }

  lemma ReplaysOne(c: Config, s: State, n: nat, done: nat) returns (d: State)
    requires AtHead(c, s, n, done) && done < n
    ensures Reaches(c, d) && d.gen == Checking && !d.cancelled && d.generated == n
    ensures d.taken == done + 1 && d.testsDone == done && |d.workers| > 0 && d.workers[0] == Counting(done)
  {
    d := Then(c, s, Receive(0));
    d := Then(c, d, ReplayDone(0));
  }

  lemma CountsOne(c: Config, s: State, n: nat, done: nat) returns (d: State)
    requires AtHead(c, s, n, done) && done < n
    ensures AtHead(c, d, n, done + 1)
  {
    d := ReplaysOne(c, s, n, done);
    d := Then(c, d, Count(0));
  }

  lemma ReachesStart(c: Config)
    ensures AtHead(c, Start(c), 0, 0)
  {
    assert Undisturbed([]) && Run(c, []) == Some(Start(c));
  }

  /** All tasks are counted before the next one is sent. */
  lemma {:induction false} ReachesHead(c: Config, n: nat) returns (s: State)
    requires c.maxTests <= 0 || n <= c.maxTests
    ensures AtHead(c, s, n, n)
  {
    if n == 0 {
      ReachesStart(c);
      s := Start(c);
    } else {
      s := ReachesHead(c, n - 1);
      s := SendsOne(c, s, n - 1, n - 1);
      s := CountsOne(c, s, n, n - 1);
    }
  }

  lemma {:induction false} FillsChannel(c: Config, n: nat) returns (s: State)
    requires (c.maxTests <= 0 || n <= c.maxTests) && n <= 2 * NumWorkers(c)
    ensures AtHead(c, s, n, 0)
  {
    if n == 0 {
      ReachesStart(c);
      s := Start(c);
    } else {
      s := FillsChannel(c, n - 1);
      s := SendsOne(c, s, n - 1, 0);
    }
  }

  /** Otherwise a run can go on for any number of tasks, up to max_tests if that is set. */
  lemma GoesOn(c: Config, n: nat)
    requires c.maxTests <= 0 || n <= c.maxTests
    ensures exists s :: Reaches(c, s) && s.generated == n && s.testsDone == n
  {
    var s := ReachesHead(c, n);
  }

  /** The channel takes two tasks per worker before anybody receives one. */
  lemma ChannelFills(c: Config, n: nat)
    requires c.maxTests <= 0 || n <= c.maxTests
    requires n <= 2 * if c.workers <= 0 then 4 else c.workers
    ensures exists s :: Reaches(c, s) && s.generated == n && s.taken == 0
  {
    var s := FillsChannel(c, n);
  }
}
