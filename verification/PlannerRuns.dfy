/**
  Runs of the planner of internal/engine/planner.go from fresh counters, with rewards
  between the picks.
 */
module PlannerRuns {
  import opened PlannerTheory
  import opened PlannerScores

  /** What a planner is made with; explore stands for the exploration term of the score. */
  datatype Setup = Setup(keys: seq<Key>, weights: map<Key, real>, floor: nat, explore: (nat, nat) -> real)

  ghost predicate WellMade(setup: Setup) {
    && setup.keys != [] && SortedKeyList(setup.keys)
    && forall k | k in setup.keys :: k in setup.weights && setup.weights[k] > 0.0
  }

  datatype Credit = Credit(key: Key, delta: real)

  /** What comes before a pick, and the number that is drawn for it. */
  datatype Turn = Turn(rewards: seq<Credit>, draw: nat)

  type Stats = map<Key, EpStats>

  function FreshStats(keys: seq<Key>): (stats: Stats)
    ensures CountsFor(keys, CountsOf(stats)) && CountsOf(stats) == Fresh(keys)
  {
    map k | k in keys :: EpStats(0, 0.0, 0)
  }

  /** The counters after one more pick of k. */
  function Picked(stats: Stats, k: Key): (after: Stats)
    requires k in stats
    ensures after.Keys == stats.Keys && CountsOf(after) == CountsOf(stats)[k := CountsOf(stats)[k] + 1]
  {
    stats[k := stats[k].(n := stats[k].n + 1)]
  }

  /** A reward for an unknown key is ignored. */
  function RewardedAll(stats: Stats, rewards: seq<Credit>): (after: Stats)
    ensures after.Keys == stats.Keys && CountsOf(after) == CountsOf(stats)
  {
    if rewards == [] then stats
    else
      var n := |rewards| - 1;
      var before, k := RewardedAll(stats, rewards[..n]), rewards[n].key;
      if k in before then
        RewardedCounts(before, k, rewards[n].delta);
        Rewarded(before, k, rewards[n].delta)
      else before
  }

  /** The counters at the next choice. */
  ghost function Next(keys: seq<Key>, turns: seq<Turn>, picks: seq<Key>, rewards: seq<Credit>): (stats: Stats)
    requires |turns| == |picks|
    ensures CountsOf(stats) == After(keys, picks)
    decreases |picks|, 1
  {
    RewardedAll(Played(keys, turns, picks), rewards)
  }

  /** The counters after some picks, with the rewards in between. */
  ghost function Played(keys: seq<Key>, turns: seq<Turn>, picks: seq<Key>): (stats: Stats)
    requires |turns| == |picks|
    ensures CountsOf(stats) == After(keys, picks)
    decreases |picks|, 0
  {
    if picks == [] then FreshStats(keys)
    else
      var n := |picks| - 1;
      var before := Next(keys, turns[..n], picks[..n], turns[n].rewards);
      if picks[n] in before then Picked(before, picks[n]) else before
  }

  /** The planner before a choice, after some picks and the rewards of the turn. */
  ghost function Before(setup: Setup, turns: seq<Turn>, picks: seq<Key>, rewards: seq<Credit>): (x: Scoring)
    requires WellMade(setup) && |turns| == |picks|
    ensures Complete(x) && x.keys == setup.keys && CountsOf(x.stats) == After(setup.keys, picks)
  {
    var stats := Next(setup.keys, turns, picks, rewards);
    assert forall k :: k in stats <==> k in CountsOf(stats);
    Scoring(setup.keys, setup.weights, stats, |picks|, setup.explore)
  }

  /** The planner, made as given, makes these picks in these turns. */
  ghost predicate Plays(setup: Setup, turns: seq<Turn>, picks: seq<Key>)
    requires WellMade(setup)
  {
    && |turns| == |picks|
    && (picks == [] ||
        (var n := |picks| - 1;
         && Plays(setup, turns[..n], picks[..n])
         && Chooses(Before(setup, turns[..n], picks[..n], turns[n].rewards), setup.floor, turns[n].draw, picks[n])))
  }

  lemma {:induction false} PlaysAreAllowed(setup: Setup, turns: seq<Turn>, picks: seq<Key>)
    requires WellMade(setup) && Plays(setup, turns, picks)
    ensures CanPick(setup.keys, setup.floor, picks)
  {
    if picks != [] {
      var n := |picks| - 1;
      PlaysAreAllowed(setup, turns[..n], picks[..n]);
      ChosenIsAllowed(Before(setup, turns[..n], picks[..n], turns[n].rewards), setup.floor, turns[n].draw, picks[n]);
    }
  }

  /** One reward is enough in each turn. */
  lemma {:induction false} AllowedIsPlayed(setup: Setup, picks: seq<Key>) returns (turns: seq<Turn>)
    requires WellMade(setup) && CanPick(setup.keys, setup.floor, picks)
    ensures Plays(setup, turns, picks)
  {
    turns := [];
    if picks != [] {
      var n := |picks| - 1;
      var init := AllowedIsPlayed(setup, picks[..n]);
      var turn := AllowedTurn(setup, init, picks[..n], picks[n]);
      turns := init + [turn];
      assert turns[..n] == init;
    }
  }

  lemma AllowedTurn(setup: Setup, turns: seq<Turn>, picks: seq<Key>, k: Key) returns (turn: Turn)
    requires WellMade(setup) && |turns| == |picks| && CanChoose(setup.keys, After(setup.keys, picks), setup.floor, k)
    ensures Chooses(Before(setup, turns, picks, turn.rewards), setup.floor, turn.draw, k)
  {
    var x := Before(setup, turns, picks, []);
    assert k in CountsOf(x.stats);
    var draw, delta := AllowedIsChosen(x, setup.floor, k);
    turn := Turn([Credit(k, delta)], draw);
    assert turn.rewards[..0] == [];
    assert Before(setup, turns, picks, turn.rewards) == WithReward(x, k, delta);
  }

  /**
    From fresh counters, some rewards and draws make the planner return a sequence of
    picks if and only if the counters allow each of them in its turn; the weights and the
    exploration term do not matter.
   */
  lemma PlayTheorem(setup: Setup, picks: seq<Key>)
    requires WellMade(setup)
    ensures CanPick(setup.keys, setup.floor, picks) <==> exists turns :: Plays(setup, turns, picks)
  {
    if CanPick(setup.keys, setup.floor, picks) {
      var turns := AllowedIsPlayed(setup, picks);
      assert exists turns :: Plays(setup, turns, picks);
    }
    if exists turns :: Plays(setup, turns, picks) {
      var turns :| Plays(setup, turns, picks);
      PlaysAreAllowed(setup, turns, picks);
    }
  }
}
