/**
  The scores of internal/engine/planner.go, and that rewards can make the planner
  choose whatever its counters allow, for every exploration term.
 */
module PlannerScores {
  import opened PlannerTheory

  datatype EpStats = EpStats(n: nat, rewardSum: real, findings: nat)

  function CountsOf(stats: map<Key, EpStats>): Counts {
    map k | k in stats :: stats[k].n
  }

  lemma CountsSame(stats: map<Key, EpStats>, k: Key, s: EpStats)
    requires k in stats && s.n == stats[k].n
    ensures CountsOf(stats[k := s]) == CountsOf(stats)
  {
  }

  // ---- Scores ----

  /** Scores with the two infinities of the source. */
  datatype Score = MinusInf | Finite(value: real) | PlusInf

  predicate Greater(a: Score, b: Score) {
    match (a, b)
    case (Finite(x), Finite(y)) => x > y
    case (PlusInf, _) => b != PlusInf
    case (_, MinusInf) => a != MinusInf
    case (_, _) => false
  }

  /** Among the first n scores, the one at the given position is the first of the largest. */
  ghost predicate BestOf(scores: seq<Score>, n: nat, at: nat) {
    && at < n <= |scores|
    && (forall j | 0 <= j < n :: !Greater(scores[j], scores[at]))
    && (forall j | 0 <= j < at :: Greater(scores[at], scores[j]))
  }

  lemma BestOfNext(scores: seq<Score>, n: nat, at: nat)
    requires BestOf(scores, n, at) && n < |scores|
    ensures BestOf(scores, n + 1, if Greater(scores[n], scores[at]) then n else at)
  {
  }

  /** What a choice depends on; explore stands for the exploration term of the score. */
  datatype Scoring = Scoring(
    keys: seq<Key>,
    weights: map<Key, real>,
    stats: map<Key, EpStats>,
    totalN: nat,
    explore: (nat, nat) -> real)

  ghost predicate Complete(x: Scoring) {
    && x.keys != [] && SortedKeyList(x.keys) && (forall k :: k in x.keys <==> k in x.stats)
    && forall k | k in x.keys :: k in x.weights && x.weights[k] > 0.0
  }

  function Exploration(x: Scoring, n: nat): real {
    x.explore(if x.totalN < 1 then 1 else x.totalN, n)
  }

  function ScoreOf(x: Scoring, k: Key): Score
    requires k in x.stats && k in x.weights
  {
    var s := x.stats[k];
    if s.n == 0 then PlusInf else Finite(x.weights[k] * (s.rewardSum / s.n as real + Exploration(x, s.n)))
  }

  ghost function Scores(x: Scoring): (scores: seq<Score>)
    requires Complete(x)
    ensures |scores| == |x.keys| && forall i | 0 <= i < |x.keys| :: scores[i] == ScoreOf(x, x.keys[i])
  {
    seq(|x.keys|, i requires 0 <= i < |x.keys| => ScoreOf(x, x.keys[i]))
  }

  /** The first of the best keys. */
  ghost predicate IsBest(x: Scoring, k: Key)
    requires Complete(x)
  {
    exists at: nat :: BestOf(Scores(x), |x.keys|, at) && x.keys[at] == k
  }

  lemma InfiniteScore(x: Scoring, i: nat)
    requires Complete(x) && i < |x.keys|
    ensures x.keys[i] in CountsOf(x.stats)
    ensures CountsOf(x.stats)[x.keys[i]] == 0 ==> Scores(x)[i] == PlusInf
    ensures CountsOf(x.stats)[x.keys[i]] > 0 ==> Scores(x)[i].Finite?
  {
    assert x.keys[i] in x.keys;
  }

  /** An infinite score beats every other one, and the first of several wins. */
  lemma BestWins(x: Scoring, k: Key)
    requires Complete(x) && IsBest(x, k)
    ensures CanWin(x.keys, CountsOf(x.stats), k)
  {
    var at: nat :| BestOf(Scores(x), |x.keys|, at) && x.keys[at] == k;
    if Untried(x.keys, CountsOf(x.stats)) {
      var q :| q in x.keys && q in CountsOf(x.stats) && CountsOf(x.stats)[q] == 0;
      var j :| 0 <= j < |x.keys| && x.keys[j] == q;
      InfiniteScore(x, j);
      FirstInfinite(x, at, j);
    }
  }

  lemma FirstInfinite(x: Scoring, at: nat, j: nat)
    requires Complete(x) && BestOf(Scores(x), |x.keys|, at) && j < |x.keys| && Scores(x)[j] == PlusInf
    ensures FirstUntried(x.keys, CountsOf(x.stats), at)
  {
    assert Scores(x)[at] == PlusInf;
    InfiniteScore(x, at);
    forall i | 0 <= i < at ensures CountsOf(x.stats)[x.keys[i]] > 0 {
      InfiniteScore(x, i);
      assert Greater(Scores(x)[at], Scores(x)[i]);
    }
  }

  /** No key has a higher score than the best one, and those with the same score come after it. */
  lemma BestIsFirst(x: Scoring, k: Key, j: Key)
    requires Complete(x) && IsBest(x, k) && j in x.keys && ScoreOf(x, k).Finite?
    ensures k in x.keys && ScoreOf(x, j).Finite? && ScoreOf(x, j).value <= ScoreOf(x, k).value
    ensures ScoreOf(x, j) == ScoreOf(x, k) ==> KeyLeq(k, j)
  {
    var at: nat :| BestOf(Scores(x), |x.keys|, at) && x.keys[at] == k;
    var i: nat :| i < |x.keys| && x.keys[i] == j;
    assert Scores(x)[i] == ScoreOf(x, j) && Scores(x)[at] == ScoreOf(x, k);
    KeyLeqTotal(k, j);
    assert i < at ==> Greater(Scores(x)[at], Scores(x)[i]);
  }

  // ---- Rewards ----

  function Rewarded(stats: map<Key, EpStats>, k: Key, delta: real): map<Key, EpStats>
    requires k in stats
  {
    stats[k := stats[k].(rewardSum := stats[k].rewardSum + delta)]
  }

  function WithReward(x: Scoring, k: Key, delta: real): Scoring
    requires k in x.stats
  {
    x.(stats := Rewarded(x.stats, k, delta))
  }

  lemma RewardedCounts(stats: map<Key, EpStats>, k: Key, delta: real)
    requires k in stats
    ensures CountsOf(Rewarded(stats, k, delta)) == CountsOf(stats)
  {
    CountsSame(stats, k, stats[k].(rewardSum := stats[k].rewardSum + delta));
  }

  lemma NoReward(stats: map<Key, EpStats>, k: Key)
    requires k in stats
    ensures Rewarded(stats, k, 0.0) == stats
  {
  }

  lemma RewardKeepsCounts(x: Scoring, k: Key, delta: real)
    requires Complete(x) && k in x.stats
    ensures Complete(WithReward(x, k, delta)) && CountsOf(WithReward(x, k, delta).stats) == CountsOf(x.stats)
  {
    RewardedCounts(x.stats, k, delta);
    assert Rewarded(x.stats, k, delta).Keys == x.stats.Keys;
  }

  lemma Divided(a: real, n: real)
    requires n > 0.0
    ensures (a * n) / n == a && n * (a / n) == a
  {
  }

  /**
    A reward raises the score of a tried key by the weight times its share in the mean.
    A key without rewards has the weight times the exploration term, and the total that
    this term sees is at least one.
   */
  lemma ScoreParts(x: Scoring, k: Key, delta: real)
    requires Complete(x) && k in x.keys && x.stats[k].n > 0
    ensures ScoreOf(x, k).Finite? && ScoreOf(WithReward(x, k, delta), k).Finite?
    ensures ScoreOf(WithReward(x, k, delta), k).value
      == ScoreOf(x, k).value + x.weights[k] * (delta / x.stats[k].n as real)
    ensures x.stats[k].rewardSum == 0.0 ==>
      ScoreOf(x, k).value == x.weights[k] * x.explore(if x.totalN == 0 then 1 else x.totalN, x.stats[k].n)
  {
    var s, w, n := x.stats[k], x.weights[k], x.stats[k].n as real;
    assert (s.rewardSum + delta) / n == s.rewardSum / n + delta / n;
    Distribute(w, s.rewardSum / n + Exploration(x, s.n), delta / n);
  }

  lemma Distribute(w: real, a: real, b: real)
    ensures w * (a + b) == w * a + w * b
  {
  }

  /** Some reward gives a tried key any finite score. */
  lemma RewardReaches(x: Scoring, k: Key, score: real) returns (delta: real)
    requires Complete(x) && k in x.keys && x.stats[k].n > 0
    ensures ScoreOf(WithReward(x, k, delta), k) == Finite(score)
  {
    var s, w := x.stats[k], x.weights[k];
    var n, term := s.n as real, Exploration(x, s.n);
    var mean := score / w - term;
    delta := mean * n - s.rewardSum;
    assert s.rewardSum + delta == mean * n;
    Divided(mean, n);
    Divided(score, w);
    assert Exploration(WithReward(x, k, delta), s.n) == term;
    assert mean + term == score / w;
  }

  /** A number above all finite scores. */
  lemma {:induction false} Above(scores: seq<Score>) returns (bound: real)
    ensures forall i | 0 <= i < |scores| && scores[i].Finite? :: scores[i].value < bound
  {
    if scores == [] {
      bound := 0.0;
    } else {
      var n := |scores| - 1;
      bound := Above(scores[..n]);
      assert forall i | 0 <= i < n :: scores[i] == scores[..n][i];
      if scores[n].Finite? && scores[n].value >= bound {
        bound := scores[n].value + 1.0;
      }
    }
  }

  /** A key that can win does win after some reward. */
  lemma RewardCanWin(x: Scoring, k: Key) returns (delta: real)
    requires Complete(x) && CanWin(x.keys, CountsOf(x.stats), k)
    ensures Complete(WithReward(x, k, delta)) && IsBest(WithReward(x, k, delta), k)
  {
    if Untried(x.keys, CountsOf(x.stats)) {
      delta := 0.0;
      RewardKeepsCounts(x, k, delta);
      UntriedIsBest(WithReward(x, k, delta), k);
    } else {
      assert k in CountsOf(x.stats);
      var bound := Above(Scores(x));
      delta := RewardReaches(x, k, bound);
      RewardKeepsCounts(x, k, delta);
      LargestIsBest(x, k, delta, bound);
    }
  }

  lemma UntriedIsBest(x: Scoring, k: Key)
    requires Complete(x) && WinsUntried(x.keys, CountsOf(x.stats), k)
    ensures IsBest(x, k)
  {
    var i: nat :| FirstUntried(x.keys, CountsOf(x.stats), i) && x.keys[i] == k;
    InfiniteScore(x, i);
    forall j | 0 <= j < i ensures Greater(Scores(x)[i], Scores(x)[j]) {
      InfiniteScore(x, j);
    }
    assert BestOf(Scores(x), |x.keys|, i);
  }

  lemma OtherScores(x: Scoring, k: Key, delta: real, i: nat)
    requires Complete(x) && k in x.stats && Complete(WithReward(x, k, delta)) && i < |x.keys| && x.keys[i] != k
    ensures Scores(WithReward(x, k, delta))[i] == Scores(x)[i]
  {
    assert x.keys[i] in x.keys;
  }

  lemma LargestIsBest(x: Scoring, k: Key, delta: real, bound: real)
    requires Complete(x) && k in x.keys && !Untried(x.keys, CountsOf(x.stats)) && Complete(WithReward(x, k, delta))
    requires forall i | 0 <= i < |x.keys| && Scores(x)[i].Finite? :: Scores(x)[i].value < bound
    requires ScoreOf(WithReward(x, k, delta), k) == Finite(bound)
    ensures IsBest(WithReward(x, k, delta), k)
  {
    var after := Scores(WithReward(x, k, delta));
    var at :| 0 <= at < |x.keys| && x.keys[at] == k;
    assert after[at] == Finite(bound);
    forall j | 0 <= j < |x.keys| && j != at ensures Greater(after[at], after[j]) {
      assert x.keys[j] != k;
      OtherScores(x, k, delta, j);
      InfiniteScore(x, j);
      assert x.keys[j] in x.keys;
    }
    assert BestOf(after, |x.keys|, at);
  }

  // ---- Choices ----

  /** The keys below the floor, in their order. */
  function UnderList(keys: seq<Key>, counts: Counts, floor: nat): (under: seq<Key>)
    ensures forall k :: k in under <==> Under(keys, counts, floor, k)
  {
    if keys == [] then []
    else
      var n := |keys| - 1;
      assert keys == keys[..n] + [keys[n]];
      UnderList(keys[..n], counts, floor) + if keys[n] in counts && counts[keys[n]] < floor then [keys[n]] else []
  }

  lemma {:induction false} NoneListed(keys: seq<Key>, counts: Counts, floor: nat)
    requires !SomeUnder(keys, counts, floor)
    ensures UnderList(keys, counts, floor) == []
  {
    if keys != [] {
      var n := |keys| - 1;
      assert forall k :: Under(keys[..n], counts, floor, k) ==> Under(keys, counts, floor, k);
      assert !Under(keys, counts, floor, keys[n]);
      NoneListed(keys[..n], counts, floor);
    }
  }

  /** The key that is drawn, or the zero value. */
  function Drawn(under: seq<Key>, draw: nat): (k: Key)
    ensures under != [] ==> k in under
  {
    if under == [] then ZERO else under[draw % |under|]
  }

  function DrawnFrom(x: Scoring, floor: nat, draw: nat): Key {
    Drawn(UnderList(x.keys, CountsOf(x.stats), floor), draw)
  }

  /** The key that Pick chooses for a draw: the zero value means that nothing is chosen yet. */
  ghost predicate Chooses(x: Scoring, floor: nat, draw: nat, k: Key)
    requires Complete(x)
  {
    if DrawnFrom(x, floor, draw) != ZERO then k == DrawnFrom(x, floor, draw) else IsBest(x, k)
  }

  lemma DrawnIsUnder(x: Scoring, floor: nat, draw: nat)
    ensures if SomeUnder(x.keys, CountsOf(x.stats), floor)
      then Under(x.keys, CountsOf(x.stats), floor, DrawnFrom(x, floor, draw))
      else DrawnFrom(x, floor, draw) == ZERO
  {
    if SomeUnder(x.keys, CountsOf(x.stats), floor) {
      var k :| Under(x.keys, CountsOf(x.stats), floor, k);
      assert k in UnderList(x.keys, CountsOf(x.stats), floor);
    } else {
      NoneListed(x.keys, CountsOf(x.stats), floor);
    }
  }

  lemma ChosenIsAllowed(x: Scoring, floor: nat, draw: nat, k: Key)
    requires Complete(x) && Chooses(x, floor, draw, k)
    ensures CanChoose(x.keys, CountsOf(x.stats), floor, k)
  {
    DrawnIsUnder(x, floor, draw);
    if DrawnFrom(x, floor, draw) == ZERO {
      BestWins(x, k);
    }
  }

  ghost predicate ChoosesAfter(x: Scoring, floor: nat, k: Key, draw: nat, delta: real)
    requires Complete(x) && k in x.stats
  {
    Complete(WithReward(x, k, delta)) && Chooses(WithReward(x, k, delta), floor, draw, k)
  }

  lemma SmallDraw(draw: nat, n: nat)
    requires draw < n
    ensures draw % n == draw
  {
  }

  lemma DrawOf(x: Scoring, floor: nat, k: Key) returns (draw: nat)
    requires Under(x.keys, CountsOf(x.stats), floor, k)
    ensures DrawnFrom(x, floor, draw) == k
  {
    var under := UnderList(x.keys, CountsOf(x.stats), floor);
    assert k in under;
    draw :| 0 <= draw < |under| && under[draw] == k;
    SmallDraw(draw, |under|);
  }

  lemma AllowedIsChosen(x: Scoring, floor: nat, k: Key) returns (draw: nat, delta: real)
    requires Complete(x) && k in x.stats && CanChoose(x.keys, CountsOf(x.stats), floor, k)
    ensures ChoosesAfter(x, floor, k, draw, delta)
  {
    if Under(x.keys, CountsOf(x.stats), floor, k) && k != ZERO {
      draw := DrawOf(x, floor, k);
      delta := 0.0;
      RewardKeepsCounts(x, k, delta);
    } else {
      draw := ZeroDraw(x, floor, k);
      delta := RewardCanWin(x, k);
      RewardKeepsCounts(x, k, delta);
    }
  }

  /** A draw that leaves the choice to the scores. */
  lemma ZeroDraw(x: Scoring, floor: nat, k: Key) returns (draw: nat)
    requires Complete(x) && CanChoose(x.keys, CountsOf(x.stats), floor, k)
    requires !(Under(x.keys, CountsOf(x.stats), floor, k) && k != ZERO)
    ensures DrawnFrom(x, floor, draw) == ZERO && CanWin(x.keys, CountsOf(x.stats), k)
  {
    if SomeUnder(x.keys, CountsOf(x.stats), floor) {
      draw := DrawOf(x, floor, ZERO);
    } else {
      draw := 0;
      DrawnIsUnder(x, floor, draw);
    }
  }

  /**
    The counters allow a choice if and only if some draw makes the planner choose it after
    some reward for it, whatever the exploration term is.
   */
  lemma ChoiceTheorem(x: Scoring, floor: nat, k: Key)
    requires Complete(x) && k in x.stats
    ensures CanChoose(x.keys, CountsOf(x.stats), floor, k)
      <==> exists draw, delta :: ChoosesAfter(x, floor, k, draw, delta)
  {
    if CanChoose(x.keys, CountsOf(x.stats), floor, k) {
      var draw, delta := AllowedIsChosen(x, floor, k);
    }
    if draw: nat, delta: real :| ChoosesAfter(x, floor, k, draw, delta) {
      ChosenIsAllowed(WithReward(x, k, delta), floor, draw, k);
      RewardKeepsCounts(x, k, delta);
    }
  }
}
