/**
  The endpoint planner of internal/engine/planner.go.

  Each method is one critical section of the mutex.  Draws of the random generator and
  the exploration term of the score are parameters.
 */
module EndpointPlanning {
  import opened EndpointPaths
  import opened PlannerScores
  import opened PlannerRuns
  import opened PlannerTheory
  import opened Sorting

  datatype Request = Request(httpMethod: string, path: string)

  /** Where an exchange is in the seeds. */
  datatype Ref = Ref(session: nat, exchange: nat)

  datatype Override = Override(httpMethod: string, path: string, disabled: bool, weight: real)

  function KeyOf(isParameter: string -> bool, request: Request): Key {
    Key(request.httpMethod, Normalized(isParameter, request.path))
  }

  /** Two requests are for the same endpoint if and only if method and path are the same, but for parameters. */
  lemma KeyTheorem(isParameter: string -> bool, a: Request, b: Request)
    ensures KeyOf(isParameter, a) == KeyOf(isParameter, b)
      <==> a.httpMethod == b.httpMethod && SameButParameters(isParameter, Split(a.path), Split(b.path))
  {
    SameNormalForm(isParameter, a.path, b.path);
  }

  type Seeds = seq<seq<Request>>

  predicate RefOf(isParameter: string -> bool, seeds: Seeds, ref: Ref, k: Key) {
    ref.session < |seeds| && ref.exchange < |seeds[ref.session]|
      && KeyOf(isParameter, seeds[ref.session][ref.exchange]) == k
  }

  // ---- The exchanges of an endpoint ----

  type Sessions = map<Key, seq<Ref>>

  predicate Before(ref: Ref, i: nat, j: nat) {
    ref.session < i || (ref.session == i && ref.exchange < j)
  }

  ghost predicate RefsFit(isParameter: string -> bool, seeds: Seeds, sessions: Sessions) {
    forall k | k in sessions :: sessions[k] != []
      && forall ref | ref in sessions[k] :: RefOf(isParameter, seeds, ref, k)
  }

  ghost predicate Listed(sessions: Sessions, ref: Ref, k: Key) {
    k in sessions && ref in sessions[k]
  }

  /** The exchanges in front of position (i, j) are listed under their keys. */
  ghost predicate Collected(isParameter: string -> bool, seeds: Seeds, sessions: Sessions, i: nat, j: nat) {
    forall ref, k | RefOf(isParameter, seeds, ref, k) && Before(ref, i, j) :: Listed(sessions, ref, k)
  }

  lemma CollectedOneMore(isParameter: string -> bool, seeds: Seeds, sessions: Sessions, i: nat, j: nat, k: Key,
                         refs: seq<Ref>)
    requires RefsFit(isParameter, seeds, sessions) && Collected(isParameter, seeds, sessions, i, j)
    requires RefOf(isParameter, seeds, Ref(i, j), k)
    requires refs == (if k in sessions then sessions[k] else []) + [Ref(i, j)]
    ensures RefsFit(isParameter, seeds, sessions[k := refs])
      && Collected(isParameter, seeds, sessions[k := refs], i, j + 1)
  {
    var after := sessions[k := refs];
    forall ref, q | RefOf(isParameter, seeds, ref, q) && Before(ref, i, j + 1) ensures Listed(after, ref, q) {
      assert Before(ref, i, j) ==> Listed(sessions, ref, q);
      assert ref == Ref(i, j) || Before(ref, i, j);
    }
  }

  predicate Earlier(a: Ref, b: Ref) {
    Before(a, b.session, b.exchange)
  }

  /** The lists hold exchanges in front of position (i, j), each once, in the order of the seeds. */
  ghost predicate InOrder(sessions: Sessions, i: nat, j: nat) {
    forall k | k in sessions ::
      && (forall a | 0 <= a < |sessions[k]| :: Before(sessions[k][a], i, j))
      && (forall a, b | 0 <= a < b < |sessions[k]| :: Earlier(sessions[k][a], sessions[k][b]))
  }

  lemma InOrderOneMore(sessions: Sessions, i: nat, j: nat, k: Key, refs: seq<Ref>)
    requires InOrder(sessions, i, j) && refs == (if k in sessions then sessions[k] else []) + [Ref(i, j)]
    ensures InOrder(sessions[k := refs], i, j + 1)
  {
    var after := sessions[k := refs];
    forall q | q in after
      ensures forall a | 0 <= a < |after[q]| :: Before(after[q][a], i, j + 1)
      ensures forall a, b | 0 <= a < b < |after[q]| :: Earlier(after[q][a], after[q][b])
    {
      assert q != k ==> q in sessions && after[q] == sessions[q];
    }
  }

  method CollectRefs(isParameter: string -> bool, seeds: Seeds) returns (sessions: Sessions)
    ensures RefsFit(isParameter, seeds, sessions)
    ensures forall ref, k | RefOf(isParameter, seeds, ref, k) :: Listed(sessions, ref, k)
    ensures forall k | k in sessions ::
      forall a, b | 0 <= a < b < |sessions[k]| :: Earlier(sessions[k][a], sessions[k][b])
  {
    sessions := map[];
    for i := 0 to |seeds|
      invariant RefsFit(isParameter, seeds, sessions) && Collected(isParameter, seeds, sessions, i, 0)
      invariant InOrder(sessions, i, 0)
    {
      for j := 0 to |seeds[i]|
        invariant RefsFit(isParameter, seeds, sessions) && Collected(isParameter, seeds, sessions, i, j)
        invariant InOrder(sessions, i, j)
      {
        var k := KeyOf(isParameter, seeds[i][j]);
        var refs := (if k in sessions then sessions[k] else []) + [Ref(i, j)];
        InOrderOneMore(sessions, i, j, k, refs);
        CollectedOneMore(isParameter, seeds, sessions, i, j, k, refs);
        sessions := sessions[k := refs];
      }
      assert forall ref, k :: RefOf(isParameter, seeds, ref, k) && Before(ref, i + 1, 0) ==> Before(ref, i, |seeds[i]|);
    }
  }

  // ---- Overrides ----

  /** An override without a method applies to every method on its path. */
  predicate Applies(ov: Override, k: Key) {
    k.path == ov.path && (ov.httpMethod == "" || k.httpMethod == ov.httpMethod)
  }

  predicate Reweights(ov: Override, k: Key) {
    Applies(ov, k) && !ov.disabled && ov.weight > 0.0
  }

  predicate DisabledBy(overrides: seq<Override>, k: Key) {
    exists i :: 0 <= i < |overrides| && overrides[i].disabled && Applies(overrides[i], k)
  }

  /** The last weight that applies counts; without one it is 1. */
  function WeightOf(overrides: seq<Override>, k: Key): (weight: real)
    ensures weight > 0.0
  {
    if overrides == [] then 1.0
    else
      var ov := overrides[|overrides| - 1];
      if Reweights(ov, k) then ov.weight
      else WeightOf(overrides[..|overrides| - 1], k)
  }

  /** An endpoint is disabled by the overrides for its path, for its method or without a method. */
  lemma DisabledTheorem(overrides: seq<Override>, k: Key)
    ensures DisabledBy(overrides, k) <==>
      exists ov :: ov in overrides && ov.disabled && ov.path == k.path && ov.httpMethod in {"", k.httpMethod}
  {
    if DisabledBy(overrides, k) {
      var i :| 0 <= i < |overrides| && overrides[i].disabled && Applies(overrides[i], k);
      assert overrides[i] in overrides;
    }
    if ov :| ov in overrides && ov.disabled && ov.path == k.path && ov.httpMethod in {"", k.httpMethod} {
      var i :| 0 <= i < |overrides| && overrides[i] == ov;
      assert Applies(overrides[i], k);
    }
  }

  /** What gives an endpoint a weight: an override for its path and method that does not disable it. */
  predicate GivesWeight(ov: Override, k: Key) {
    !ov.disabled && ov.weight > 0.0 && ov.path == k.path && ov.httpMethod in {"", k.httpMethod}
  }

  /** The last override that gives a weight counts. */
  lemma {:induction false} WeightTheorem(overrides: seq<Override>, k: Key, i: nat)
    requires i < |overrides| && GivesWeight(overrides[i], k)
    requires forall j | i < j < |overrides| :: !GivesWeight(overrides[j], k)
    ensures WeightOf(overrides, k) == overrides[i].weight
  {
    var n := |overrides| - 1;
    if i < n {
      assert !GivesWeight(overrides[n], k);
      WeightTheorem(overrides[..n], k, i);
    }
  }

  /** Without one the weight is 1. */
  lemma {:induction false} DefaultWeight(overrides: seq<Override>, k: Key)
    requires forall ov | ov in overrides :: !GivesWeight(ov, k)
    ensures WeightOf(overrides, k) == 1.0
  {
    if overrides != [] {
      var n := |overrides| - 1;
      assert overrides[n] in overrides && forall ov :: ov in overrides[..n] ==> ov in overrides;
      DefaultWeight(overrides[..n], k);
      assert !Reweights(overrides[n], k) by {
        assert !GivesWeight(overrides[n], k);
      }
    }
  }

  function WeightIn(weights: map<Key, real>, k: Key): real {
    if k in weights then weights[k] else 1.0
  }

  /** Applies one override to the maps of the constructor. */
  method ApplyOverride(keys: set<Key>, ov: Override, disabledBefore: set<Key>, weightsBefore: map<Key, real>)
    returns (disabled: set<Key>, weights: map<Key, real>)
    ensures forall k | k in keys :: k in disabled <==> k in disabledBefore || (ov.disabled && Applies(ov, k))
    ensures forall k | k in keys ::
      WeightIn(weights, k) == if Reweights(ov, k) then ov.weight else WeightIn(weightsBefore, k)
  {
    disabled, weights := disabledBefore, weightsBefore;
    var todo := keys;
    while todo != {}
      invariant todo <= keys
      invariant forall k | k in keys ::
        k in disabled <==> k in disabledBefore || (k !in todo && ov.disabled && Applies(ov, k))
      invariant forall k | k in keys ::
        WeightIn(weights, k) ==
          if k !in todo && Reweights(ov, k) then ov.weight else WeightIn(weightsBefore, k)
    {
      var k :| k in todo;
      todo := todo - {k};
      if k.path != ov.path || (ov.httpMethod != "" && k.httpMethod != ov.httpMethod) {
        continue;
      }
      if ov.disabled {
        disabled := disabled + {k};
        continue;
      }
      if ov.weight > 0.0 {
        weights := weights[k := ov.weight];
      }
    }
  }

  method ApplyOverrides(keys: set<Key>, overrides: seq<Override>) returns (disabled: set<Key>, weights: map<Key, real>)
    ensures forall k | k in keys :: k in disabled <==> DisabledBy(overrides, k)
    ensures forall k | k in keys :: WeightIn(weights, k) == WeightOf(overrides, k)
  {
    disabled, weights := {}, map[];
    for i := 0 to |overrides|
      invariant forall k | k in keys :: k in disabled <==> DisabledBy(overrides[..i], k)
      invariant forall k | k in keys :: WeightIn(weights, k) == WeightOf(overrides[..i], k)
    {
      var init, more := overrides[..i], overrides[..i + 1];
      assert more == init + [overrides[i]] && more[..i] == init;
      forall k
        ensures DisabledBy(more, k) <==> DisabledBy(init, k) || (overrides[i].disabled && Applies(overrides[i], k))
      {
        if DisabledBy(init, k) {
          var j :| 0 <= j < |init| && init[j].disabled && Applies(init[j], k);
          assert more[j] == init[j];
        }
        assert more[i] == overrides[i];
      }
      disabled, weights := ApplyOverride(keys, overrides[i], disabled, weights);
    }
    assert overrides[..|overrides|] == overrides;
  }

  // ---- The planner ----

  /** The counters are those of a sequence of picks that can be made. */
  ghost predicate Tracks(keys: seq<Key>, floor: nat, stats: map<Key, EpStats>, picks: seq<Key>) {
    && (forall k :: k in keys <==> k in stats)
    && CanPick(keys, floor, picks) && CountsOf(stats) == After(keys, picks)
  }

  lemma TracksMore(keys: seq<Key>, floor: nat, stats: map<Key, EpStats>, picks: seq<Key>, k: Key)
    requires Tracks(keys, floor, stats, picks) && k in keys && CanChoose(keys, CountsOf(stats), floor, k)
    ensures Tracks(keys, floor, Picked(stats, k), picks + [k])
  {
    OneMorePick(keys, floor, picks, k);
  }

  const FINDING_REWARD := 5.0

  function WithFinding(s: EpStats): EpStats {
    s.(findings := s.findings + 1, rewardSum := s.rewardSum + FINDING_REWARD)
  }

  lemma TracksSame(keys: seq<Key>, floor: nat, stats: map<Key, EpStats>, after: map<Key, EpStats>, picks: seq<Key>)
    requires Tracks(keys, floor, stats, picks) && after.Keys == stats.Keys && CountsOf(after) == CountsOf(stats)
    ensures Tracks(keys, floor, after, picks)
  {
  }

  class EndpointPlanner {
    const keys: seq<Key>
    const sessions: Sessions
    const weights: map<Key, real>
    const floor: nat
    ghost const isParameter: string -> bool
    ghost const seeds: Seeds

    var stats: map<Key, EpStats>
    var totalN: nat
    var lastKey: Key
    ghost var picks: seq<Key>

    function Ns(): Counts
      reads this
    {
      CountsOf(stats)
    }

    /** Every key has a weight and exchanges, which have this key. */
    ghost predicate WellBuilt() {
      && keys != [] && SortedKeyList(keys) && RefsFit(isParameter, seeds, sessions)
      && forall k | k in keys :: k in weights && weights[k] > 0.0 && k in sessions
    }

    ghost predicate Valid()
      reads this
    {
      WellBuilt() && Tracks(keys, floor, stats, picks) && totalN == |picks|
    }

    constructor (keys: seq<Key>, sessions: Sessions, weights: map<Key, real>, floor: nat,
                 ghost isParameter: string -> bool, ghost seeds: Seeds)
      requires keys != [] && SortedKeyList(keys) && RefsFit(isParameter, seeds, sessions)
      requires forall k | k in keys :: k in weights && weights[k] > 0.0 && k in sessions
      ensures Valid() && picks == [] && this.keys == keys && this.sessions == sessions
      ensures this.weights == weights && this.floor == floor && this.isParameter == isParameter && this.seeds == seeds
    {
      this.keys, this.sessions, this.weights, this.floor := keys, sessions, weights, floor;
      this.isParameter, this.seeds := isParameter, seeds;
      stats := FreshStats(keys);
      totalN, lastKey, picks := 0, ZERO, [];
    }

    /** What the next choice depends on. */
    function Now(explore: (nat, nat) -> real): Scoring
      reads this
    {
      Scoring(keys, weights, stats, totalN, explore)
    }

    /** The first of the keys with the largest score. */
    method ArgmaxUCB(explore: (nat, nat) -> real) returns (best: Key)
      requires Valid()
      ensures IsBest(Now(explore), best)
    {
      best := ZERO;
      var now, bestScore := Now(explore), MinusInf;
      ghost var scores, at := Scores(now), 0;
      for i := 0 to |keys|
        invariant i == 0 ==> bestScore == MinusInf
        invariant i > 0 ==> BestOf(scores, i, at) && best == keys[at] && bestScore == scores[at]
      {
        var score := ScoreOf(now, keys[i]);
        assert score == scores[i];
        if i > 0 {
          BestOfNext(scores, i, at);
        }
        if Greater(score, bestScore) {
          bestScore, best, at := score, keys[i], i;
        }
      }
    }

    /** The keys below the floor. */
    method UnderFloor() returns (under: seq<Key>)
      requires Valid()
      ensures under == UnderList(keys, Ns(), floor)
    {
      under := [];
      var current := stats;
      for i := 0 to |keys|
        invariant under == UnderList(keys[..i], CountsOf(current), floor)
      {
        assert keys[..i + 1][..i] == keys[..i] && keys[i] in keys;
        if current[keys[i]].n < floor {
          under := under + [keys[i]];
        }
      }
      assert keys[..|keys|] == keys;
    }

    /** Chooses a key; the draw selects among those below the floor. */
    method Choose(draw: nat, explore: (nat, nat) -> real) returns (chosen: Key)
      requires Valid()
      ensures Chooses(Now(explore), floor, draw, chosen) && CanChoose(keys, Ns(), floor, chosen)
    {
      chosen := ZERO;
      if floor > 0 {
        var under := UnderFloor();
        if |under| > 0 {
          chosen := under[draw % |under|];
        }
      } else {
        NoneListed(keys, Ns(), 0);
      }
      assert chosen == DrawnFrom(Now(explore), floor, draw);
      if chosen == ZERO {
        chosen := ArgmaxUCB(explore);
      }
      ChosenIsAllowed(Now(explore), floor, draw, chosen);
    }

    /** Counts a choice. */
    method CountPick(chosen: Key)
      requires Valid() && chosen in keys && CanChoose(keys, Ns(), floor, chosen)
      modifies this
      ensures Valid() && picks == old(picks) + [chosen]
      ensures stats == Picked(old(stats), chosen)
      ensures lastKey == chosen && totalN == old(totalN) + 1
    {
      TracksMore(keys, floor, stats, picks, chosen);
      picks := picks + [chosen];
      stats := Picked(stats, chosen);
      totalN := totalN + 1;
      lastKey := chosen;
    }

    /** Chooses an endpoint and one of its exchanges, and counts the choice. */
    method Pick(draw: nat, refDraw: nat, explore: (nat, nat) -> real) returns (chosen: Key, ref: Ref)
      requires Valid()
      modifies this
      ensures Valid() && picks == old(picks) + [chosen]
      ensures chosen in keys && RefOf(isParameter, seeds, ref, chosen)
      ensures Chooses(old(Now(explore)), floor, draw, chosen)
      ensures stats == Picked(old(stats), chosen)
      ensures lastKey == chosen && totalN == old(totalN) + 1
    {
      chosen := Choose(draw, explore);
      assert chosen in keys;
      var refs := sessions[chosen];
      ref := refs[refDraw % |refs|];
      CountPick(chosen);
    }

    method Reward(k: Key, delta: real)
      requires Valid()
      modifies this`stats
      ensures Valid() && Ns() == old(Ns())
      ensures stats == if k in old(stats) then Rewarded(old(stats), k, delta) else old(stats)
    {
      if delta == 0.0 {
        if k in stats { NoReward(stats, k); }
        return;
      }
      if k in stats {
        RewardedCounts(stats, k, delta);
        TracksSame(keys, floor, stats, Rewarded(stats, k, delta), picks);
        stats := Rewarded(stats, k, delta);
      }
    }

    method RecordFinding(k: Key)
      requires Valid()
      modifies this`stats
      ensures Valid() && Ns() == old(Ns())
      ensures stats == if k in old(stats)
        then old(stats)[k := WithFinding(old(stats)[k])]
        else old(stats)
      ensures k in old(stats) ==>
        stats[k] == EpStats(old(stats)[k].n, old(stats)[k].rewardSum + 5.0, old(stats)[k].findings + 1)
    {
      if k in stats {
        CountsSame(stats, k, WithFinding(stats[k]));
        TracksSame(keys, floor, stats, stats[k := WithFinding(stats[k])], picks);
        stats := stats[k := WithFinding(stats[k])];
      }
    }

    /**
      In every interleaving of the methods: totalN is the sum of the counts, the floor is
      kept unless the zero key spoils it, and without a floor every key is tried in order.
     */
    lemma Scheduling()
      requires Valid()
      ensures totalN == Sum(keys, Ns())
      ensures FloorIsFair(keys, floor) ==> Level(keys, Ns(), floor)
      ensures FloorIsFair(keys, floor) && totalN == floor * |keys| ==> forall k | k in keys :: Ns()[k] == floor
      ensures floor == 0 && totalN <= |keys| ==> picks == keys[..totalN]
    {
      TotalOfPicks(keys, floor, picks);
      if FloorIsFair(keys, floor) {
        FairPicksAreLevel(keys, floor, picks);
        if totalN == floor * |keys| {
          FloorIsReached(keys, floor, picks);
        }
      }
      if floor == 0 && totalN <= |keys| {
        FirstPicksInOrder(keys, picks);
      }
    }
  }

  /** An endpoint that occurs in the seeds and is not disabled. */
  ghost predicate Enabled(isParameter: string -> bool, seeds: Seeds, overrides: seq<Override>, k: Key) {
    (exists ref :: RefOf(isParameter, seeds, ref, k)) && !DisabledBy(overrides, k)
  }

  /** The enabled keys in order, with their weights. */
  method EnabledKeys(all: set<Key>, disabled: set<Key>, given: map<Key, real>)
    returns (keys: seq<Key>, weights: map<Key, real>)
    ensures SortedKeyList(keys) && forall k :: k in keys <==> k in all && k !in disabled
    ensures forall k | k in keys :: k in weights && weights[k] == WeightIn(given, k)
  {
    weights := given;
    var enabled, todo := {}, all;
    while todo != {}
      invariant todo <= all
      invariant forall k :: k in enabled <==> k in all && k !in todo && k !in disabled
      invariant forall k | k in enabled :: k in weights
      invariant forall k | k in all :: WeightIn(weights, k) == WeightIn(given, k)
      decreases todo
    {
      var k :| k in todo;
      todo := todo - {k};
      if k in disabled {
        continue;
      }
      enabled := enabled + {k};
      if k !in weights {
        weights := weights[k := 1.0];
      }
    }
    KeyLeqIsOrder();
    keys := Sort(KeyLeq, enabled);
    assert Sorted(KeyLeq, keys);
  }

  /** A planner for the seeds; none if the floor is negative or no endpoint is enabled. */
  method NewEndpointPlanner(isParameter: string -> bool, seeds: Seeds, overrides: seq<Override>, minFloor: int)
    returns (planner: EndpointPlanner?)
    ensures planner == null <==> minFloor < 0 || forall k :: !Enabled(isParameter, seeds, overrides, k)
    ensures planner != null ==>
      && fresh(planner) && planner.Valid() && planner.picks == [] && planner.floor == minFloor
      && planner.isParameter == isParameter && planner.seeds == seeds
      && (forall k :: k in planner.keys <==> Enabled(isParameter, seeds, overrides, k))
      && (forall k | k in planner.keys :: k in planner.weights && planner.weights[k] == WeightOf(overrides, k))
      && (forall ref, k | k in planner.keys && RefOf(isParameter, seeds, ref, k) :: Listed(planner.sessions, ref, k))
  {
    if minFloor < 0 {
      return null;
    }
    var sessions := CollectRefs(isParameter, seeds);
    var disabled, given := ApplyOverrides(sessions.Keys, overrides);
    var keys, weights := EnabledKeys(sessions.Keys, disabled, given);
    forall k ensures k in keys <==> Enabled(isParameter, seeds, overrides, k) {
      if k in sessions {
        assert sessions[k][0] in sessions[k];
      }
    }
    if |keys| == 0 {
      return null;
    }
    assert keys[0] in keys;
    planner := new EndpointPlanner(keys, sessions, weights, minFloor, isParameter, seeds);
  }
}
