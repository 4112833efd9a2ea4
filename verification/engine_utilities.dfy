/**
 * Column allocation for new enemies (js/engine-utilities.js, nextEnemySpot).
 * The source marks taken columns in a JavaScript array and draws random
 * columns until it hits a free one. The model keeps that loop, fed by a finite
 * list of Math.random() values, and also gives the nondeterministic choice
 * among free columns that the engine tick uses; the two have the same outcomes.
 */
module EngineUtilities {

  import opened Wrappers
  import opened GameConfig
  import opened Enemies
  import opened Arith

  /** Some enemy of the list is in column `lane`. */
  predicate Occupied(enemies: seq<Enemy>, lane: int) {
    exists i :: 0 <= i < |enemies| && enemies[i].spot == lane
  }

  /** No two enemies of the list share a column. */
  predicate DistinctSpots(enemies: seq<Enemy>) {
    forall i, j :: 0 <= i < j < |enemies| ==> enemies[i].spot != enemies[j].spot
  }

  lemma OccupiedSnoc(enemies: seq<Enemy>, e: Enemy)
    ensures forall lane :: Occupied(enemies + [e], lane) <==> Occupied(enemies, lane) || e.spot == lane
  {
    var all := enemies + [e];
    forall lane | Occupied(all, lane)
      ensures Occupied(enemies, lane) || e.spot == lane
    {
      var i :| 0 <= i < |all| && all[i].spot == lane;
      if i < |enemies| {
        assert enemies[i] == all[i];
      }
    }
    forall lane | Occupied(enemies, lane)
      ensures Occupied(all, lane)
    {
      var i :| 0 <= i < |enemies| && enemies[i].spot == lane;
      assert all[i] == enemies[i];
    }
    assert all[|enemies|] == e;
  }

  /** Reading a JavaScript boolean array: holes and indices past the end read as undefined, which is falsy. */
  predicate JsTruthy(table: seq<bool>, i: nat) {
    i < |table| && table[i]
  }

  /** `table[i] = v` on a JavaScript array: a write past the end grows the array, leaving falsy holes. */
  function JsStore(table: seq<bool>, i: nat, v: bool): (t: seq<bool>)
    ensures |table| <= |t|
    ensures JsTruthy(t, i) == v
    ensures forall j: nat :: j != i ==> JsTruthy(t, j) == JsTruthy(table, j)
  {
    if i < |table| then table[i := v]
    else table + seq(i - |table|, _ => false) + [v]
  }

  /**
   * `spotsTaken`: five false entries, then `spotsTaken[enemy.spot] = true` for
   * each enemy in order. Because the array grows, a column past the fifth is
   * recorded as well, so the table is exact for any number of columns.
   */
  function SpotsTaken(enemies: seq<Enemy>): (table: seq<bool>)
    ensures 5 <= |table|
    ensures forall lane: nat :: JsTruthy(table, lane) <==> Occupied(enemies, lane)
    decreases |enemies|
  {
    if enemies == [] then [false, false, false, false, false]
    else
      var front, last := enemies[..|enemies| - 1], enemies[|enemies| - 1];
      assert front + [last] == enemies;
      OccupiedSnoc(front, last);
      JsStore(SpotsTaken(front), last.spot, true)
  }

  /** `Math.floor(Math.random() * enemySpots)`: the column one random draw proposes. */
  function Candidate(lanes: nat, draw: UnitReal): (c: nat)
    ensures 0 < lanes ==> c < lanes
  {
    var scaled := draw * lanes as real;
    assert 0.0 <= scaled;
    assert 0 < lanes ==> scaled < lanes as real;
    scaled.Floor
  }

  /** The rejection loop: the first proposed column the table does not mark, if any draw proposes one. */
  function FirstUntaken(taken: seq<bool>, lanes: nat, draws: seq<UnitReal>): (r: Option<nat>)
    ensures r.None? <==> forall k :: 0 <= k < |draws| ==> JsTruthy(taken, Candidate(lanes, draws[k]))
    ensures r.Some? ==>
              exists k :: 0 <= k < |draws| && r.value == Candidate(lanes, draws[k]) &&
                (forall j :: 0 <= j < k ==> JsTruthy(taken, Candidate(lanes, draws[j])))
    ensures r.Some? ==> !JsTruthy(taken, r.value)
    decreases |draws|
  {
    if draws == [] then None
    else
      var candidate := Candidate(lanes, draws[0]);
      if JsTruthy(taken, candidate) then
        var rest := FirstUntaken(taken, lanes, draws[1..]);
        assert forall k :: 1 <= k < |draws| ==> draws[k] == draws[1..][k - 1];
        rest
      else Some(candidate)
  }

  /**
   * `nextEnemySpot(enemies)` run on the random values `draws`: Some(column)
   * when the loop returns within them, None when every draw hit a taken column
   * (the loop would keep drawing). The enemy list is a value and is not changed.
   */
  function NextEnemySpot(cfg: Config, enemies: seq<Enemy>, draws: seq<UnitReal>): (r: Option<nat>)
    requires cfg.Valid()
    ensures r.Some? ==> r.value < cfg.Lanes() && !Occupied(enemies, r.value)
    ensures r.Some? ==>
              exists k :: 0 <= k < |draws| && r.value == Candidate(cfg.Lanes(), draws[k]) &&
                (forall j :: 0 <= j < k ==> Occupied(enemies, Candidate(cfg.Lanes(), draws[j])))
    ensures r.None? <==> forall k :: 0 <= k < |draws| ==> Occupied(enemies, Candidate(cfg.Lanes(), draws[k]))
  {
    FirstUntaken(SpotsTaken(enemies), cfg.Lanes(), draws)
  }

  /** The free columns below `n`, in increasing order. */
  function FreeLanes(enemies: seq<Enemy>, n: nat): (free: seq<nat>)
    ensures forall lane: nat :: lane in free <==> lane < n && !Occupied(enemies, lane)
    ensures forall i, j :: 0 <= i < j < |free| ==> free[i] < free[j]
    ensures forall i :: 0 <= i < |free| ==> free[i] < n
  {
    if n == 0 then []
    else FreeLanes(enemies, n - 1) + (if Occupied(enemies, n - 1) then [] else [n - 1])
  }

  /** Some column of the field is free, the condition under which nextEnemySpot returns. */
  predicate HasFreeLane(cfg: Config, enemies: seq<Enemy>)
    requires cfg.Valid()
  {
    exists lane :: 0 <= lane < cfg.Lanes() && !Occupied(enemies, lane)
  }

  /**
   * The column nextEnemySpot lands on, as a choice among the free columns: the
   * oracle value `choice` picks one of them, and every free column is picked by
   * some value (SpawnSpotOutcomes).
   */
  function SpawnSpot(cfg: Config, enemies: seq<Enemy>, choice: nat): (spot: nat)
    requires cfg.Valid() && HasFreeLane(cfg, enemies)
    ensures spot < cfg.Lanes() && !Occupied(enemies, spot)
  {
    var free := FreeLanes(enemies, cfg.Lanes());
    assert 0 < |free| by {
      var lane :| 0 <= lane < cfg.Lanes() && !Occupied(enemies, lane);
      assert lane in free;
    }
    free[choice % |free|]
  }

  lemma {:induction false} FreeLanesOfEmpty(n: nat)
    ensures |FreeLanes([], n)| == n
  {
    if n > 0 {
      FreeLanesOfEmpty(n - 1);
    }
  }

  /** One more enemy takes at most one column away. */
  lemma {:induction false} FreeLanesSnoc(enemies: seq<Enemy>, e: Enemy, n: nat)
    ensures |FreeLanes(enemies, n)| <= |FreeLanes(enemies + [e], n)| + if e.spot < n then 1 else 0
  {
    OccupiedSnoc(enemies, e);
    if n > 0 {
      FreeLanesSnoc(enemies, e, n - 1);
    }
  }

  /** A list of k enemies leaves at least n - k of the first n columns free. */
  lemma {:induction false} FreeLaneCount(enemies: seq<Enemy>, n: nat)
    ensures n <= |FreeLanes(enemies, n)| + |enemies|
    decreases |enemies|
  {
    if enemies == [] {
      FreeLanesOfEmpty(n);
    } else {
      var front, last := enemies[..|enemies| - 1], enemies[|enemies| - 1];
      assert front + [last] == enemies;
      FreeLaneCount(front, n);
      FreeLanesSnoc(front, last, n);
    }
  }

  /** Fewer enemies than columns leaves a column free, so nextEnemySpot can return. */
  lemma RoomMeansFreeLane(cfg: Config, enemies: seq<Enemy>)
    requires cfg.Valid() && |enemies| < cfg.Lanes()
    ensures HasFreeLane(cfg, enemies)
  {
    var free := FreeLanes(enemies, cfg.Lanes());
    FreeLaneCount(enemies, cfg.Lanes());
    assert free[0] in free;
  }

  /** The possible results of SpawnSpot are exactly the free columns of the field. */
  lemma SpawnSpotOutcomes(cfg: Config, enemies: seq<Enemy>, lane: nat)
    requires cfg.Valid() && HasFreeLane(cfg, enemies)
    ensures (exists choice: nat :: SpawnSpot(cfg, enemies, choice) == lane)
        <==> lane < cfg.Lanes() && !Occupied(enemies, lane)
  {
    if lane < cfg.Lanes() && !Occupied(enemies, lane) {
      var free := FreeLanes(enemies, cfg.Lanes());
      assert lane in free;
      var i :| 0 <= i < |free| && free[i] == lane;
      SmallRemainder(i, |free|);
      assert SpawnSpot(cfg, enemies, i) == free[i];
    }
  }

  /** A draw of lane / lanes proposes exactly that lane. */
  lemma CandidateOfLane(lanes: nat, lane: nat)
    requires lane < lanes
    ensures var draw := lane as real / lanes as real;
      0.0 <= draw < 1.0 && Candidate(lanes, draw) == lane
  {
    var draw := lane as real / lanes as real;
    assert draw * lanes as real == lane as real;
  }

  /**
   * The results nextEnemySpot can return, over all random draws, are exactly
   * the free columns of the field: its rejection loop and SpawnSpot agree.
   */
  lemma NextEnemySpotOutcomes(cfg: Config, enemies: seq<Enemy>, lane: nat)
    requires cfg.Valid()
    ensures (exists draws: seq<UnitReal> :: NextEnemySpot(cfg, enemies, draws) == Some(lane))
        <==> lane < cfg.Lanes() && !Occupied(enemies, lane)
  {
    if lane < cfg.Lanes() && !Occupied(enemies, lane) {
      CandidateOfLane(cfg.Lanes(), lane);
      var draw: UnitReal := lane as real / cfg.Lanes() as real;
      assert NextEnemySpot(cfg, enemies, [draw]) == Some(lane);
    }
  }
}
