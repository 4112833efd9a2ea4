/**
 * The game engine (js/Engine.js): the enemy list, lives, score, the player,
 * which window listeners are registered, and whether a gameLoop timeout is
 * pending. The session phase is read off the registered listeners. Timers,
 * the clock and Math.random() enter as the inputs of each event.
 */
module GameEngine {

  import opened GameConfig
  import opened Enemies
  import opened Players
  import opened EngineUtilities

  datatype Phase = NotStarted | Running | GameOver | Ended

  /**
   * The engine's window listeners: `startKey` and `restartKey` on keypress,
   * `keydownHandler` (movement) on keydown. Adding a registered listener or
   * removing an absent one changes nothing, so each is a flag.
   */
  datatype Listeners = Listeners(startKey: bool, restartKey: bool, keydown: bool)

  /** The phase a set of registered listeners stands for. */
  function PhaseOf(l: Listeners): Phase {
    if l.startKey then NotStarted
    else if l.restartKey then GameOver
    else if l.keydown then Running
    else Ended
  }

  /**
   * The listeners registered in each phase: movement is live before the start
   * and while running, restart by Enter only at game over, nothing once ended.
   */
  function ListenersOf(phase: Phase): (l: Listeners)
    ensures PhaseOf(l) == phase
    ensures l.keydown <==> phase == NotStarted || phase == Running
    ensures l.restartKey <==> phase == GameOver
    ensures l.startKey <==> phase == NotStarted
  {
    match phase
    case NotStarted => Listeners(true, false, true)
    case Running => Listeners(false, false, true)
    case GameOver => Listeners(false, true, false)
    case Ended => Listeners(false, false, false)
  }

  /** The randomness one spawn consumes: which free column is taken, and the draw behind the speed. */
  datatype Draw = Draw(choice: nat, speedDraw: UnitReal)

  /** The k-th spawn of a tick uses the k-th draw. */
  type Rng = nat -> Draw

  datatype Engine = Engine(
    player: Player,
    enemies: seq<Enemy>,
    lives: int,
    score: int,
    listeners: Listeners,
    loopPending: bool)
  {
    function Phase(): Phase {
      PhaseOf(listeners)
    }
  }

  const InitialLives: int := 9

  /** The engine as constructed: nine lives, score -MAX_ENEMIES, no enemies, waiting for a start. */
  function NewEngine(cfg: Config): (g: Engine)
    ensures g.lives == 9 && g.score == -cfg.maxEnemies && g.enemies == []
    ensures g.player == NewPlayer(cfg)
    ensures g.Phase() == NotStarted && g.listeners.keydown && !g.loopPending
  {
    Engine(NewPlayer(cfg), [], InitialLives, 0 - cfg.maxEnemies, Listeners(true, false, true), false)
  }

  /** Every enemy updated with the same elapsed time, in place and in order. */
  function AdvanceAll(cfg: Config, enemies: seq<Enemy>, timeDiff: int): (r: seq<Enemy>)
    ensures |r| == |enemies|
    ensures forall i :: 0 <= i < |r| ==> r[i] == Update(cfg, enemies[i], timeDiff)
  {
    seq(|enemies|, i requires 0 <= i < |enemies| => Update(cfg, enemies[i], timeDiff))
  }

  /** `xs` is `ys` with some elements dropped, the rest in their original order. */
  predicate IsSubsequence<T(==)>(xs: seq<T>, ys: seq<T>)
    decreases |ys|
  {
    if xs == [] then true
    else if ys == [] then false
    else if xs[0] == ys[0] then IsSubsequence(xs[1..], ys[1..])
    else IsSubsequence(xs, ys[1..])
  }

  /** `enemies.filter(e => !e.destroyed)`. */
  function RemoveDestroyed(enemies: seq<Enemy>): (kept: seq<Enemy>)
    ensures forall e :: e in kept <==> e in enemies && !e.destroyed
    ensures IsSubsequence(kept, enemies)
    ensures |kept| <= |enemies|
  {
    if enemies == [] then []
    else
      var rest := RemoveDestroyed(enemies[1..]);
      assert forall e :: e in enemies <==> e == enemies[0] || e in enemies[1..];
      if enemies[0].destroyed then
        assert rest != [] ==> rest[0] in rest && rest[0] != enemies[0];
        rest
      else
        assert ([enemies[0]] + rest)[1..] == rest;
        [enemies[0]] + rest
  }

  /** The enemies left after the advance and filter steps of a tick. */
  function Survivors(cfg: Config, enemies: seq<Enemy>, timeDiff: int): seq<Enemy> {
    RemoveDestroyed(AdvanceAll(cfg, enemies, timeDiff))
  }

  /**
   * `e` is a fresh enemy, built from draw `d`, in a column of the field that
   * none of the `earlier` enemies occupies.
   */
  predicate SpawnedFresh(cfg: Config, earlier: seq<Enemy>, e: Enemy, d: Draw)
    requires cfg.Valid()
  {
    && e.spot < cfg.Lanes()
    && !Occupied(earlier, e.spot)
    && e == NewEnemy(cfg, e.spot, d.speedDraw)
  }

  /** Every enemy of `after` past the prefix `before` was spawned fresh, using the draws from `drawn` on. */
  predicate FreshTail(cfg: Config, before: seq<Enemy>, after: seq<Enemy>, rng: Rng, drawn: nat)
    requires cfg.Valid()
  {
    forall i :: |before| <= i < |after| ==> SpawnedFresh(cfg, after[..i], after[i], rng(drawn + (i - |before|)))
  }

  lemma FreshTailCons(cfg: Config, before: seq<Enemy>, e: Enemy, after: seq<Enemy>, rng: Rng, drawn: nat)
    requires cfg.Valid()
    requires |before| < |after| && after[..|before| + 1] == before + [e]
    requires SpawnedFresh(cfg, before, e, rng(drawn))
    requires FreshTail(cfg, before + [e], after, rng, drawn + 1)
    ensures FreshTail(cfg, before, after, rng, drawn)
  {
    forall i | |before| <= i < |after|
      ensures SpawnedFresh(cfg, after[..i], after[i], rng(drawn + (i - |before|)))
    {
      if i == |before| {
        assert after[..i] == (before + [e])[..i] == before;
        assert after[i] == (before + [e])[i] == e;
      } else {
        assert drawn + 1 + (i - |before + [e]|) == drawn + (i - |before|);
      }
    }
  }

  /**
   * The refill loop: while there are fewer than MAX_ENEMIES enemies, spawn one
   * in a free column and add one to the score. `drawn` counts the draws of
   * this tick already used.
   */
  function Refill(cfg: Config, enemies: seq<Enemy>, score: int, rng: Rng, drawn: nat): (r: (seq<Enemy>, int))
    requires cfg.Valid()
    ensures |r.0| == if |enemies| < cfg.maxEnemies then cfg.maxEnemies else |enemies|
    ensures r.0[..|enemies|] == enemies
    ensures r.1 == score + (|r.0| - |enemies|)
    ensures FreshTail(cfg, enemies, r.0, rng, drawn)
    decreases cfg.maxEnemies - |enemies|
  {
    if cfg.maxEnemies <= |enemies| then (enemies, score)
    else
      RoomMeansFreeLane(cfg, enemies);
      var draw := rng(drawn);
      var spawned := NewEnemy(cfg, SpawnSpot(cfg, enemies, draw.choice), draw.speedDraw);
      var r := Refill(cfg, enemies + [spawned], score + 1, rng, drawn + 1);
      assert r.0[..|enemies| + 1] == enemies + [spawned];
      assert r.0[..|enemies|] == (enemies + [spawned])[..|enemies|] == enemies;
      FreshTailCons(cfg, enemies, spawned, r.0, rng, drawn);
      r
  }

  /** The strict bounding-box test of isPlayerDead: the boxes overlap on both axes. */
  predicate Collides(p: Player, e: Enemy) {
    && (p.x as real) < (e.x + e.w) as real
    && ((p.x + p.w) as real) > e.x as real
    && (p.y as real) < e.y + e.h as real
    && ((p.h + p.y) as real) > e.y
  }

  /** `isPlayerDead`: `enemies.some(...)` over the collision test. */
  function IsPlayerDead(p: Player, enemies: seq<Enemy>): (dead: bool)
    ensures dead <==> exists i :: 0 <= i < |enemies| && Collides(p, enemies[i])
  {
    if enemies == [] then false
    else if Collides(p, enemies[0]) then true
    else
      var rest := IsPlayerDead(p, enemies[1..]);
      assert forall i :: 1 <= i < |enemies| ==> enemies[i] == enemies[1..][i - 1];
      rest
  }

  /** The listener side of `displayGameOver`: Enter now restarts, movement is switched off. */
  function DisplayGameOver(g: Engine): (r: Engine)
    ensures r.listeners.restartKey && !r.listeners.keydown
    ensures r.listeners.startKey == g.listeners.startKey
    ensures r.(listeners := g.listeners) == g
  {
    g.(listeners := g.listeners.(restartKey := true).(keydown := false))
  }

  /** The listener side of `endGame`: movement and restart are both switched off. */
  function EndGame(g: Engine): (r: Engine)
    ensures !r.listeners.restartKey && !r.listeners.keydown
    ensures r.listeners.startKey == g.listeners.startKey
    ensures r.(listeners := g.listeners) == g
  {
    g.(listeners := g.listeners.(keydown := false).(restartKey := false))
  }

  /**
   * The first three steps of `gameLoop`: advance every enemy, drop the
   * destroyed ones, refill to MAX_ENEMIES with one point per enemy added.
   */
  function AdvanceAndRefill(cfg: Config, g: Engine, timeDiff: nat, rng: Rng): (r: Engine)
    requires cfg.Valid()
    ensures r == g.(enemies := r.enemies, score := r.score)
    ensures var survivors := Survivors(cfg, g.enemies, timeDiff);
      && |r.enemies| == (if |survivors| < cfg.maxEnemies then cfg.maxEnemies else |survivors|)
      && r.enemies[..|survivors|] == survivors
      && r.score == g.score + (|r.enemies| - |survivors|)
      && FreshTail(cfg, survivors, r.enemies, rng, 0)
  {
    var refilled := Refill(cfg, Survivors(cfg, g.enemies, timeDiff), g.score, rng, 0);
    g.(enemies := refilled.0, score := refilled.1)
  }

  /**
   * The last step of `gameLoop`: on a collision lose a life and stop, at game
   * over or, with no lives left, at the end; otherwise schedule the next tick.
   */
  function CheckCollision(g: Engine): (r: Engine)
    ensures r.player == g.player && r.enemies == g.enemies && r.score == g.score
    ensures IsPlayerDead(g.player, g.enemies) ==>
      && r.lives == g.lives - 1
      && !r.loopPending
      && !r.listeners.keydown
      && (r.listeners.restartKey <==> r.lives != 0)
      && r.listeners.startKey == g.listeners.startKey
    ensures !IsPlayerDead(g.player, g.enemies) ==>
      r.lives == g.lives && r.loopPending && r.listeners == g.listeners
  {
    if IsPlayerDead(g.player, g.enemies) then
      var hit := g.(lives := g.lives - 1, loopPending := false);
      if hit.lives == 0 then EndGame(hit) else DisplayGameOver(hit)
    else
      g.(loopPending := true)
  }

  /** One run of `gameLoop`. */
  function GameLoop(cfg: Config, g: Engine, timeDiff: nat, rng: Rng): (r: Engine)
    requires cfg.Valid()
    ensures r.player == g.player
    ensures var survivors := Survivors(cfg, g.enemies, timeDiff);
      && |r.enemies| == (if |survivors| < cfg.maxEnemies then cfg.maxEnemies else |survivors|)
      && r.enemies[..|survivors|] == survivors
      && r.score == g.score + (|r.enemies| - |survivors|)
    ensures |g.enemies| <= cfg.maxEnemies ==> |r.enemies| == cfg.maxEnemies
    ensures g.score <= r.score
    ensures IsPlayerDead(g.player, r.enemies) ==>
      && r.lives == g.lives - 1
      && !r.loopPending
      && !r.listeners.keydown
      && (r.listeners.restartKey <==> r.lives != 0)
      && r.listeners.startKey == g.listeners.startKey
    ensures !IsPlayerDead(g.player, r.enemies) ==>
      r.lives == g.lives && r.loopPending && r.listeners == g.listeners
  {
    var refilled := AdvanceAndRefill(cfg, g, timeDiff, rng);
    assert |Survivors(cfg, g.enemies, timeDiff)| <= |g.enemies|;
    CheckCollision(refilled)
  }

  /** `startClick` (by Enter): stop listening for the start key and run the first tick. */
  function StartClick(cfg: Config, g: Engine, timeDiff: nat, rng: Rng): (r: Engine)
    requires cfg.Valid()
    ensures !r.listeners.startKey
    ensures g.lives - 1 <= r.lives <= g.lives
    ensures g.enemies == [] && g.score == -cfg.maxEnemies ==>
      r.score == 0 && |r.enemies| == cfg.maxEnemies
  {
    GameLoop(cfg, g.(listeners := g.listeners.(startKey := false)), timeDiff, rng)
  }

  /**
   * The reset half of `restartClick`: player back to the start, enemies
   * removed, score back to -MAX_ENEMIES, restart key off and movement on again.
   * Lives are left as they are.
   */
  function ResetSession(cfg: Config, g: Engine): (r: Engine)
    ensures r.lives == g.lives && r.enemies == [] && r.score == -cfg.maxEnemies
    ensures r.player == ResetPlayer(cfg, g.player)
    ensures !r.listeners.restartKey && r.listeners.keydown
    ensures r.listeners.startKey == g.listeners.startKey && r.loopPending == g.loopPending
  {
    g.(player := ResetPlayer(cfg, g.player),
       enemies := [],
       score := 0 - cfg.maxEnemies,
       listeners := g.listeners.(restartKey := false).(keydown := true))
  }

  /** `restartClick` (by Enter): reset the session and run a tick straight away. */
  function RestartClick(cfg: Config, g: Engine, timeDiff: nat, rng: Rng): (r: Engine)
    requires cfg.Valid()
    ensures r.player == ResetPlayer(cfg, g.player)
    ensures r.score == 0 && |r.enemies| == cfg.maxEnemies
    ensures g.lives - 1 <= r.lives <= g.lives
    ensures r.listeners.startKey == g.listeners.startKey
  {
    GameLoop(cfg, ResetSession(cfg, g), timeDiff, rng)
  }

  /**
   * What reaches the engine: the arrow keys, Enter (whose start or restart
   * runs a tick, hence its elapsed time and draws), and the gameLoop timeout.
   */
  datatype Event =
    | ArrowLeft
    | ArrowRight
    | EnterKey(timeDiff: nat, rng: Rng)
    | Timeout(timeDiff: nat, rng: Rng)

  /** The engine's response to one event, through whichever listeners are registered. */
  function Step(cfg: Config, g: Engine, ev: Event): (r: Engine)
    requires cfg.Valid()
    ensures g.lives - 1 <= r.lives <= g.lives
  {
    match ev
    case ArrowLeft =>
      if g.listeners.keydown then g.(player := MoveLeft(cfg, g.player)) else g
    case ArrowRight =>
      if g.listeners.keydown then g.(player := MoveRight(cfg, g.player)) else g
    case EnterKey(timeDiff, rng) =>
      if g.listeners.startKey then StartClick(cfg, g, timeDiff, rng)
      else if g.listeners.restartKey then RestartClick(cfg, g, timeDiff, rng)
      else g
    case Timeout(timeDiff, rng) =>
      if g.loopPending then GameLoop(cfg, g, timeDiff, rng) else g
  }

  /** The engine after a sequence of events. */
  function Run(cfg: Config, g: Engine, evs: seq<Event>): Engine
    requires cfg.Valid()
    decreases |evs|
  {
    if evs == [] then g else Run(cfg, Step(cfg, g, evs[0]), evs[1..])
  }
}
