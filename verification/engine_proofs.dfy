/**
 * Properties of the engine: the collision test against a geometric reference,
 * the filter and refill steps, the session invariant every event preserves
 * (distinct columns, full capacity after a tick, clamped player, lives never
 * rising, listeners matching the phase), and which inputs are live in which
 * phase.
 */
module EngineProofs {

  import opened GameConfig
  import opened Enemies
  import opened Players
  import opened EngineUtilities
  import opened GameEngine

  // ---------------------------------------------------------------------------
  // Collision

  /** (px, py) lies strictly inside the player's box. */
  predicate InsidePlayer(p: Player, px: real, py: real) {
    && (p.x as real) < px < (p.x + p.w) as real
    && (p.y as real) < py < (p.y + p.h) as real
  }

  /** (px, py) lies strictly inside the enemy's box. */
  predicate InsideEnemy(e: Enemy, px: real, py: real) {
    && (e.x as real) < px < (e.x + e.w) as real
    && e.y < py < e.y + e.h as real
  }

  function Max(a: real, b: real): real { if a < b then b else a }
  function Min(a: real, b: real): real { if a < b then a else b }

  /**
   * For boxes of positive size, the strict test holds exactly when the open
   * boxes share a point; boxes that only touch along an edge do not collide.
   */
  lemma CollidesIffInteriorsMeet(p: Player, e: Enemy)
    requires 0 < p.w && 0 < p.h && 0 < e.w && 0 < e.h
    ensures Collides(p, e) <==> exists px: real, py: real :: InsidePlayer(p, px, py) && InsideEnemy(e, px, py)
  {
    if Collides(p, e) {
      var px := (Max(p.x as real, e.x as real) + Min((p.x + p.w) as real, (e.x + e.w) as real)) / 2.0;
      var py := (Max(p.y as real, e.y) + Min((p.y + p.h) as real, e.y + e.h as real)) / 2.0;
      assert InsidePlayer(p, px, py) && InsideEnemy(e, px, py);
    }
  }

  /** Boxes that meet only along an edge do not collide. */
  lemma TouchingEdgesDoNotCollide(p: Player, e: Enemy)
    requires || p.x + p.w == e.x || e.x + e.w == p.x
             || (p.y + p.h) as real == e.y || e.y + e.h as real == p.y as real
    ensures !Collides(p, e)
  {
  }

  // ---------------------------------------------------------------------------
  // Filter

  /** Filtering distributes over concatenation, so it keeps the original order. */
  lemma {:induction false} RemoveDestroyedAppend(a: seq<Enemy>, b: seq<Enemy>)
    ensures RemoveDestroyed(a + b) == RemoveDestroyed(a) + RemoveDestroyed(b)
    decreases |a|
  {
    if a != [] {
      assert (a + b)[0] == a[0];
      assert (a + b)[1..] == a[1..] + b;
      RemoveDestroyedAppend(a[1..], b);
    } else {
      assert a + b == b;
    }
  }

  /** A list with no destroyed enemy passes the filter unchanged. */
  lemma {:induction false} RemoveDestroyedOfActive(enemies: seq<Enemy>)
    requires forall i :: 0 <= i < |enemies| ==> !enemies[i].destroyed
    ensures RemoveDestroyed(enemies) == enemies
    decreases |enemies|
  {
    if enemies != [] {
      RemoveDestroyedOfActive(enemies[1..]);
    }
  }

  /** A destroyed enemy on its own is filtered out. */
  lemma RemoveDestroyedOfDestroyed(e: Enemy)
    requires e.destroyed
    ensures RemoveDestroyed([e]) == []
  {
  }

  /** The filter keeps every non-destroyed enemy as many times as it occurs, and no destroyed one. */
  lemma {:induction false} RemoveDestroyedCounts(enemies: seq<Enemy>)
    ensures forall e :: multiset(RemoveDestroyed(enemies))[e] == if e.destroyed then 0 else multiset(enemies)[e]
    decreases |enemies|
  {
    if enemies != [] {
      RemoveDestroyedCounts(enemies[1..]);
      assert enemies == [enemies[0]] + enemies[1..];
      assert multiset(enemies) == multiset{enemies[0]} + multiset(enemies[1..]);
    }
  }

  lemma {:induction false} RemoveDestroyedKeepsDistinct(enemies: seq<Enemy>)
    requires DistinctSpots(enemies)
    ensures DistinctSpots(RemoveDestroyed(enemies))
    decreases |enemies|
  {
    if enemies != [] {
      var rest := RemoveDestroyed(enemies[1..]);
      RemoveDestroyedKeepsDistinct(enemies[1..]);
      if !enemies[0].destroyed {
        var kept := [enemies[0]] + rest;
        forall i, j | 0 <= i < j < |kept|
          ensures kept[i].spot != kept[j].spot
        {
          if i == 0 {
            assert kept[j] in enemies[1..];
            var k :| 0 <= k < |enemies[1..]| && enemies[1..][k] == kept[j];
            assert enemies[k + 1] == kept[j];
          } else {
            assert kept[i] == rest[i - 1] && kept[j] == rest[j - 1];
          }
        }
      }
    }
  }

  // ---------------------------------------------------------------------------
  // The enemy list

  /** What the engine keeps true of its enemy list. */
  predicate EnemiesOk(cfg: Config, enemies: seq<Enemy>)
    requires cfg.Valid()
  {
    && |enemies| <= cfg.maxEnemies
    && DistinctSpots(enemies)
    && (forall i :: 0 <= i < |enemies| ==> EnemyOk(cfg, enemies[i]))
  }

  /** Advancing with a non-negative time and filtering keeps the list well-formed and never lengthens it. */
  lemma SurvivorsOk(cfg: Config, enemies: seq<Enemy>, timeDiff: nat)
    requires cfg.Valid() && EnemiesOk(cfg, enemies)
    ensures var survivors := Survivors(cfg, enemies, timeDiff);
      EnemiesOk(cfg, survivors) && |survivors| <= |enemies|
  {
    var advanced := AdvanceAll(cfg, enemies, timeDiff);
    var survivors := RemoveDestroyed(advanced);
    assert DistinctSpots(advanced) by {
      forall i, j | 0 <= i < j < |advanced|
        ensures advanced[i].spot != advanced[j].spot
      {
        assert advanced[i].spot == enemies[i].spot && advanced[j].spot == enemies[j].spot;
      }
    }
    RemoveDestroyedKeepsDistinct(advanced);
    forall i | 0 <= i < |survivors|
      ensures EnemyOk(cfg, survivors[i])
    {
      assert survivors[i] in advanced;
      var k :| 0 <= k < |advanced| && advanced[k] == survivors[i];
      UpdateKeepsOk(cfg, enemies[k], timeDiff);
    }
  }

  /** The refill only adds well-formed enemies, in columns not yet taken, so columns stay distinct. */
  lemma RefillOk(cfg: Config, before: seq<Enemy>, after: seq<Enemy>, rng: Rng, drawn: nat)
    requires cfg.Valid()
    requires |before| <= |after| <= cfg.maxEnemies && after[..|before|] == before
    requires DistinctSpots(before) && (forall i :: 0 <= i < |before| ==> EnemyOk(cfg, before[i]))
    requires FreshTail(cfg, before, after, rng, drawn)
    ensures EnemiesOk(cfg, after)
  {
    forall i | 0 <= i < |after|
      ensures EnemyOk(cfg, after[i])
    {
      if i < |before| {
        assert after[i] == after[..|before|][i];
      } else {
        assert SpawnedFresh(cfg, after[..i], after[i], rng(drawn + (i - |before|)));
        NewEnemyOk(cfg, after[i].spot, rng(drawn + (i - |before|)).speedDraw);
      }
    }
    forall i, j | 0 <= i < j < |after|
      ensures after[i].spot != after[j].spot
    {
      if j < |before| {
        assert after[i] == before[i] && after[j] == before[j];
      } else {
        assert SpawnedFresh(cfg, after[..j], after[j], rng(drawn + (j - |before|)));
        assert after[..j][i] == after[i];
      }
    }
  }

  // ---------------------------------------------------------------------------
  // The session invariant

  /** What holds of the engine between events. */
  predicate Inv(cfg: Config, g: Engine)
    requires cfg.Valid()
  {
    && g.listeners == ListenersOf(g.Phase())
    && (g.loopPending <==> g.Phase() == Running)
    && 0 <= g.lives <= InitialLives
    && (g.lives == 0 <==> g.Phase() == Ended)
    && OnGrid(cfg, g.player)
    && EnemiesOk(cfg, g.enemies)
    && (g.Phase() == NotStarted ==> g.enemies == [] && g.score == -cfg.maxEnemies && g.lives == InitialLives)
    && (g.Phase() != NotStarted ==> |g.enemies| == cfg.maxEnemies && 0 <= g.score)
  }

  /** What holds when gameLoop runs: from the timeout, or right after a start or a restart. */
  predicate TickReady(cfg: Config, g: Engine)
    requires cfg.Valid()
  {
    && g.listeners == ListenersOf(Running)
    && 0 < g.lives <= InitialLives
    && OnGrid(cfg, g.player)
    && EnemiesOk(cfg, g.enemies)
    && 0 <= g.score + cfg.maxEnemies - |g.enemies|
  }

  /** The engine as constructed satisfies the invariant. */
  lemma InitialInv(cfg: Config)
    requires cfg.Valid()
    ensures Inv(cfg, NewEngine(cfg))
  {
    NewPlayerOnGrid(cfg);
  }

  /**
   * One tick from a running engine: on a collision exactly one life is lost
   * and no further tick is scheduled, the phase becoming Ended at 0 lives and
   * GameOver otherwise; without one, lives stay and the engine keeps running.
   */
  lemma TickOutcome(cfg: Config, g: Engine, timeDiff: nat, rng: Rng)
    requires cfg.Valid() && g.listeners == ListenersOf(Running)
    ensures var r := GameLoop(cfg, g, timeDiff, rng);
      && (IsPlayerDead(g.player, r.enemies) ==>
            && r.lives == g.lives - 1 && !r.loopPending
            && r.Phase() == (if g.lives == 1 then Ended else GameOver)
            && r.listeners == ListenersOf(r.Phase()))
      && (!IsPlayerDead(g.player, r.enemies) ==>
            r.lives == g.lives && r.loopPending && r.Phase() == Running)
  {
  }

  /** A tick keeps every part of the invariant, whatever the elapsed time and draws. */
  lemma TickKeepsInv(cfg: Config, g: Engine, timeDiff: nat, rng: Rng)
    requires cfg.Valid() && TickReady(cfg, g)
    ensures Inv(cfg, GameLoop(cfg, g, timeDiff, rng))
  {
    var survivors := Survivors(cfg, g.enemies, timeDiff);
    SurvivorsOk(cfg, g.enemies, timeDiff);
    var refilled := AdvanceAndRefill(cfg, g, timeDiff, rng);
    RefillOk(cfg, survivors, refilled.enemies, rng, 0);
    TickOutcome(cfg, g, timeDiff, rng);
    assert GameLoop(cfg, g, timeDiff, rng) == CheckCollision(refilled);
  }

  /** Every event keeps the invariant. */
  lemma StepKeepsInv(cfg: Config, g: Engine, ev: Event)
    requires cfg.Valid() && Inv(cfg, g)
    ensures Inv(cfg, Step(cfg, g, ev))
  {
    match ev
    case ArrowLeft =>
      MoveKeepsOnGrid(cfg, g.player, Left);
    case ArrowRight =>
      MoveKeepsOnGrid(cfg, g.player, Right);
    case EnterKey(timeDiff, rng) =>
      if g.listeners.startKey {
        TickKeepsInv(cfg, g.(listeners := g.listeners.(startKey := false)), timeDiff, rng);
      } else if g.listeners.restartKey {
        MoveKeepsOnGrid(cfg, g.player, Reset);
        TickKeepsInv(cfg, ResetSession(cfg, g), timeDiff, rng);
      }
    case Timeout(timeDiff, rng) =>
      if g.loopPending {
        TickKeepsInv(cfg, g, timeDiff, rng);
      }
  }

  /**
   * Every sequence of events from a state satisfying the invariant keeps it:
   * in particular no two enemies ever share a column, a started session always
   * holds exactly MAX_ENEMIES enemies, and the player stays clamped on the grid.
   */
  lemma {:induction false} RunKeepsInv(cfg: Config, g: Engine, evs: seq<Event>)
    requires cfg.Valid() && Inv(cfg, g)
    ensures Inv(cfg, Run(cfg, g, evs))
    decreases |evs|
  {
    if evs != [] {
      StepKeepsInv(cfg, g, evs[0]);
      RunKeepsInv(cfg, Step(cfg, g, evs[0]), evs[1..]);
    }
  }

  /** Nothing ever adds a life: along any sequence of events the count only falls, one at a time. */
  lemma {:induction false} RunNeverRaisesLives(cfg: Config, g: Engine, evs: seq<Event>)
    requires cfg.Valid()
    ensures g.lives - |evs| <= Run(cfg, g, evs).lives <= g.lives
    decreases |evs|
  {
    if evs != [] {
      RunNeverRaisesLives(cfg, Step(cfg, g, evs[0]), evs[1..]);
    }
  }

  // ---------------------------------------------------------------------------
  // Elapsed time

  /**
   * A tick on an empty list does not depend on the elapsed time. Restart runs
   * such a tick without resetting the frame clock, so the stale elapsed time
   * it sees has no effect.
   */
  lemma RestartIgnoresElapsedTime(cfg: Config, g: Engine, t1: nat, t2: nat, rng: Rng)
    requires cfg.Valid()
    ensures RestartClick(cfg, g, t1, rng) == RestartClick(cfg, g, t2, rng)
  {
    var reset := ResetSession(cfg, g);
    assert Survivors(cfg, reset.enemies, t1) == [] == Survivors(cfg, reset.enemies, t2);
  }

  // ---------------------------------------------------------------------------
  // Which inputs are live

  /** Arrow keys move the player before the start and while running, and do nothing at game over or the end. */
  lemma MovementLiveness(cfg: Config, g: Engine)
    requires cfg.Valid() && g.listeners == ListenersOf(g.Phase())
    ensures g.Phase() in {NotStarted, Running} ==>
      && Step(cfg, g, ArrowLeft) == g.(player := MoveLeft(cfg, g.player))
      && Step(cfg, g, ArrowRight) == g.(player := MoveRight(cfg, g.player))
    ensures g.Phase() in {GameOver, Ended} ==>
      Step(cfg, g, ArrowLeft) == g && Step(cfg, g, ArrowRight) == g
  {
  }

  /** Enter starts the game only before the start, restarts it only at game over, and is ignored otherwise. */
  lemma EnterLiveness(cfg: Config, g: Engine, timeDiff: nat, rng: Rng)
    requires cfg.Valid() && g.listeners == ListenersOf(g.Phase())
    ensures g.Phase() == NotStarted ==> Step(cfg, g, EnterKey(timeDiff, rng)) == StartClick(cfg, g, timeDiff, rng)
    ensures g.Phase() == GameOver ==> Step(cfg, g, EnterKey(timeDiff, rng)) == RestartClick(cfg, g, timeDiff, rng)
    ensures g.Phase() in {Running, Ended} ==> Step(cfg, g, EnterKey(timeDiff, rng)) == g
  {
  }

  /** Once ended, no event changes anything. */
  lemma EndedIsTerminal(cfg: Config, g: Engine, ev: Event)
    requires cfg.Valid() && Inv(cfg, g) && g.Phase() == Ended
    ensures Step(cfg, g, ev) == g
  {
  }

  // ---------------------------------------------------------------------------
  // Phase order

  /**
   * One event never takes a started session back to NotStarted, and a
   * running game only continues, ends its round or ends for good.
   */
  lemma PhasesMoveForward(cfg: Config, g: Engine, ev: Event)
    requires cfg.Valid() && Inv(cfg, g)
    ensures var p, q := g.Phase(), Step(cfg, g, ev).Phase();
      && (p != NotStarted ==> q != NotStarted)
      && (p == Running ==> q in {Running, GameOver, Ended})
      && (p == Ended ==> q == Ended)
  {
  }

  /** Along any run, a started session never returns to NotStarted and an ended one stays Ended. */
  lemma {:induction false} RunPhasesMoveForward(cfg: Config, g: Engine, evs: seq<Event>)
    requires cfg.Valid() && Inv(cfg, g)
    ensures var p, q := g.Phase(), Run(cfg, g, evs).Phase();
      && (p != NotStarted ==> q != NotStarted)
      && (p == Ended ==> q == Ended)
    decreases |evs|
  {
    if evs != [] {
      PhasesMoveForward(cfg, g, evs[0]);
      StepKeepsInv(cfg, g, evs[0]);
      RunPhasesMoveForward(cfg, Step(cfg, g, evs[0]), evs[1..]);
    }
  }
}
