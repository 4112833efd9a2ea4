/**
 * One falling enemy (js/Enemy.js): its column, position, size, speed and the
 * one-way `destroyed` flag. The DOM image it drags along is not modelled.
 */
module Enemies {

  import opened GameConfig

  /** A value returned by Math.random(): a real in [0, 1). */
  type UnitReal = r: real | 0.0 <= r < 1.0

  datatype Enemy = Enemy(
    spot: nat,
    x: int,
    y: real,
    w: int,
    h: int,
    speed: real,
    destroyed: bool)

  /** `Math.random() / 2 + 0.25`: the speed drawn once at construction. */
  function SpeedOf(draw: UnitReal): (speed: real)
    ensures 0.25 <= speed < 0.75
  {
    draw / 2.0 + 0.25
  }

  /** A new enemy in column `spot`, just above the field, with the speed `draw` gives it. */
  function NewEnemy(cfg: Config, spot: nat, draw: UnitReal): (e: Enemy)
    ensures e.spot == spot && e.x == spot * cfg.enemyWidth
    ensures e.y == -(cfg.enemyHeight as real) && !e.destroyed
    ensures e.w == cfg.enemyWidth && e.h == cfg.enemyHeight
    ensures 0.25 <= e.speed < 0.75
  {
    Enemy(spot, spot * cfg.enemyWidth, -(cfg.enemyHeight as real),
          cfg.enemyWidth, cfg.enemyHeight, SpeedOf(draw), false)
  }

  /** `removeEnemy`: marks the enemy destroyed and changes nothing else. */
  function RemoveEnemy(e: Enemy): (r: Enemy)
    ensures r.destroyed
    ensures r.(destroyed := e.destroyed) == e
  {
    e.(destroyed := true)
  }

  /**
   * `update(timeDiff)`: the enemy falls by `timeDiff * speed` and is destroyed
   * once it is below the bottom of the field.
   */
  function Update(cfg: Config, e: Enemy, timeDiff: int): (r: Enemy)
    ensures r.y == e.y + timeDiff as real * e.speed
    ensures r.destroyed <==> e.destroyed || r.y > cfg.gameHeight as real
    ensures r.(y := e.y, destroyed := e.destroyed) == e
  {
    var moved := e.(y := e.y + timeDiff as real * e.speed);
    if moved.y > cfg.gameHeight as real then RemoveEnemy(moved) else moved
  }

  /** The enemy after one update per tick, with the given elapsed times. */
  function UpdateAll(cfg: Config, e: Enemy, timeDiffs: seq<nat>): Enemy
    decreases |timeDiffs|
  {
    if timeDiffs == [] then e
    else UpdateAll(cfg, Update(cfg, e, timeDiffs[0]), timeDiffs[1..])
  }

  /**
   * Over any run of updates with non-negative elapsed times an enemy only
   * falls, keeps its column, size and speed, never becomes undestroyed, and is
   * destroyed exactly when it was already or has passed the bottom.
   */
  lemma {:induction false} FallIsMonotone(cfg: Config, e: Enemy, timeDiffs: seq<nat>)
    requires 0.0 <= e.speed
    ensures var r := UpdateAll(cfg, e, timeDiffs);
      && e.y <= r.y
      && r.spot == e.spot && r.x == e.x && r.w == e.w && r.h == e.h && r.speed == e.speed
      && (e.destroyed ==> r.destroyed)
      && (timeDiffs != [] ==> (r.destroyed <==> e.destroyed || r.y > cfg.gameHeight as real))
    decreases |timeDiffs|
  {
    if timeDiffs != [] {
      var first := Update(cfg, e, timeDiffs[0]);
      assert e.y <= first.y by {
        assert 0.0 <= timeDiffs[0] as real * e.speed;
      }
      FallIsMonotone(cfg, first, timeDiffs[1..]);
    }
  }

  /** What every enemy in the engine's list satisfies: in a column, sized, active, on the field. */
  predicate EnemyOk(cfg: Config, e: Enemy)
    requires cfg.Valid()
  {
    && e.spot < cfg.Lanes()
    && e.x == e.spot * cfg.enemyWidth
    && e.w == cfg.enemyWidth && e.h == cfg.enemyHeight
    && 0.25 <= e.speed < 0.75
    && !e.destroyed
    && -(cfg.enemyHeight as real) <= e.y <= cfg.gameHeight as real
  }

  /** A freshly built enemy in a real column is a well-formed member of the list. */
  lemma NewEnemyOk(cfg: Config, spot: nat, draw: UnitReal)
    requires cfg.Valid() && spot < cfg.Lanes()
    ensures EnemyOk(cfg, NewEnemy(cfg, spot, draw))
  {
  }

  /** An update with a non-negative time keeps a well-formed enemy well-formed unless it destroys it. */
  lemma UpdateKeepsOk(cfg: Config, e: Enemy, timeDiff: nat)
    requires cfg.Valid() && EnemyOk(cfg, e)
    ensures var r := Update(cfg, e, timeDiff);
      !r.destroyed ==> EnemyOk(cfg, r)
  {
    assert 0.0 <= timeDiff as real * e.speed;
  }
}
