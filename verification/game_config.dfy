/**
 * The field constants of the game: GAME_WIDTH, GAME_HEIGHT, ENEMY_WIDTH,
 * ENEMY_HEIGHT, PLAYER_WIDTH, PLAYER_HEIGHT and MAX_ENEMIES. The engine reads
 * them as globals defined outside the core; here they are one immutable record
 * handed to every operation, together with the layout they are assumed to obey.
 */
module GameConfig {

  datatype Config = Config(
    gameWidth: int,
    gameHeight: int,
    enemyWidth: int,
    enemyHeight: int,
    playerWidth: int,
    playerHeight: int,
    maxEnemies: int)
  {
    /**
     * The layout the game is drawn for: positive sizes, a field width that is
     * a whole number of enemy columns and of player steps, room for the player
     * to start at column 2, and no more enemies than there are columns.
     */
    predicate Valid() {
      && 0 < gameHeight
      && 0 < enemyWidth && 0 < enemyHeight
      && 0 < playerWidth && 0 < playerHeight
      && gameWidth % enemyWidth == 0
      && gameWidth % playerWidth == 0
      && 0 <= maxEnemies <= gameWidth / enemyWidth
      && 3 * playerWidth <= gameWidth
    }

    /** The number of enemy columns, GAME_WIDTH / ENEMY_WIDTH (a whole number under Valid). */
    function Lanes(): (n: nat)
      requires Valid()
      ensures n * enemyWidth == gameWidth
      ensures 0 < n && maxEnemies <= n
    {
      gameWidth / enemyWidth
    }
  }
}
