/**
 * The player sprite (js/Player.js): a box at the bottom of the field that
 * steps left and right by its own width.
 */
module Players {

  import opened GameConfig
  import opened Arith

  datatype Player = Player(x: int, y: int, w: int, h: int)

  /** The column-2 starting position, 10 pixels above the bottom edge. */
  function NewPlayer(cfg: Config): (p: Player)
    ensures p.x == 2 * cfg.playerWidth
    ensures p.y == cfg.gameHeight - cfg.playerHeight - 10
    ensures p.w == cfg.playerWidth && p.h == cfg.playerHeight
  {
    Player(2 * cfg.playerWidth, cfg.gameHeight - cfg.playerHeight - 10,
           cfg.playerWidth, cfg.playerHeight)
  }

  /** `moveLeft`: one step left unless already at the left edge. */
  function MoveLeft(cfg: Config, p: Player): (r: Player)
    ensures r.y == p.y && r.w == p.w && r.h == p.h
    ensures p.x > 0 ==> r.x == p.x - cfg.playerWidth
    ensures p.x <= 0 ==> r == p
  {
    if p.x > 0 then p.(x := p.x - cfg.playerWidth) else p
  }

  /** `moveRight`: one step right unless that would leave the field. */
  function MoveRight(cfg: Config, p: Player): (r: Player)
    ensures r.y == p.y && r.w == p.w && r.h == p.h
    ensures p.x + cfg.playerWidth < cfg.gameWidth ==> r.x == p.x + cfg.playerWidth
    ensures p.x + cfg.playerWidth >= cfg.gameWidth ==> r == p
  {
    if p.x + cfg.playerWidth < cfg.gameWidth then p.(x := p.x + cfg.playerWidth) else p
  }

  /** `resetPlayer`: back to the starting column, nothing else touched. */
  function ResetPlayer(cfg: Config, p: Player): (r: Player)
    ensures r.x == NewPlayer(cfg).x
    ensures r.(x := p.x) == p
  {
    p.(x := 2 * cfg.playerWidth)
  }

  /** The player is inside the field, on the step grid, at its fixed height and size. */
  predicate OnGrid(cfg: Config, p: Player)
    requires cfg.Valid()
  {
    && 0 <= p.x <= cfg.gameWidth - cfg.playerWidth
    && p.x % cfg.playerWidth == 0
    && p.y == cfg.gameHeight - cfg.playerHeight - 10
    && p.w == cfg.playerWidth && p.h == cfg.playerHeight
  }

  datatype Move = Left | Right | Reset

  function ApplyMove(cfg: Config, p: Player, m: Move): Player {
    match m
    case Left => MoveLeft(cfg, p)
    case Right => MoveRight(cfg, p)
    case Reset => ResetPlayer(cfg, p)
  }

  function ApplyMoves(cfg: Config, p: Player, ms: seq<Move>): Player
    decreases |ms|
  {
    if ms == [] then p else ApplyMoves(cfg, ApplyMove(cfg, p, ms[0]), ms[1..])
  }

  /** Two multiples of a positive step that are apart are a whole step apart. */
  lemma GridGap(x: int, gw: int, pw: int)
    requires 0 < pw && x % pw == 0 && gw % pw == 0 && x < gw
    ensures x + pw <= gw
  {
    var a, b := x / pw, gw / pw;
    assert x == a * pw && gw == b * pw;
    if b <= a {
      MulLe(b, a, pw);
      assert false;
    }
    MulLe(a + 1, b, pw);
  }

  /** Stepping a multiple of `pw` by `pw` either way gives a multiple of `pw`. */
  lemma GridShift(x: int, pw: int)
    requires 0 < pw && x % pw == 0
    ensures (x + pw) % pw == 0 && (x - pw) % pw == 0
  {
    var a := x / pw;
    assert x == a * pw;
    MultipleHasNoRemainder(x + pw, a + 1, pw);
    MultipleHasNoRemainder(x - pw, a - 1, pw);
  }

  /** The starting position is on the grid. */
  lemma NewPlayerOnGrid(cfg: Config)
    requires cfg.Valid()
    ensures OnGrid(cfg, NewPlayer(cfg))
  {
    MultipleHasNoRemainder(2 * cfg.playerWidth, 2, cfg.playerWidth);
  }

  /** Each move, and a reset, keeps the player inside the field and on the grid. */
  lemma MoveKeepsOnGrid(cfg: Config, p: Player, m: Move)
    requires cfg.Valid() && OnGrid(cfg, p)
    ensures OnGrid(cfg, ApplyMove(cfg, p, m))
  {
    var pw := cfg.playerWidth;
    match m
    case Left =>
      GridShift(p.x, pw);
      if p.x > 0 {
        GridGap(0, p.x, pw);
      }
    case Right =>
      GridShift(p.x, pw);
      if p.x + pw < cfg.gameWidth {
        GridShift(p.x + pw, pw);
        assert (p.x + pw) % pw == 0;
        GridGap(p.x + pw, cfg.gameWidth, pw);
      }
    case Reset =>
      NewPlayerOnGrid(cfg);
  }

  /**
   * Under any sequence of moves and resets from the start, the player stays
   * within [0, GAME_WIDTH - PLAYER_WIDTH] on multiples of PLAYER_WIDTH, and its
   * height and size never change.
   */
  lemma {:induction false} MovesStayOnGrid(cfg: Config, p: Player, ms: seq<Move>)
    requires cfg.Valid() && OnGrid(cfg, p)
    ensures OnGrid(cfg, ApplyMoves(cfg, p, ms))
    decreases |ms|
  {
    if ms != [] {
      MoveKeepsOnGrid(cfg, p, ms[0]);
      MovesStayOnGrid(cfg, ApplyMove(cfg, p, ms[0]), ms[1..]);
    }
  }
}
