/**
 * Values shared by both game clients: grid coordinates, the per-turn
 * snapshot the game server sends, and the vision window around the player.
 */
module Game {

  datatype Option<T> = None | Some(value: T)

  /** Side length of the square board. */
  const Size: int := 10

  /** How far the player sees around itself each turn. */
  const VisionRadius: int := 2

  /** A (row, column) pair; may lie off the board. */
  type Coord = (int, int)

  /** `valid_coord`: both components lie on the 10x10 board. */
  predicate ValidCoord(x: int, y: int)
  {
    0 <= x < Size && 0 <= y < Size
  }

  /** A coordinate on the board. */
  type Pos = c: Coord | ValidCoord(c.0, c.1) witness (0, 0)

  /**
   * One turn's view of the game, as decoded from the server's JSON message.
   * Every coordinate the server sends lies on the board.
   */
  datatype Snapshot = Snapshot(
    currentPosition: Pos,
    walls: seq<Pos>,
    teammatePositions: seq<Pos>,
    teammateNames: seq<string>,
    enemyPositions: seq<Pos>,
    coin1: seq<Pos>,
    coin2: seq<Pos>,
    coin3: seq<Pos>)

  function Max(a: int, b: int): int { if a < b then b else a }

  function Min(a: int, b: int): int { if a < b then a else b }

  /**
   * The cells both clients reset before placing a snapshot's entities:
   * rows `range(max(px - 2, 0), min(px + 2, 10))` and the same for columns.
   * The upper bound is exclusive, so the window is NOT symmetric.
   */
  predicate InWindow(center: Pos, x: int, y: int)
    ensures InWindow(center, x, y) ==>
              ValidCoord(x, y) &&
              -VisionRadius <= x - center.0 <= VisionRadius &&
              -VisionRadius <= y - center.1 <= VisionRadius
  {
    Max(center.0 - VisionRadius, 0) <= x < Min(center.0 + VisionRadius, Size) &&
    Max(center.1 - VisionRadius, 0) <= y < Min(center.1 + VisionRadius, Size)
  }

  /**
   * The window is the board cells two rows/columns before the player up to
   * ONE after it: the row and the column at distance +2 are never reset.
   */
  lemma WindowExtent(center: Pos, x: int, y: int)
    ensures InWindow(center, x, y) <==>
      ValidCoord(x, y) &&
      center.0 - VisionRadius <= x <= center.0 + VisionRadius - 1 &&
      center.1 - VisionRadius <= y <= center.1 + VisionRadius - 1
    ensures !InWindow(center, center.0 + VisionRadius, y)
    ensures !InWindow(center, x, center.1 + VisionRadius)
    ensures InWindow(center, center.0, center.1)
  {
  }
}
