/**
 * The autonomous client's vocabulary: what it believes each cell holds, the
 * four headings, and the wall-following fallback used when no coin is in reach.
 */
module Navigation {
  import opened Game

  /** A belief about one cell: "N" (nothing known), "P", "O" or "C". */
  datatype Cell = Unknown | Player | Obstacle | Coin

  /** The four moves, each a unit step on the board. */
  datatype Direction = Up | Down | Left | Right

  /** `directions`: the order in which the search expands a cell's neighbours. */
  const Directions: seq<Direction> := [Up, Down, Left, Right]

  /** Position of `d` in `Directions`. */
  function Rank(d: Direction): nat
  {
    match d
    case Up => 0
    case Down => 1
    case Left => 2
    case Right => 3
  }

  /** The (row, column) change of one step in direction `d`. */
  function Delta(d: Direction): Coord
  {
    match d
    case Up => (-1, 0)
    case Down => (1, 0)
    case Left => (0, -1)
    case Right => (0, 1)
  }

  /** The move token a direction is published as (`direction_mapping`). */
  function Name(d: Direction): string
  {
    match d
    case Up => "UP"
    case Down => "DOWN"
    case Left => "LEFT"
    case Right => "RIGHT"
  }

  /** The four move tokens are distinct, so a token names one direction. */
  lemma NamesDistinct(d: Direction, e: Direction)
    ensures Name(d) == Name(e) <==> d == e
  {
    if d != e {
      assert Name(d)[0] != Name(e)[0] || |Name(d)| != |Name(e)|;
    }
  }

  function Step(c: Coord, d: Direction): Coord
  {
    (c.0 + Delta(d).0, c.1 + Delta(d).1)
  }

  /** The direction that undoes `d`. */
  function Opposite(d: Direction): Direction
  {
    match d
    case Up => Down
    case Down => Up
    case Left => Right
    case Right => Left
  }

  /**
   * `direction_mapping[difference]`: the direction whose step is `delta`,
   * or None where the dictionary lookup would fail.
   */
  function DirectionOf(delta: Coord): (r: Option<Direction>)
    ensures r.Some? <==> delta in {(-1, 0), (1, 0), (0, -1), (0, 1)}
    ensures r.Some? ==> Delta(r.value) == delta
  {
    if delta == (-1, 0) then Some(Up)
    else if delta == (1, 0) then Some(Down)
    else if delta == (0, -1) then Some(Left)
    else if delta == (0, 1) then Some(Right)
    else None
  }

  /** Looking a direction's own step up again gives the direction back. */
  lemma DirectionOfDelta(d: Direction)
    ensures DirectionOf(Delta(d)) == Some(d)
    ensures Directions[Rank(d)] == d
  {
  }

  /** `Directions` lists each direction at its rank. */
  lemma DirectionsRanked(i: nat)
    requires i < 4
    ensures Rank(Directions[i]) == i
  {
  }

  /** The 10x10 belief grid as a value, indexed `g[row][column]`. */
  type Grid = g: seq<seq<Cell>> | IsGrid(g) witness seq(Size, i => seq(Size, j => Unknown))

  predicate IsGrid(g: seq<seq<Cell>>)
  {
    |g| == Size && forall i | 0 <= i < |g| :: |g[i]| == Size
  }

  /** A cell the agent may step into: on the board and not an obstacle. */
  predicate Open(g: Grid, c: Coord)
  {
    ValidCoord(c.0, c.1) && g[c.0][c.1] != Obstacle
  }

  /** A cell on the board currently believed to hold a coin. */
  predicate IsCoin(g: Grid, c: Coord)
  {
    ValidCoord(c.0, c.1) && g[c.0][c.1] == Coin
  }

  /** The wall-follower's turn: UP -> LEFT -> DOWN -> RIGHT -> UP. */
  function Rotate(d: Direction): (r: Direction)
    ensures r != d && r != Opposite(d)
  {
    match d
    case Up => Left
    case Left => Down
    case Down => Right
    case Right => Up
  }

  /** Each turn is a quarter turn of the step, counter-clockwise on the (row, column) board. */
  lemma RotateQuarterTurn(d: Direction)
    ensures Delta(Rotate(d)) == (-Delta(d).1, Delta(d).0)
  {
  }

  /** `h` turned `k` times. */
  function Turned(h: Direction, k: nat): Direction
  {
    if k == 0 then h else Rotate(Turned(h, k - 1))
  }

  /** Four turns bring the heading back, and the first four cover every direction. */
  lemma TurnsCover(h: Direction, d: Direction)
    ensures Turned(h, 4) == h
    ensures exists k :: 0 <= k < 4 && Turned(h, k) == d
  {
    assert Turned(h, 1) == Rotate(h);
    assert Turned(h, 2) == Rotate(Rotate(h));
    assert Turned(h, 3) == Rotate(Rotate(Rotate(h)));
    assert Turned(h, 4) == Rotate(Rotate(Rotate(Rotate(h))));
  }

  /**
   * The first of `h`, `Rotate(h)`, ... (at most `budget` headings) whose
   * neighbouring cell from `pos` is open, or None if all those are blocked.
   */
  function FirstOpenHeading(g: Grid, pos: Coord, h: Direction, budget: nat): (r: Option<Direction>)
    ensures r.None? ==> forall k | 0 <= k < budget :: !Open(g, Step(pos, Turned(h, k)))
    ensures r.Some? ==> Open(g, Step(pos, r.value))
    ensures r.Some? ==> exists k | 0 <= k < budget :: r.value == Turned(h, k) &&
                          forall j | 0 <= j < k :: !Open(g, Step(pos, Turned(h, j)))
    decreases budget
  {
    if budget == 0 then None
    else if Open(g, Step(pos, h)) then
      assert h == Turned(h, 0);
      Some(h)
    else
      var r := FirstOpenHeading(g, pos, Rotate(h), budget - 1);
      TurnedShift(h, budget);
      if r.Some? then
        var k :| 0 <= k < budget - 1 && r.value == Turned(Rotate(h), k) &&
                 forall j | 0 <= j < k :: !Open(g, Step(pos, Turned(Rotate(h), j)));
        assert r.value == Turned(h, k + 1);
        assert forall j | 0 <= j < k + 1 :: !Open(g, Step(pos, Turned(h, j))) by {
          forall j | 0 <= j < k + 1 ensures !Open(g, Step(pos, Turned(h, j))) {
            if j > 0 { assert Turned(h, j) == Turned(Rotate(h), j - 1); }
          }
        }
        r
      else
        assert forall k | 0 <= k < budget :: !Open(g, Step(pos, Turned(h, k))) by {
          forall k | 0 <= k < budget ensures !Open(g, Step(pos, Turned(h, k))) {
            if k > 0 { assert Turned(h, k) == Turned(Rotate(h), k - 1); }
          }
        }
        r
  }

  /** Turning once and then `k` times is turning `k + 1` times. */
  lemma {:induction false} TurnedShift(h: Direction, n: nat)
    ensures forall k | 0 <= k < n :: Turned(Rotate(h), k) == Turned(h, k + 1)
  {
    if n > 0 {
      TurnedShift(h, n - 1);
      var k := n - 1;
      if k > 0 {
        assert Turned(Rotate(h), k) == Rotate(Turned(Rotate(h), k - 1));
      }
    }
  }

  /**
   * `gen_random_move`'s choice: keep the heading while its neighbour is
   * open, otherwise turn until one is. None when all four neighbours are
   * blocked, where the source turns forever.
   */
  function NextOpenHeading(g: Grid, pos: Coord, h: Direction): (r: Option<Direction>)
    ensures r.None? <==> forall d :: !Open(g, Step(pos, d))
    ensures r.Some? ==> Open(g, Step(pos, r.value))
  {
    var r := FirstOpenHeading(g, pos, h, 4);
    if r.None? then
      forall d ensures !Open(g, Step(pos, d)) {
        TurnsCover(h, d);
      }
      r
    else
      r
  }

  /** An open heading is kept. */
  lemma KeepsOpenHeading(g: Grid, pos: Coord, h: Direction)
    requires Open(g, Step(pos, h))
    ensures NextOpenHeading(g, pos, h) == Some(h)
  {
  }

  /**
   * A blocked heading is replaced by the choice made from the next heading
   * in the cycle.
   */
  lemma BlockedHeadingTurns(g: Grid, pos: Coord, h: Direction)
    requires !Open(g, Step(pos, h))
    ensures NextOpenHeading(g, pos, h) == NextOpenHeading(g, pos, Rotate(h))
  {
    TurnsCover(h, h);
    assert Turned(Rotate(h), 3) == h by { TurnedShift(h, 4); }
    FirstOpenHeadingExtend(g, pos, Rotate(h), 3);
  }

  /** One more turn of budget changes nothing once a blocked heading is reached. */
  lemma {:induction false} FirstOpenHeadingExtend(g: Grid, pos: Coord, h: Direction, n: nat)
    requires !Open(g, Step(pos, Turned(h, n)))
    ensures FirstOpenHeading(g, pos, h, n + 1) == FirstOpenHeading(g, pos, h, n)
    decreases n
  {
    if n > 0 && !Open(g, Step(pos, h)) {
      TurnedShift(h, n);
      FirstOpenHeadingExtend(g, pos, Rotate(h), n - 1);
    }
  }

  /**
   * The fallback's choice is the heading reached after `t` turns when that
   * one is open and every heading turned through before it is blocked.
   */
  lemma FirstOpenIs(g: Grid, pos: Coord, h: Direction, t: nat)
    requires t < 4 && Open(g, Step(pos, Turned(h, t)))
    requires forall j | 0 <= j < t :: !Open(g, Step(pos, Turned(h, j)))
    ensures NextOpenHeading(g, pos, h) == Some(Turned(h, t))
  {
    var r := FirstOpenHeading(g, pos, h, 4);
    assert r == NextOpenHeading(g, pos, h);
    assert r.Some?;
    var k :| 0 <= k < 4 && r.value == Turned(h, k) && forall j | 0 <= j < k :: !Open(g, Step(pos, Turned(h, j)));
  }

  /** When the four headings turned through are all blocked, there is no choice and the heading is back where it began. */
  lemma AllBlocked(g: Grid, pos: Coord, h: Direction)
    requires forall j | 0 <= j < 4 :: !Open(g, Step(pos, Turned(h, j)))
    ensures NextOpenHeading(g, pos, h) == None
    ensures Turned(h, 4) == h
  {
    TurnsCover(h, h);
  }

  /** With an open neighbour, the fallback needs at most three turns and lands on an open cell. */
  lemma FallbackTurnsAtMostThree(g: Grid, pos: Coord, h: Direction)
    requires exists d :: Open(g, Step(pos, d))
    ensures NextOpenHeading(g, pos, h).Some?
    ensures exists k | 0 <= k < 4 :: NextOpenHeading(g, pos, h).value == Turned(h, k) &&
              forall j | 0 <= j < k :: !Open(g, Step(pos, Turned(h, j)))
  {
  }
}
