/**
 * The autonomous client: its belief map of the board, rebuilt each turn
 * from the latest snapshot, the breadth-first search for the nearest coin,
 * the wall-following fallback, and one pass of its turn loop.
 */
module AIPlayerClient {
  import opened Game
  import opened Navigation
  import opened Reachability
  import opened SearchInvariant
  import opened SearchTree
  import Signals

  /**
   * What a cell of the belief map holds after a snapshot is taken in:
   * coins over obstacles (walls, teammates, enemies) over the player's own
   * cell over the reset window, and the earlier belief everywhere else.
   */
  function Observed(g: Grid, s: Snapshot, x: int, y: int): (r: Cell)
    requires ValidCoord(x, y)
    ensures (x, y) in s.coin1 + s.coin2 + s.coin3 ==> r == Coin
    ensures r in {Coin, Obstacle} ==>
              (x, y) in s.coin1 + s.coin2 + s.coin3 + s.walls + s.teammatePositions + s.enemyPositions ||
              (!InWindow(s.currentPosition, x, y) && r == g[x][y])
    ensures r == Player ==> (x, y) == s.currentPosition || (!InWindow(s.currentPosition, x, y) && g[x][y] == Player)
  {
    if (x, y) in s.coin1 + s.coin2 + s.coin3 then Coin
    else if (x, y) in s.walls + s.teammatePositions + s.enemyPositions then Obstacle
    else if (x, y) == s.currentPosition then Player
    else if InWindow(s.currentPosition, x, y) then Unknown
    else g[x][y]
  }

  /** `construct_map` on a belief map held as a value. */
  function Observe(g: Grid, s: Snapshot): Grid
  {
    seq(Size, x requires 0 <= x < Size => seq(Size, y requires 0 <= y < Size => Observed(g, s, x, y)))
  }

  /** Taking in the same snapshot twice believes the same as taking it in once. */
  lemma ObserveIdempotent(g: Grid, s: Snapshot)
    ensures Observe(Observe(g, s), s) == Observe(g, s)
  {
    var h := Observe(g, s);
    forall x | 0 <= x < Size ensures Observe(h, s)[x] == h[x] {
      forall y | 0 <= y < Size ensures Observe(h, s)[x][y] == h[x][y] {
      }
    }
  }

  /** Every coin in the snapshot is believed to be a coin. */
  lemma ObserveShowsCoins(g: Grid, s: Snapshot, c: Pos)
    requires c in s.coin1 + s.coin2 + s.coin3
    ensures IsCoin(Observe(g, s), c)
  {
  }

  /** Every wall, teammate and enemy not sharing a cell with a coin is believed to be an obstacle. */
  lemma ObserveShowsObstacles(g: Grid, s: Snapshot, c: Pos)
    requires c in s.walls + s.teammatePositions + s.enemyPositions
    requires c !in s.coin1 + s.coin2 + s.coin3
    ensures !Open(Observe(g, s), c) && !IsCoin(Observe(g, s), c)
  {
  }

  /**
   * Inside the window, a cell the snapshot does not mention is believed
   * empty (or the player's own); outside it, an unmentioned cell keeps the
   * earlier belief.
   */
  lemma ObserveForgetsWindow(g: Grid, s: Snapshot, x: int, y: int)
    requires ValidCoord(x, y)
    requires (x, y) !in s.coin1 + s.coin2 + s.coin3
    requires (x, y) !in s.walls + s.teammatePositions + s.enemyPositions
    ensures InWindow(s.currentPosition, x, y) ==>
              Observe(g, s)[x][y] == if (x, y) == s.currentPosition then Player else Unknown
    ensures !InWindow(s.currentPosition, x, y) && (x, y) != s.currentPosition ==> Observe(g, s)[x][y] == g[x][y]
  {
  }

  /** A belief that is neither coin nor obstacle cannot survive as one unless the snapshot says so or it lies outside the window. */
  lemma ObserveStaleOnlyOutside(g: Grid, s: Snapshot, x: int, y: int)
    requires ValidCoord(x, y)
    requires Observe(g, s)[x][y] in {Coin, Obstacle}
    ensures (x, y) in s.coin1 + s.coin2 + s.coin3 + s.walls + s.teammatePositions + s.enemyPositions ||
            (!InWindow(s.currentPosition, x, y) && (x, y) != s.currentPosition && g[x][y] == Observe(g, s)[x][y])
  {
  }

  /**
   * The move `make_move` settles on from `pos` with fallback heading `h`:
   * the search's answer when a coin is reachable, else the wall-follower's.
   */
  ghost function Decision(g: Grid, pos: Coord, h: Direction): Option<Direction>
  {
    if ReferenceMove(g, pos).Some? then ReferenceMove(g, pos) else NextOpenHeading(g, pos, h)
  }

  /** What one pass of the turn loop did. */
  datatype Turn =
    | Waiting            // no move is due yet
    | Finished           // the game is no longer running: leave the loop
    | NoSnapshot         // a move is due but no game state has arrived
    | Emitted(move: string)  // the move published to the move channel
    | Stuck              // every neighbour is blocked: the fallback never returns

  /** The hundred cells of the board, as a set (the search explores only these). */
  ghost const Cells: set<Coord> := set x: int, y: int | 0 <= x < Size && 0 <= y < Size :: (x, y)

  lemma InCells(c: Coord)
    requires ValidCoord(c.0, c.1)
    ensures c in Cells
  {
    assert c == (c.0, c.1);
  }

  /**
   * `move_from_path`: walk the predecessor links back from `end` to the cell
   * entered from `start`, and name the step from `start` to it. Its answer
   * is the first direction of `end`'s route.
   */
  method MoveFromPath(start: Coord, previous: map<Coord, Coord>, end: Coord,
                      ghost depth: map<Coord, nat>, ghost root: map<Coord, Direction>) returns (r: Direction)
    requires Linked(start, previous, depth, root) && end in previous
    ensures end in root && r == root[end]
    ensures previous[end] == start ==> Step(start, r) == end
  {
    assert LinkedAt(start, previous, depth, root, end);
    var current := end;
    while previous[current] != start
      invariant current in previous && current in depth && current in root && root[current] == root[end]
      invariant current == end || previous[end] != start
      decreases depth[current]
    {
      assert LinkedAt(start, previous, depth, root, current);
      current := previous[current];
      assert LinkedAt(start, previous, depth, root, current);
    }
    assert LinkedAt(start, previous, depth, root, current);
    var difference := (current.0 - start.0, current.1 - start.1);
    assert difference == Delta(root[end]);
    DirectionOfDelta(root[end]);
    var m := DirectionOf(difference);
    r := m.value;
  }

  class AIPlayer {
    /** `game_running`, `next_move` and `game_state`. */
    var gameRunning: bool
    var nextMove: bool
    var gameState: Option<Snapshot>
    /** `game_map`: the 10x10 belief map, indexed by row and column. */
    var gameMap: array2<Cell>
    /** `dir`: the fallback's current heading. */
    var heading: Direction
    /** The belief map as a value. */
    ghost var board: Grid

    /** The map has the board's shape. */
    ghost predicate Sized()
      reads this`gameMap
    {
      gameMap.Length0 == Size && gameMap.Length1 == Size
    }

    /** The map holds, cell by cell, what `board` says. */
    ghost predicate Valid()
      reads this`gameMap, this`board, gameMap
    {
      Sized() && forall x, y | 0 <= x < Size && 0 <= y < Size :: gameMap[x, y] == board[x][y]
    }

    ghost function Flags(): Signals.Flags
      reads this`gameRunning, this`nextMove, this`gameState
    {
      Signals.Flags(gameRunning, nextMove, gameState)
    }

    /** The client's start-up state: nothing known, no move due, heading up. */
    constructor ()
      ensures Valid() && fresh(gameMap)
      ensures !gameRunning && !nextMove && gameState == None && heading == Up
      ensures forall x, y | 0 <= x < Size && 0 <= y < Size :: board[x][y] == Unknown
    {
      gameRunning, nextMove, gameState := false, false, None;
      gameMap := new Cell[Size, Size]((x, y) => Unknown);
      board := seq(Size, x => seq(Size, y => Unknown));
      heading := Up;
    }

    /** `on_message`: the three flags move exactly as the shared handler says. */
    method OnMessage(m: Signals.Message)
      modifies this`gameRunning, this`nextMove, this`gameState
      ensures Flags() == Signals.OnMessage(old(Flags()), m)
    {
      if Signals.Contains(m.payload, "Error") {
        nextMove := true;
        gameRunning := false;
      }
      if Signals.EndsWith(m.topic, "/lobby") && m.payload == Signals.GameOver {
        gameRunning := false;
      } else if Signals.EndsWith(m.topic, "/game_state") {
        nextMove := true;
        if m.snapshot.Some? {
          gameState := m.snapshot;
        }
      } else if Signals.EndsWith(m.topic, "/start") && m.payload == "START" {
        gameRunning := true;
      }
    }

    /** `construct_map`: take the stored snapshot into the belief map, in place. */
    method ConstructMap()
      requires Valid() && gameState.Some?
      modifies this`board, gameMap
      ensures Valid() && board == Observe(old(board), gameState.value)
    {
      var s := gameState.value;
      var p := s.currentPosition;
      ResetWindow(p);
      gameMap[p.0, p.1] := Player;
      var obstacles := s.walls + s.teammatePositions + s.enemyPositions;
      var coins := s.coin1 + s.coin2 + s.coin3;
      Place(obstacles, Obstacle);
      Place(coins, Coin);
      board := Observe(board, s);
    }

    /** The loops resetting the window: every cell in it becomes unknown, every other cell is kept. */
    method ResetWindow(p: Pos)
      requires Sized()
      modifies gameMap
      ensures forall i, j | 0 <= i < Size && 0 <= j < Size ::
        gameMap[i, j] == if InWindow(p, i, j) then Unknown else old(gameMap[i, j])
    {
      var minX, maxX := Max(p.0 - VisionRadius, 0), Min(p.0 + VisionRadius, Size);
      var minY, maxY := Max(p.1 - VisionRadius, 0), Min(p.1 + VisionRadius, Size);
      for x := minX to maxX
        invariant forall i, j | 0 <= i < Size && 0 <= j < Size ::
          gameMap[i, j] == if minX <= i < x && minY <= j < maxY then Unknown else old(gameMap[i, j])
      {
        for y := minY to maxY
          invariant forall i, j | 0 <= i < Size && 0 <= j < Size ::
            gameMap[i, j] == if (minX <= i < x && minY <= j < maxY) || (i == x && minY <= j < y) then Unknown
                             else old(gameMap[i, j])
        {
          gameMap[x, y] := Unknown;
        }
      }
    }

    /** The loops placing obstacles and coins: every listed cell gets `c`, every other cell is kept. */
    method Place(cells: seq<Pos>, c: Cell)
      requires Sized()
      modifies gameMap
      ensures forall i, j | 0 <= i < Size && 0 <= j < Size ::
        gameMap[i, j] == if (i, j) in cells then c else old(gameMap[i, j])
    {
      for k := 0 to |cells|
        invariant forall i, j | 0 <= i < Size && 0 <= j < Size ::
          gameMap[i, j] == if (i, j) in cells[..k] then c else old(gameMap[i, j])
      {
        gameMap[cells[k].0, cells[k].1] := c;
        assert cells[..k + 1] == cells[..k] + [cells[k]];
      }
      assert cells[..|cells|] == cells;
    }

    /**
     * `bfs`: search outward from `start` in the belief map, neighbours in
     * the order Up, Down, Left, Right, through cells that are on the board
     * and not obstacles, and stop at the first coin seen. Its answer is the
     * reference move: the first direction that starts a shortest route to a
     * nearest coin, or None when no coin can be reached.
     */
    method Bfs(start: Pos) returns (r: Option<Direction>)
      requires Valid()
      ensures r == ReferenceMove(board, start)
    {
      var frontier: seq<Coord> := [start];
      var explored: set<Coord> := {start};
      var previous: map<Coord, Coord> := map[];
      ghost var depth: map<Coord, nat> := map[start := 0];
      ghost var root: map<Coord, Direction> := map[];
      ghost var X: set<Coord> := {};
      Init(board, start);
      InCells(start);
      while |frontier| != 0
        invariant Searching(board, start, frontier, previous, depth, root, X)
        invariant explored == depth.Keys && explored <= Cells
        decreases Cells - explored, |frontier|
      {
        var current := frontier[0];
        BeginExpand(board, start, frontier, previous, depth, root, X);
        ghost var explored0 := explored;
        var found;
        found, frontier, explored, previous, depth, root :=
          ExpandNeighbors(start, current, frontier[1..], explored, previous, depth, root, X);
        if found.Some? {
          return found;
        }
        if explored != explored0 {
          var c :| c in explored && c !in explored0;
          assert c in Cells - explored0 && c !in Cells - explored;
        }
        EndExpand(board, start, current, frontier, previous, depth, root, X);
        X := X + {current};
      }
      Exhausted(board, start, previous, depth, root, X);
      return None;
    }

    /**
     * The loop of `bfs` over the four neighbours of `current`: record each
     * unexplored open neighbour as seen from `current` and queue it, or,
     * if it holds a coin, stop with the move that leads toward it.
     */
    method ExpandNeighbors(start: Pos, current: Coord, frontier0: seq<Coord>, explored0: set<Coord>,
                           previous0: map<Coord, Coord>, ghost depth0: map<Coord, nat>,
                           ghost root0: map<Coord, Direction>, ghost X: set<Coord>)
      returns (found: Option<Direction>, frontier: seq<Coord>, explored: set<Coord>, previous: map<Coord, Coord>,
               ghost depth: map<Coord, nat>, ghost root: map<Coord, Direction>)
      requires Valid()
      requires Expanding(board, start, current, 0, frontier0, previous0, depth0, root0, X)
      requires explored0 == depth0.Keys && explored0 <= Cells
      ensures found.Some? ==> found == ReferenceMove(board, start)
      ensures found.None? ==> Expanding(board, start, current, 4, frontier, previous, depth, root, X)
      ensures found.None? ==> explored == depth.Keys && explored0 <= explored <= Cells
      ensures found.None? && explored == explored0 ==> |frontier| == |frontier0|
    {
      found, frontier, explored, previous, depth, root := None, frontier0, explored0, previous0, depth0, root0;
      for i := 0 to 4
        invariant Expanding(board, start, current, i, frontier, previous, depth, root, X)
        invariant explored == depth.Keys && explored0 <= explored <= Cells
        invariant explored == explored0 ==> |frontier| == |frontier0|
        invariant found.None?
      {
        ghost var seen := explored;
        found, frontier, explored, previous, depth, root :=
          VisitNeighbor(start, current, i, frontier, explored, previous, depth, root, X);
        if found.Some? {
          return;
        }
        assert explored == explored0 ==> seen == explored0;
      }
    }

    /**
     * One pass of that loop, for the neighbour in direction `Directions[i]`:
     * an unexplored open neighbour is recorded and queued, a coin ends the
     * search with the move toward it, anything else leaves the state alone.
     */
    method VisitNeighbor(start: Pos, current: Coord, i: nat, frontier0: seq<Coord>, explored0: set<Coord>,
                         previous0: map<Coord, Coord>, ghost depth0: map<Coord, nat>,
                         ghost root0: map<Coord, Direction>, ghost X: set<Coord>)
      returns (found: Option<Direction>, frontier: seq<Coord>, explored: set<Coord>, previous: map<Coord, Coord>,
               ghost depth: map<Coord, nat>, ghost root: map<Coord, Direction>)
      requires Valid() && i < 4
      requires Expanding(board, start, current, i, frontier0, previous0, depth0, root0, X)
      requires explored0 == depth0.Keys && explored0 <= Cells
      ensures found.Some? ==> found == ReferenceMove(board, start)
      ensures found.None? ==> Expanding(board, start, current, i + 1, frontier, previous, depth, root, X)
      ensures found.None? ==> explored == depth.Keys && explored0 <= explored <= Cells
      ensures found.None? && explored == explored0 ==> frontier == frontier0
    {
      var dir := Directions[i];
      var x, y := current.0 + Delta(dir).0, current.1 + Delta(dir).1;
      var neighbor := (x, y);
      assert neighbor == Step(current, Directions[i]);
      if ValidCoord(x, y) && neighbor !in explored0 && gameMap[x, y] != Obstacle {
        var s := gameMap[x, y];
        ghost var r := ChildRoot(start, current, i, root0);
        InCells(neighbor);
        explored := explored0 + {neighbor};
        previous := previous0[neighbor := current];
        depth, root := depth0[neighbor := depth0[current] + 1], root0[neighbor := r];
        if s == Coin {
          FoundCoin(board, start, current, i, frontier0, previous0, depth0, root0, X);
          var m := MoveFromPath(start, previous, neighbor, depth, root);
          return Some(m), frontier0, explored, previous, depth, root;
        }
        Discover(board, start, current, i, frontier0, previous0, depth0, root0, X);
        frontier := frontier0 + [neighbor];
        found := None;
      } else {
        SkipNeighbor(board, start, current, i, frontier0, previous0, depth0, root0, X);
        found, frontier, explored, previous, depth, root := None, frontier0, explored0, previous0, depth0, root0;
      }
    }

    /** `not valid_coord(x, y) or game_map[x][y] == "O"`: the cell cannot be entered. */
    method Blocked(x: int, y: int) returns (b: bool)
      requires Valid()
      ensures b == !Open(board, (x, y))
    {
      b := !ValidCoord(x, y) || gameMap[x, y] == Obstacle;
    }

    /**
     * `gen_random_move`: keep the heading while the cell ahead is open,
     * otherwise turn (Up, Left, Down, Right, Up, ...) until it is. After four
     * blocked turns the heading is back where it started and None is
     * returned, where the source keeps turning forever.
     */
    method GenRandomMove(pos: Pos) returns (r: Option<Direction>)
      requires Valid()
      modifies this`heading
      ensures r == NextOpenHeading(board, pos, old(heading))
      ensures heading == if r.Some? then r.value else old(heading)
    {
      ghost var h0 := heading;
      var turns := 0;
      var x, y := pos.0 + Delta(heading).0, pos.1 + Delta(heading).1;
      var blocked := Blocked(x, y);
      while blocked && turns < 4
        invariant 0 <= turns <= 4 && heading == Turned(h0, turns)
        invariant blocked == !Open(board, Step(pos, heading))
        invariant forall j | 0 <= j < turns :: !Open(board, Step(pos, Turned(h0, j)))
        decreases 4 - turns
      {
        heading := Rotate(heading);
        turns := turns + 1;
        x, y := pos.0 + Delta(heading).0, pos.1 + Delta(heading).1;
        blocked := Blocked(x, y);
      }
      if turns == 4 && blocked {
        AllBlocked(board, pos, h0);
        r := None;
      } else {
        FirstOpenIs(board, pos, h0, turns);
        r := Some(heading);
      }
    }

    /**
     * `make_move`: take the stored snapshot into the belief map, then move
     * toward the nearest coin if one can be reached, and fall back to the
     * wall-follower otherwise.
     */
    method MakeMove() returns (r: Option<Direction>)
      requires Valid() && gameState.Some?
      modifies this`board, gameMap, this`heading
      ensures Valid() && board == Observe(old(board), gameState.value)
      ensures ReferenceMove(board, gameState.value.currentPosition).Some? ==>
                r == ReferenceMove(board, gameState.value.currentPosition) && heading == old(heading)
      ensures ReferenceMove(board, gameState.value.currentPosition).None? ==>
                r == NextOpenHeading(board, gameState.value.currentPosition, old(heading)) &&
                heading == if r.Some? then r.value else old(heading)
      ensures r.Some? ==> Open(board, Step(gameState.value.currentPosition, r.value))
      ensures r.None? <==> forall d :: !Open(board, Step(gameState.value.currentPosition, d))
    {
      ConstructMap();
      var start := gameState.value.currentPosition;
      r := Bfs(start);
      if r.None? {
        r := GenRandomMove(start);
      } else {
        ReferenceMoveIsShortest(board, start);
      }
    }

    /**
     * One pass of the turn loop: wait for a move to be due; stop once the
     * game is no longer running; otherwise decide a move, clear the
     * due-flag, and publish the move's name.
     */
    method TurnStep() returns (t: Turn)
      requires Valid()
      modifies this`board, gameMap, this`heading, this`nextMove
      ensures Valid()
      ensures !old(nextMove) ==> t == Waiting && unchanged(this) && unchanged(gameMap)
      ensures old(nextMove) && !old(gameRunning) ==> t == Finished && unchanged(this) && unchanged(gameMap)
      ensures old(nextMove) && old(gameRunning) && old(gameState).None? ==> t == NoSnapshot && unchanged(this)
      ensures old(nextMove) && old(gameRunning) && old(gameState).Some? ==>
                var pos := gameState.value.currentPosition;
                var d := Decision(board, pos, old(heading));
                board == Observe(old(board), gameState.value) &&
                t == (if d.Some? then Emitted(Name(d.value)) else Stuck) &&
                nextMove == d.None? &&
                heading == (if ReferenceMove(board, pos).None? && d.Some? then d.value else old(heading)) &&
                (t == Stuck <==> forall e :: !Open(board, Step(pos, e)))
      ensures t.Emitted? ==> exists d :: t.move == Name(d) && Open(board, Step(gameState.value.currentPosition, d))
    {
      if !nextMove {
        return Waiting;
      }
      if !gameRunning {
        return Finished;
      }
      if gameState.None? {
        return NoSnapshot;
      }
      var move := MakeMove();
      if move.None? {
        return Stuck;
      }
      nextMove := false;
      t := Emitted(Name(move.value));
    }
  }
}
