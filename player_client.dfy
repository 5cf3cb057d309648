/**
 * The human-driven client: a labelled map of the board rebuilt from each
 * snapshot, the key table the player chooses moves from, the prompt that
 * accepts only those keys, and one pass of its turn loop.
 */
module PlayerClient {
  import opened Game
  import opened Navigation
  import Signals

  /** `moves`: the key typed for each move, and the move token it publishes. */
  const Moves: map<string, string> := map["W" := "UP", "A" := "LEFT", "S" := "DOWN", "D" := "RIGHT"]

  /** The direction each key stands for. */
  function KeyDirection(k: string): (d: Direction)
    requires k in Moves
    ensures Moves[k] == Name(d)
  {
    if k == "W" then Up else if k == "A" then Left else if k == "S" then Down else Right
  }

  /** Every move token is the name of a direction, and every direction has exactly one key. */
  lemma MovesAreDirections(d: Direction)
    ensures forall k | k in Moves :: Moves[k] == Name(KeyDirection(k))
    ensures exists k :: k in Moves && KeyDirection(k) == d
    ensures forall k, k' | k in Moves && k' in Moves && Moves[k] == Moves[k'] :: k == k'
  {
    match d
    case Up => assert KeyDirection("W") == d;
    case Left => assert KeyDirection("A") == d;
    case Down => assert KeyDirection("S") == d;
    case Right => assert KeyDirection("D") == d;
  }

  /** Python's `upper()` on one character, for the ASCII letters. */
  function UpperChar(c: char): char
  {
    if 'a' <= c <= 'z' then (c as int - 'a' as int + 'A' as int) as char else c
  }

  /** Python's `upper()`, for ASCII text. */
  function Upper(s: string): (r: string)
    ensures |r| == |s| && forall i | 0 <= i < |s| :: r[i] == UpperChar(s[i])
    ensures forall i | 0 <= i < |r| :: !('a' <= r[i] <= 'z')
    ensures forall i | 0 <= i < |r| :: r[i] == s[i] || ('a' <= s[i] <= 'z' && r[i] as int == s[i] as int - 32)
  {
    seq(|s|, i requires 0 <= i < |s| => UpperChar(s[i]))
  }

  /** Upper-casing what is already upper case changes nothing. */
  lemma {:induction false} UpperIdempotent(s: string)
    ensures Upper(Upper(s)) == Upper(s)
  {
    var u := Upper(s);
    forall i | 0 <= i < |s|
      ensures Upper(u)[i] == u[i]
    {
      assert !('a' <= u[i] <= 'z');
    }
  }

  /** Every move token is already upper case. */
  lemma NamesUpper(d: Direction)
    ensures Upper(Name(d)) == Name(d)
  {
    var n := Name(d);
    forall i | 0 <= i < |n|
      ensures UpperChar(n[i]) == n[i]
    {
      assert 'A' <= n[i] <= 'Z';
    }
  }

  /** The lines the prompt accepts are exactly the four keys, typed in either case. */
  lemma AcceptedLines(s: string)
    ensures Upper(s) in Moves <==> s in {"W", "w", "A", "a", "S", "s", "D", "d"}
  {
    if Upper(s) in Moves {
      assert |s| == 1;
      assert s == [s[0]];
      assert Upper(s) == [UpperChar(s[0])];
      assert UpperChar(s[0]) in {'W', 'A', 'S', 'D'};
    }
    if s in {"W", "w", "A", "a", "S", "s", "D", "d"} {
      assert Upper(s) == [UpperChar(s[0])];
    }
  }

  /**
   * `move_prompt`: read lines until one, upper-cased, is a key of `moves`.
   * The console is the sequence of lines typed; None means the lines ran out
   * before a key was typed (the source would wait for more input).
   */
  method MovePrompt(typed: seq<string>) returns (r: Option<string>)
    ensures r.Some? ==> r.value in Moves
    ensures r.Some? <==> exists i :: 0 <= i < |typed| && Upper(typed[i]) in Moves
    ensures r.Some? ==> exists i :: 0 <= i < |typed| && r.value == Upper(typed[i]) &&
                          forall j | 0 <= j < i :: Upper(typed[j]) !in Moves
  {
    var option := "";
    var n := 0;
    while option !in Moves && n < |typed|
      invariant 0 <= n <= |typed|
      invariant forall j | 0 <= j < n - 1 :: Upper(typed[j]) !in Moves
      invariant n == 0 ==> option == ""
      invariant n > 0 ==> option == Upper(typed[n - 1])
    {
      option := Upper(typed[n]);
      n := n + 1;
    }
    if option in Moves {
      return Some(option);
    }
    return None;
  }

  /** The labelled 10x10 map as a value, indexed `g[row][column]`. */
  type Labels = g: seq<seq<string>> | IsLabels(g) witness seq(Size, i => seq(Size, j => "None"))

  predicate IsLabels(g: seq<seq<string>>)
  {
    |g| == Size && forall i | 0 <= i < |g| :: |g[i]| == Size
  }

  /** The name of the last teammate in `positions` standing on `c`, if any (a later write overwrites). */
  function LastTeammate(positions: seq<Pos>, names: seq<string>, c: Coord): (r: Option<string>)
    requires |positions| <= |names|
    ensures r.None? <==> c !in positions
    ensures r.Some? ==> exists i :: 0 <= i < |positions| && positions[i] == c && r.value == names[i] &&
                          forall j | i < j < |positions| :: positions[j] != c
  {
    if |positions| == 0 then None
    else if positions[|positions| - 1] == c then Some(names[|positions| - 1])
    else
      var r := LastTeammate(positions[..|positions| - 1], names, c);
      assert positions == positions[..|positions| - 1] + [positions[|positions| - 1]];
      r
  }

  /**
   * A cell's label after the reset, the player's own name and the first `k`
   * teammates have been written.
   */
  function Players(g: Labels, s: Snapshot, name: string, k: nat, x: int, y: int): string
    requires ValidCoord(x, y) && k <= |s.teammatePositions| && k <= |s.teammateNames|
  {
    var t := LastTeammate(s.teammatePositions[..k], s.teammateNames, (x, y));
    if t.Some? then t.value
    else if (x, y) == s.currentPosition then name
    else if InWindow(s.currentPosition, x, y) then "None"
    else g[x][y]
  }

  /** A cell's label after `construct_map(name)`: the last write to it wins. */
  function Labelled(g: Labels, s: Snapshot, name: string, x: int, y: int): (r: string)
    requires ValidCoord(x, y) && |s.teammatePositions| <= |s.teammateNames|
    ensures (x, y) in s.coin1 + s.coin2 + s.coin3 ==> r in {"Coin1", "Coin2", "Coin3"}
    ensures (x, y) !in s.coin1 + s.coin2 + s.coin3 + s.walls + s.enemyPositions + s.teammatePositions ==>
              r == if (x, y) == s.currentPosition then name
                   else if InWindow(s.currentPosition, x, y) then "None"
                   else g[x][y]
  {
    assert s.teammatePositions[..|s.teammatePositions|] == s.teammatePositions;
    var c := (x, y);
    if c in s.coin3 then "Coin3"
    else if c in s.coin2 then "Coin2"
    else if c in s.coin1 then "Coin1"
    else if c in s.walls then "Wall"
    else if c in s.enemyPositions then "Enemy"
    else Players(g, s, name, |s.teammatePositions|, x, y)
  }

  /** `construct_map(name)` on a labelled map held as a value, when every teammate has a name. */
  function Relabel(g: Labels, s: Snapshot, name: string): Labels
    requires |s.teammatePositions| <= |s.teammateNames|
  {
    seq(Size, x requires 0 <= x < Size => seq(Size, y requires 0 <= y < Size => Labelled(g, s, name, x, y)))
  }

  /**
   * What `construct_map(name)` leaves when a teammate position has no name:
   * the reset window, the player's name and the named teammates; the
   * lookup of the missing name raises before anything else is written.
   */
  function RelabelCut(g: Labels, s: Snapshot, name: string): (r: Labels)
    requires |s.teammateNames| < |s.teammatePositions|
    ensures forall x, y | ValidCoord(x, y) && !InWindow(s.currentPosition, x, y) && (x, y) != s.currentPosition &&
                          (x, y) !in s.teammatePositions[..|s.teammateNames|] ::
              r[x][y] == g[x][y]
    ensures r[s.currentPosition.0][s.currentPosition.1] == name ||
            s.currentPosition in s.teammatePositions[..|s.teammateNames|]
  {
    seq(Size, x requires 0 <= x < Size => seq(Size, y requires 0 <= y < Size =>
      Players(g, s, name, |s.teammateNames|, x, y)))
  }

  /** Relabelling twice with the same snapshot and name labels as relabelling once. */
  lemma RelabelIdempotent(g: Labels, s: Snapshot, name: string)
    requires |s.teammatePositions| <= |s.teammateNames|
    ensures Relabel(Relabel(g, s, name), s, name) == Relabel(g, s, name)
  {
    var h := Relabel(g, s, name);
    forall x | 0 <= x < Size ensures Relabel(h, s, name)[x] == h[x] {
      forall y | 0 <= y < Size ensures Relabel(h, s, name)[x][y] == h[x][y] {
      }
    }
  }

  /** Coins win over everything, the later coin lists over the earlier ones, walls over enemies. */
  lemma CoinsWin(g: Labels, s: Snapshot, name: string, c: Pos)
    requires |s.teammatePositions| <= |s.teammateNames|
    ensures c in s.coin3 ==> Relabel(g, s, name)[c.0][c.1] == "Coin3"
    ensures c !in s.coin3 && c in s.coin2 ==> Relabel(g, s, name)[c.0][c.1] == "Coin2"
    ensures c !in s.coin3 + s.coin2 && c in s.coin1 ==> Relabel(g, s, name)[c.0][c.1] == "Coin1"
    ensures c !in s.coin3 + s.coin2 + s.coin1 && c in s.walls ==> Relabel(g, s, name)[c.0][c.1] == "Wall"
    ensures c !in s.coin3 + s.coin2 + s.coin1 + s.walls && c in s.enemyPositions ==>
              Relabel(g, s, name)[c.0][c.1] == "Enemy"
  {
  }

  /**
   * A teammate's cell carries that teammate's name, unless a later teammate,
   * an enemy, a wall or a coin was written over it.
   */
  lemma TeammateNamed(g: Labels, s: Snapshot, name: string, i: nat)
    requires |s.teammatePositions| <= |s.teammateNames| && i < |s.teammatePositions|
    requires forall j | i < j < |s.teammatePositions| :: s.teammatePositions[j] != s.teammatePositions[i]
    requires s.teammatePositions[i] !in s.coin3 + s.coin2 + s.coin1 + s.walls + s.enemyPositions
    ensures Relabel(g, s, name)[s.teammatePositions[i].0][s.teammatePositions[i].1] == s.teammateNames[i]
  {
    var ps := s.teammatePositions;
    assert ps[..|ps|] == ps;
    var t := LastTeammate(ps, s.teammateNames, ps[i]);
    var k :| 0 <= k < |ps| && ps[k] == ps[i] && t.value == s.teammateNames[k] &&
             forall j | k < j < |ps| :: ps[j] != ps[i];
    assert k == i;
  }

  /**
   * An unlisted cell in the window is reset ("None", or the player's name on
   * the player's cell); an unlisted cell outside it keeps its old label.
   */
  lemma UnlistedCells(g: Labels, s: Snapshot, name: string, x: int, y: int)
    requires |s.teammatePositions| <= |s.teammateNames| && ValidCoord(x, y)
    requires (x, y) !in s.coin3 + s.coin2 + s.coin1 + s.walls + s.enemyPositions + s.teammatePositions
    ensures (x, y) == s.currentPosition ==> Relabel(g, s, name)[x][y] == name
    ensures (x, y) != s.currentPosition && InWindow(s.currentPosition, x, y) ==> Relabel(g, s, name)[x][y] == "None"
    ensures (x, y) != s.currentPosition && !InWindow(s.currentPosition, x, y) ==> Relabel(g, s, name)[x][y] == g[x][y]
  {
    assert s.teammatePositions[..|s.teammatePositions|] == s.teammatePositions;
  }

  /** What one pass of the turn loop did. */
  datatype Turn =
    | Waiting            // no move is due yet
    | Finished           // the game is no longer running: leave the loop
    | NoSnapshot         // a move is due but no game state has arrived
    | Unnamed            // a teammate position has no name: the map update raises
    | NoKey              // the typed lines ran out before a key was entered
    | Emitted(move: string)  // the move published to the move channel

  class Player {
    /** `game_running`, `next_move` and `game_state`. */
    var gameRunning: bool
    var nextMove: bool
    var gameState: Option<Snapshot>
    /** `game_map`: the labelled 10x10 map, indexed by row and column. */
    var gameMap: array2<string>
    /** The labelled map as a value. */
    ghost var board: Labels

    /** The map has the board's shape. */
    ghost predicate Sized()
      reads this`gameMap
    {
      gameMap.Length0 == Size && gameMap.Length1 == Size
    }

    /** The map holds, cell by cell, what `board` says. */
    ghost predicate Valid()
      reads this`gameMap, this`board, gameMap
    {
      Sized() && forall x, y | 0 <= x < Size && 0 <= y < Size :: gameMap[x, y] == board[x][y]
    }

    ghost function Flags(): Signals.Flags
      reads this`gameRunning, this`nextMove, this`gameState
    {
      Signals.Flags(gameRunning, nextMove, gameState)
    }

    /** The client's start-up state: every cell "None", no move due. */
    constructor ()
      ensures Valid() && fresh(gameMap)
      ensures !gameRunning && !nextMove && gameState == None
      ensures forall x, y | 0 <= x < Size && 0 <= y < Size :: board[x][y] == "None"
    {
      gameRunning, nextMove, gameState := false, false, None;
      gameMap := new string[Size, Size]((x, y) => "None");
      board := seq(Size, x => seq(Size, y => "None"));
    }

    /** `on_message`: the three flags move exactly as the shared handler says. */
    method OnMessage(m: Signals.Message)
      modifies this`gameRunning, this`nextMove, this`gameState
      ensures Flags() == Signals.OnMessage(old(Flags()), m)
    {
      if Signals.Contains(m.payload, "Error") {
        nextMove := true;
        gameRunning := false;
      }
      if Signals.EndsWith(m.topic, "/lobby") && m.payload == Signals.GameOver {
        gameRunning := false;
      } else if Signals.EndsWith(m.topic, "/game_state") {
        nextMove := true;
        if m.snapshot.Some? {
          gameState := m.snapshot;
        }
      } else if Signals.EndsWith(m.topic, "/start") && m.payload == "START" {
        gameRunning := true;
      }
    }

    /**
     * `construct_map(player_name)`: take the stored snapshot into the
     * labelled map, in place. It fails (`ok` false) exactly when some
     * teammate position has no name, leaving the map as far as it got.
     */
    method ConstructMap(playerName: string) returns (ok: bool)
      requires Valid() && gameState.Some?
      modifies this`board, gameMap
      ensures Valid()
      ensures ok <==> |gameState.value.teammatePositions| <= |gameState.value.teammateNames|
      ensures ok ==> board == Relabel(old(board), gameState.value, playerName)
      ensures !ok ==> board == RelabelCut(old(board), gameState.value, playerName)
    {
      ghost var g := board;
      var s := gameState.value;
      var p := s.currentPosition;
      ResetWindow(p);
      gameMap[p.0, p.1] := playerName;
      label Named:
      ok := PlaceTeammates(s.teammatePositions, s.teammateNames);
      var k := if ok then |s.teammatePositions| else |s.teammateNames|;
      forall i, j | 0 <= i < Size && 0 <= j < Size ensures gameMap[i, j] == Players(g, s, playerName, k, i, j) {
        assert old@Named(gameMap[i, j]) ==
          if (i, j) == p then playerName else if InWindow(p, i, j) then "None" else g[i][j];
      }
      if !ok {
        board := RelabelCut(g, s, playerName);
        return;
      }
      label Teamed:
      PlaceItems(s);
      forall i, j | 0 <= i < Size && 0 <= j < Size ensures gameMap[i, j] == Labelled(g, s, playerName, i, j) {
        ghost var before := old@Teamed(gameMap[i, j]);
        assert before == Players(g, s, playerName, |s.teammatePositions|, i, j);
        assert gameMap[i, j] == if (i, j) in s.coin3 then "Coin3"
                                else if (i, j) in s.coin2 then "Coin2"
                                else if (i, j) in s.coin1 then "Coin1"
                                else if (i, j) in s.walls then "Wall"
                                else if (i, j) in s.enemyPositions then "Enemy"
                                else before;
      }
      board := Relabel(g, s, playerName);
    }

    /** The loops writing enemies, walls and the three coin kinds, in that order. */
    method PlaceItems(s: Snapshot)
      requires Sized()
      modifies gameMap
      ensures forall i, j | 0 <= i < Size && 0 <= j < Size ::
        gameMap[i, j] == if (i, j) in s.coin3 then "Coin3"
                         else if (i, j) in s.coin2 then "Coin2"
                         else if (i, j) in s.coin1 then "Coin1"
                         else if (i, j) in s.walls then "Wall"
                         else if (i, j) in s.enemyPositions then "Enemy"
                         else old(gameMap[i, j])
    {
      Place(s.enemyPositions, "Enemy");
      Place(s.walls, "Wall");
      Place(s.coin1, "Coin1");
      Place(s.coin2, "Coin2");
      Place(s.coin3, "Coin3");
    }

    /** The loops resetting the window: every cell in it becomes "None", every other cell is kept. */
    method ResetWindow(p: Pos)
      requires Sized()
      modifies gameMap
      ensures forall i, j | 0 <= i < Size && 0 <= j < Size ::
        gameMap[i, j] == if InWindow(p, i, j) then "None" else old(gameMap[i, j])
    {
      var minX, maxX := Max(p.0 - VisionRadius, 0), Min(p.0 + VisionRadius, Size);
      var minY, maxY := Max(p.1 - VisionRadius, 0), Min(p.1 + VisionRadius, Size);
      for x := minX to maxX
        invariant forall i, j | 0 <= i < Size && 0 <= j < Size ::
          gameMap[i, j] == if minX <= i < x && minY <= j < maxY then "None" else old(gameMap[i, j])
      {
        for y := minY to maxY
          invariant forall i, j | 0 <= i < Size && 0 <= j < Size ::
            gameMap[i, j] == if (minX <= i < x && minY <= j < maxY) || (i == x && minY <= j < y) then "None"
                             else old(gameMap[i, j])
        {
          gameMap[x, y] := "None";
        }
      }
    }

    /**
     * The loop writing teammate names: the i-th position gets the i-th name,
     * later ones overwriting earlier ones. Looking up a name past the end
     * of the names fails, after the teammates before it were written.
     */
    method PlaceTeammates(positions: seq<Pos>, names: seq<string>) returns (ok: bool)
      requires Sized()
      modifies gameMap
      ensures ok <==> |positions| <= |names|
      ensures var k := if ok then |positions| else |names|;
        k <= |positions| && k <= |names| &&
        forall i, j | 0 <= i < Size && 0 <= j < Size ::
          gameMap[i, j] == match LastTeammate(positions[..k], names, (i, j))
                           case Some(n) => n
                           case None => old(gameMap[i, j])
    {
      var i := 0;
      while i < |positions|
        invariant 0 <= i <= |positions| && i <= |names|
        invariant forall x, y | 0 <= x < Size && 0 <= y < Size ::
          gameMap[x, y] == match LastTeammate(positions[..i], names, (x, y))
                           case Some(n) => n
                           case None => old(gameMap[x, y])
      {
        if i >= |names| {
          return false;
        }
        gameMap[positions[i].0, positions[i].1] := names[i];
        assert positions[..i + 1][..i] == positions[..i];
        i := i + 1;
      }
      return true;
    }

    /** The loops writing enemies, walls and coins: every listed cell gets `text`, every other cell is kept. */
    method Place(cells: seq<Pos>, text: string)
      requires Sized()
      modifies gameMap
      ensures forall i, j | 0 <= i < Size && 0 <= j < Size ::
        gameMap[i, j] == if (i, j) in cells then text else old(gameMap[i, j])
    {
      for k := 0 to |cells|
        invariant forall i, j | 0 <= i < Size && 0 <= j < Size ::
          gameMap[i, j] == if (i, j) in cells[..k] then text else old(gameMap[i, j])
      {
        gameMap[cells[k].0, cells[k].1] := text;
        assert cells[..k + 1] == cells[..k] + [cells[k]];
      }
      assert cells[..|cells|] == cells;
    }

    /**
     * One pass of the turn loop: wait for a move to be due; stop once the
     * game is no longer running; otherwise rebuild the map, prompt for a
     * key, clear the due-flag, and publish the key's move.
     */
    method TurnStep(playerName: string, typed: seq<string>) returns (t: Turn)
      requires Valid()
      modifies this`board, gameMap, this`nextMove
      ensures Valid()
      ensures !old(nextMove) ==> t == Waiting && unchanged(this) && unchanged(gameMap)
      ensures old(nextMove) && !old(gameRunning) ==> t == Finished && unchanged(this) && unchanged(gameMap)
      ensures old(nextMove) && old(gameRunning) && old(gameState).None? ==> t == NoSnapshot && unchanged(this)
      ensures old(nextMove) && old(gameRunning) && old(gameState).Some? ==>
                (t == Unnamed <==> |gameState.value.teammateNames| < |gameState.value.teammatePositions|)
      ensures old(nextMove) && old(gameRunning) && old(gameState).Some? && t != Unnamed ==>
                (t == NoKey <==> forall i | 0 <= i < |typed| :: Upper(typed[i]) !in Moves)
      ensures old(nextMove) && old(gameRunning) && old(gameState).Some? ==> t.Unnamed? || t.NoKey? || t.Emitted?
      ensures t.Emitted? ==> !nextMove && exists d :: t.move == Name(d)
      ensures t.Emitted? ==>
                exists i :: 0 <= i < |typed| && Upper(typed[i]) in Moves &&
                  t.move == Moves[Upper(typed[i])] && forall j | 0 <= j < i :: Upper(typed[j]) !in Moves
      ensures t.Emitted? ==> board == Relabel(old(board), gameState.value, playerName)
      ensures t == Unnamed ==> nextMove && board == RelabelCut(old(board), gameState.value, playerName)
      ensures t == NoKey ==> nextMove && board == Relabel(old(board), gameState.value, playerName)
    {
      if !nextMove {
        return Waiting;
      }
      if !gameRunning {
        return Finished;
      }
      if gameState.None? {
        return NoSnapshot;
      }
      var ok := ConstructMap(playerName);
      if !ok {
        return Unnamed;
      }
      var m := MovePrompt(typed);
      if m.None? {
        return NoKey;
      }
      nextMove := false;
      var d := KeyDirection(m.value);
      t := Emitted(Moves[m.value]);
    }
  }
}
