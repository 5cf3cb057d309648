# Coin-game clients in Dafny

A model of the two clients of a turn-based coin-collection game on a 10x10 board. Both clients talk to the game server over MQTT.

- `AIPlayerClient.py` is the autonomous agent. Each turn it does three things:
  - it folds the server's snapshot into a belief map of the board;
  - it runs a breadth-first search from its position to the nearest coin it believes in;
  - it publishes the first step of that route, or falls back to a wall-following heading when no coin can be reached.
- `PlayerClient.py` is the human-driven client. Each turn it labels a map of the board from the snapshot, prompts for one of the keys W, A, S or D, and publishes the matching move.

Both clients share the message handler (`on_message`). The handler rewrites three flags: whether the game is running, whether a move is due, and the latest snapshot.

The model has these modules:

- `Game`: coordinates, the snapshot, and the vision window.
- `Signals`: the message handler, as a function on the three flags.
- `Navigation`: cells, directions, the belief grid as a value, and the wall-follower.
- `Reachability`: a reference description of the coin search that uses no queue. It defines:
  - `Reach`: the cells reachable within k steps through open cells;
  - `NearestDistance`: the distance to the nearest coin;
  - `ReferenceMove`: the first direction, in the order Up, Down, Left, Right, that starts a shortest route to a nearest coin.
- `SearchInvariant` and `SearchTree`: the invariant of the search loops, and the lemmas that each loop step keeps it.
- `AIPlayerClient`: the class `AIPlayer`. Its fields are the source's globals, and its belief map is an `array2<Cell>`. Its methods are the source's functions, written as loops over that array:
  - `Bfs` is proved to return exactly `ReferenceMove` of the belief map;
  - `GenRandomMove` is proved to return the wall-follower's choice.
- `PlayerClient`: the class `Player`, with a labelled `array2<string>` map, the key table, and the move prompt.

Both clients reset the window `range(max(p - 2, 0), min(p + 2, 10))` in each coordinate. Because the upper bound is exclusive, the reset covers the rows and columns from two before the player to one after it. The row and the column two after the player are never reset. See `Game.InWindow` and `Game.WindowExtent`.

`Bfs` and `move_from_path` have these semantics:

- A coin is recorded, and the search stops, when the coin is first *seen* as a neighbour, not when it is dequeued.
- A coin on the start cell is not a target, because the start is explored before any neighbour is looked at.
- `MoveFromPath` follows the `previous` links back to the cell entered from the start.

With those semantics, the proof shows that the answer is the first step of a shortest route to a nearest coin, with ties broken by the order of `directions`.

## Model

| member | source | states |
|---|---|---|
| Game.WindowExtent | AIPlayerClient.py:113-121 | A cell is reset exactly when it is on the board and lies from two before to one after the player in both coordinates. The +2 row and column are never reset, and the player's own cell always is. |
| Game.InWindow | AIPlayerClient.py:113-121 | Every cell of the reset window is on the board and at most two rows and two columns from the player. |
| Game.ValidCoord | AIPlayerClient.py:154-155 | A definition without a contract: both coordinates lie in 0 to 9. |
| Signals.OnMessage | AIPlayerClient.py:56-77 | The handler (the same in PlayerClient.py:59-79) never takes back a due move. It makes a move due only on an error payload or a game state. It starts the game only on "START" at the start channel. It replaces the snapshot only with a game-state message's decoded snapshot. |
| Signals.SuffixesExclusive | AIPlayerClient.py:71-77 | No topic ends in two of `/lobby`, `/game_state` and `/start`, so at most one branch of the handler's `elif` chain can apply. |
| Signals.GameOverIsNotError | AIPlayerClient.py:68-72 | The game-over sentinel does not contain "Error", so it does not also trigger the error rule. |
| Signals.ErrorHalts | AIPlayerClient.py:68-70 | A payload containing "Error", on any topic, leaves a move due and the game stopped. |
| Signals.GameOverStops | AIPlayerClient.py:71-72 | The lobby's game-over string clears `game_running` and changes nothing else. |
| Signals.GameStateArrives | AIPlayerClient.py:73-75 | A game-state message makes a move due and stores the decoded snapshot (keeping the old one when decoding fails). It keeps `game_running` unless the payload is an error. |
| Signals.StartRuns | AIPlayerClient.py:76-77 | "START" on the start channel sets `game_running` and changes nothing else. |
| Signals.OtherMessagesIgnored | AIPlayerClient.py:68-77 | Any other message without an error payload leaves the three flags unchanged. |
| Signals.SnapshotOnlyFromGameState | AIPlayerClient.py:73-75 | The stored snapshot changes only on a game-state message that decodes, and then becomes that snapshot. |
| Navigation.DirectionOf | AIPlayerClient.py:164-169 | `direction_mapping` is defined exactly on the four unit steps, and maps each step to the direction whose step it is. |
| Navigation.DirectionOfDelta | AIPlayerClient.py:157-169 | Looking up a direction's own step gives the direction back. Each direction sits at its rank in `directions`. |
| Navigation.DirectionsRanked | AIPlayerClient.py:157-162 | The i-th entry of `directions` has rank i. |
| Navigation.Delta | AIPlayerClient.py:157-162 | A definition without a contract: the (row, column) step of each direction. `DirectionOfDelta` and `RotateQuarterTurn` state its properties. |
| Navigation.Name | AIPlayerClient.py:164-169 | A definition without a contract: the token `direction_mapping` gives each direction. `NamesDistinct` and `PlayerClient.NamesUpper` state its properties. |
| Navigation.NamesDistinct | AIPlayerClient.py:164-169 | The four move tokens are distinct, so a token names exactly one direction. |
| Navigation.Rotate | AIPlayerClient.py:199-207 | A turn always changes the heading and never reverses it. |
| Navigation.RotateQuarterTurn | AIPlayerClient.py:199-207 | A turn rotates the step a quarter turn: (dx, dy) becomes (-dy, dx), so UP, LEFT, DOWN, RIGHT follow each other counter-clockwise. |
| Navigation.TurnsCover | AIPlayerClient.py:199-207 | Four counter-clockwise turns bring a heading back, and the first four headings cover all four directions. |
| Navigation.FirstOpenHeading | AIPlayerClient.py:198-209 | The first of the headings turned through within a budget whose neighbour is open. Every heading before it is blocked; None means all are blocked. |
| Navigation.NextOpenHeading | AIPlayerClient.py:193-210 | The fallback's choice. It is None exactly when all four neighbours are blocked, and otherwise leads into an open cell. |
| Navigation.KeepsOpenHeading | AIPlayerClient.py:198 | A heading whose neighbour is open is kept. |
| Navigation.BlockedHeadingTurns | AIPlayerClient.py:198-209 | A blocked heading is replaced by the choice made from the next heading counter-clockwise. |
| Navigation.FirstOpenIs | AIPlayerClient.py:198-210 | The choice is the heading reached after t turns when that heading is open and every heading before it is blocked. |
| Navigation.AllBlocked | AIPlayerClient.py:198-209 | With all four headings blocked there is no choice, and the heading has come back to where it began. |
| Navigation.FallbackTurnsAtMostThree | AIPlayerClient.py:198-210 | With some open neighbour, the fallback settles after at most three turns, on the first open heading in turning order. |
| Reachability.ReachGrows | AIPlayerClient.py:140-151 | One step from a cell reached within k steps into an open cell is reached within k + 1 steps. |
| Reachability.ReachPredecessor | AIPlayerClient.py:140-151 | A cell first reached at radius k + 1 is open and is entered from a cell reached within k steps. |
| Reachability.ReachMonotone | AIPlayerClient.py:138-151 | What is reached within j steps is reached within any k >= j steps. |
| Reachability.ReachOpen | AIPlayerClient.py:143-147 | Every cell the search can enter, other than the start, is on the board and not an obstacle. |
| Reachability.ReachTransitive | AIPlayerClient.py:138-151 | Routes compose: i steps to a, then j steps from a, reach within i + j steps. |
| Reachability.ReachFirstStep | AIPlayerClient.py:140-151 | A cell other than the start reached within k + 1 steps is reached within k steps from one of the start's open neighbours. |
| Reachability.RouteParent | AIPlayerClient.py:140-151 | A cell first reached at radius k + 1 by a route leaving in direction e is entered from a cell first reached at radius k by a route leaving in direction e. |
| Reachability.CoinWithinMonotone | AIPlayerClient.py:131-152 | A coin within j steps is within any k >= j steps. |
| Reachability.LeastCoinRadius | AIPlayerClient.py:131-152 | The smallest radius that still holds a coin. |
| Reachability.NearestDistance | AIPlayerClient.py:131-152 | The distance to the nearest coin is at least 1: a coin lies within it and none within one step less. |
| Reachability.NearestIs | AIPlayerClient.py:131-152 | The nearest distance is the one radius that holds a coin when the radius below does not. |
| Reachability.LeadsFirst | AIPlayerClient.py:140-151 | Stepping into an open neighbour of the start leads there in one step. |
| Reachability.LeadsGrows | AIPlayerClient.py:140-151 | A route leaving the start in direction d extends by one step into an open cell and still leaves in direction d. |
| Reachability.LeadsReach | AIPlayerClient.py:140-151 | A route that leaves the start in a given direction reaches its end from the start within as many steps. |
| Reachability.FirstStepToward | AIPlayerClient.py:157-162 | The first direction, in the order of `directions`, that leads to a cell in k steps. No earlier direction leads there, and None means none does. |
| Reachability.FirstStepIsFirst | AIPlayerClient.py:157-162 | Every direction that leads to the cell ranks no earlier than the first one. |
| Reachability.FirstStepFrom | AIPlayerClient.py:157-162 | A direction that leads to the cell, with no earlier direction leading there, is the first one. |
| Reachability.NearestIsLed | AIPlayerClient.py:131-152 | When a coin is reachable, some direction starts a shortest route to a nearest coin. |
| Reachability.ReferenceMoveExists | AIPlayerClient.py:131-152 | There is a reference move exactly when some coin other than the start is reachable. |
| Reachability.ReferenceMoveLeads | AIPlayerClient.py:131-152 | The reference move leads to a coin at the nearest distance. |
| Reachability.ReferenceMove | AIPlayerClient.py:131-152 | The reference definition, without a contract: the first direction, in the order of `directions`, that starts a shortest route to a nearest coin, or None when no coin is reachable. `ReferenceMoveExists`, `ReferenceMoveLeads`, `ReferenceMoveIsShortest`, `ReferenceMoveIsFirst` and `ReferenceMoveFrom` state its properties. |
| Reachability.ReferenceMoveIsShortest | AIPlayerClient.py:131-152 | The reference move enters an open cell from which a coin is one step closer than the nearest distance, and no coin lies closer to the start. |
| Reachability.ReferenceMoveIsFirst | AIPlayerClient.py:157-162 | No direction earlier in `directions` than the reference move starts a shortest route to a nearest coin. |
| Reachability.ReferenceMoveFrom | AIPlayerClient.py:131-152 | The reference move is whichever direction is first among those leading to a nearest coin. |
| Reachability.CoinFirstReached | AIPlayerClient.py:131-152 | A coin first reached one step beyond a radius that holds no coin, by a route leaving in direction d, with no earlier direction leading to a coin that far, makes d the reference move. |
| SearchTree.KeyDepth | AIPlayerClient.py:138-151 | A recorded cell's queue key is four times its depth plus a rank below four. |
| SearchTree.Covered | AIPlayerClient.py:138-151 | Once every explored cell shallower than k is expanded, every cell reachable within k steps is explored at depth at most k. |
| SearchTree.ExpandingBelow | AIPlayerClient.py:138-151 | While a cell is expanded, every explored cell with a smaller key has already been expanded. |
| SearchTree.ShallowBelow | AIPlayerClient.py:138-151 | While a cell is expanded, every explored cell shallower than it has already been expanded. |
| SearchTree.Init | AIPlayerClient.py:132-137 | The initial queue `[start]`, with only the start explored and no links, satisfies the outer loop invariant. |
| SearchTree.BeginExpand | AIPlayerClient.py:138-139 | Popping the head of the queue starts its expansion with the invariant intact. |
| SearchTree.BeginDuring | AIPlayerClient.py:139 | After the pop, each explored cell is expanded, still queued, or the popped cell. |
| SearchTree.BeginOrdered | AIPlayerClient.py:139 | After the pop, the rest of the queue is sorted and no key in it is below the popped cell's. |
| SearchTree.EndExpand | AIPlayerClient.py:140-151 | After all four neighbours are looked at, the cell joins the expanded cells and the outer invariant holds again. |
| SearchTree.EndClosed | AIPlayerClient.py:140-151 | An expanded cell's open neighbours are all explored, at most one step deeper. |
| SearchTree.EndQueued | AIPlayerClient.py:138-151 | Between expansions the queue spans at most one depth, in key order, behind the expanded cells. |
| SearchTree.SkipNeighbor | AIPlayerClient.py:143-146 | Passing over a neighbour that is off the board, an obstacle, or already explored keeps the inner loop invariant. |
| SearchTree.SkipDepth | AIPlayerClient.py:146 | An already explored open neighbour is at most one step deeper than the cell being expanded. |
| SearchTree.SkipOrdered | AIPlayerClient.py:140 | Looking at one more neighbour without queueing anything keeps the queue order. |
| SearchTree.FirstReachedDepth | AIPlayerClient.py:138-151 | A cell first reached at radius k is explored at depth exactly k, once every shallower cell is expanded. |
| SearchTree.ParentExpanded | AIPlayerClient.py:138-151 | The radius-k cell on a route through an earlier-ranked direction has a smaller key than the cell being expanded, and so is already expanded. |
| SearchTree.EarlierExploredDeeper | AIPlayerClient.py:140-151 | Away from the start, a cell first reached one step beyond the current depth by an earlier-ranked direction is already explored. |
| SearchTree.EarlierExploredAtStart | AIPlayerClient.py:140-147 | At the start, a neighbour in a direction ranked before the current one is already explored. |
| SearchTree.EarlierExplored | AIPlayerClient.py:140-151 | Both cases of the tie-break: a route through an earlier-ranked direction can only end in a cell already explored. |
| SearchTree.NewNeighborReached | AIPlayerClient.py:146-148 | An unexplored open neighbour is first reached one step beyond the current depth, through a route leaving in the direction inherited from the current cell. |
| SearchTree.NewRoot | AIPlayerClient.py:146-148 | The inherited direction is the first direction, in the order of `directions`, that reaches the new neighbour at its depth. |
| SearchTree.NoEarlierRoute | AIPlayerClient.py:146-148 | No earlier-ranked direction reaches the new neighbour at its depth, so the inherited direction is the first. |
| SearchTree.LinkedExtend | AIPlayerClient.py:147-148 | Recording `previous[neighbor] = current` keeps every link going to a shallower cell with the same first direction, down to the start. |
| SearchTree.TreeExtend | AIPlayerClient.py:147-148 | Recording an unexplored open non-coin neighbour keeps the search tree. |
| SearchTree.ReachedExtend | AIPlayerClient.py:147 | Recording a cell at a radius within which it is reached keeps every explored cell reached within its depth. |
| SearchTree.RootedExtend | AIPlayerClient.py:148 | Recording a cell with its first direction keeps every recorded cell's first direction. |
| SearchTree.ClosedExtend | AIPlayerClient.py:147 | Exploring a new cell leaves every expanded cell closed. |
| SearchTree.DuringExtend | AIPlayerClient.py:147-151 | Exploring and queueing a neighbour keeps every explored cell expanded, queued, or current. |
| SearchTree.OrderedExtend | AIPlayerClient.py:151 | Appending the neighbour keeps the queue sorted by key and within four of the current key (for the start, within the directions looked at so far). |
| SearchTree.KeysKept | AIPlayerClient.py:147-148 | Recording one cell changes no other cell's key. |
| SearchTree.SortedAppend | AIPlayerClient.py:151 | Appending a cell whose key is at least every queued key keeps the queue sorted. |
| SearchTree.LookedExtend | AIPlayerClient.py:140-151 | The new neighbour counts as looked at, one step deeper. |
| SearchTree.DiscoverTree | AIPlayerClient.py:146-151 | Recording an unexplored open non-coin neighbour keeps the tree, with its first direction. |
| SearchTree.Discover | AIPlayerClient.py:146-151 | Recording and queueing such a neighbour keeps the inner loop invariant for the next direction. |
| SearchTree.NoCoinWithin | AIPlayerClient.py:138-151 | With every shallower cell expanded and no explored cell but the start a coin, no coin is within the current depth. |
| SearchTree.NoEarlierCoin | AIPlayerClient.py:140-150 | No earlier-ranked direction leads to a coin one step beyond the current depth. |
| SearchTree.FoundCoin | AIPlayerClient.py:149-150 | The first coin seen as a neighbour gives links that `move_from_path` can follow, and the direction its route inherits is the reference move. |
| SearchTree.Exhausted | AIPlayerClient.py:138-152 | An empty queue means every reachable cell was explored and none is a coin, so the reference move is None. |
| AIPlayerClient.ObserveIdempotent | AIPlayerClient.py:105-129 | Taking the same snapshot into the map twice gives the same map as taking it in once. |
| AIPlayerClient.ObserveShowsCoins | AIPlayerClient.py:127-129 | Every coin of the snapshot is believed to be a coin: coins are written last. |
| AIPlayerClient.ObserveShowsObstacles | AIPlayerClient.py:124-126 | Every wall, teammate and enemy without a coin on its cell is believed blocked. |
| AIPlayerClient.ObserveForgetsWindow | AIPlayerClient.py:118-123 | An unmentioned cell in the window is believed empty, or the player's own. An unmentioned cell outside it keeps its old belief. |
| AIPlayerClient.ObserveStaleOnlyOutside | AIPlayerClient.py:118-129 | A coin or obstacle belief that the snapshot does not mention can only be stale, left over from before, outside the window. |
| AIPlayerClient.Observed | AIPlayerClient.py:105-129 | A listed coin is believed a coin. A coin or obstacle belief comes from the snapshot, or is an old belief outside the window. A player belief is the player's own cell, or an old belief outside the window. |
| AIPlayerClient.Observe | AIPlayerClient.py:105-129 | A definition without a contract: `construct_map` on the belief map as a value, cell by cell `Observed`. `ObserveShowsCoins`, `ObserveShowsObstacles`, `ObserveForgetsWindow`, `ObserveStaleOnlyOutside` and `ObserveIdempotent` state its properties. |
| AIPlayerClient.MoveFromPath | AIPlayerClient.py:171-177 | Walking the links back from the coin ends at the cell entered from the start, and the move named is the coin's first direction. |
| AIPlayerClient.AIPlayer.constructor | AIPlayerClient.py:11-14 | At start-up the game is not running, no move is due, there is no snapshot, every cell is unknown, and the fallback heading is up (`dir = directions[0]`, AIPlayerClient.py:192). |
| AIPlayerClient.AIPlayer.OnMessage | AIPlayerClient.py:57-77 | The three flags move exactly as the shared handler says. |
| AIPlayerClient.AIPlayer.ConstructMap | AIPlayerClient.py:105-129 | The array afterwards holds the old belief map updated by the stored snapshot. |
| AIPlayerClient.AIPlayer.ResetWindow | AIPlayerClient.py:113-121 | Exactly the window's cells become unknown, and every other cell is kept. |
| AIPlayerClient.AIPlayer.Place | AIPlayerClient.py:124-129 | Exactly the listed cells get the given belief, and every other cell is kept. |
| AIPlayerClient.AIPlayer.Bfs | AIPlayerClient.py:131-152 | The search returns the reference move: the first direction of a shortest route to a nearest coin, or None when no coin is reachable. |
| AIPlayerClient.AIPlayer.ExpandNeighbors | AIPlayerClient.py:140-151 | Looking at all four neighbours either ends with the reference move or keeps the invariant with the current cell fully looked at. |
| AIPlayerClient.AIPlayer.VisitNeighbor | AIPlayerClient.py:141-151 | Looking at one neighbour either ends with the reference move (a coin) or keeps the invariant for the next direction. Nothing is queued unless something new was explored. |
| AIPlayerClient.AIPlayer.Blocked | AIPlayerClient.py:198 | The fallback's test holds exactly when the cell is off the board or believed an obstacle. |
| AIPlayerClient.AIPlayer.GenRandomMove | AIPlayerClient.py:192-210 | The heading returned is the fallback's choice from the old heading, and the stored heading becomes it. |
| AIPlayerClient.AIPlayer.MakeMove | AIPlayerClient.py:179-190 | After the map update, the move is the reference move when a coin is reachable (heading untouched), and otherwise the fallback's choice. Any move returned enters an open cell. |
| AIPlayerClient.AIPlayer.TurnStep | AIPlayerClient.py:259-271 | One pass of the turn loop. It waits while no move is due and stops once the game is over. Otherwise it updates the map and publishes the name of the move `make_move` decides: the reference move when a coin is reachable, else the fallback's choice from the old heading. A published move clears the due-flag, and the heading changes only when the fallback chose. With every neighbour blocked the turn is `Stuck`, and the move stays due. |
| PlayerClient.KeyDirection | PlayerClient.py:13-18 | Each key's move token is the name of the direction it stands for. |
| PlayerClient.MovesAreDirections | PlayerClient.py:13-18 | The key table is a bijection between the four keys and the four directions. |
| PlayerClient.Upper | PlayerClient.py:110 | Upper-casing keeps the length and leaves no lower-case ASCII letter. Each character is kept, or is a lower-case letter that becomes its capital. |
| PlayerClient.UpperIdempotent | PlayerClient.py:110 | Upper-casing an upper-cased line changes nothing. |
| PlayerClient.NamesUpper | PlayerClient.py:13-18 | Every move token is already upper case. |
| PlayerClient.AcceptedLines | PlayerClient.py:102-110 | A typed line is accepted exactly when it is one of W, A, S, D in either case. |
| PlayerClient.MovePrompt | PlayerClient.py:100-111 | The prompt returns a key of the table, namely the first accepted line upper-cased. It returns None exactly when no line typed is accepted. |
| PlayerClient.LastTeammate | PlayerClient.py:137-140 | The name on a cell is that of the last teammate listed there, and there is none when no teammate stands on it. |
| PlayerClient.Labelled | PlayerClient.py:120-152 | A listed coin cell gets a coin label. A cell no list mentions gets the player's name on the player's cell, "None" elsewhere in the window, and its old label outside the window. |
| PlayerClient.Relabel | PlayerClient.py:120-152 | A definition without a contract: `construct_map(name)` on the labelled map as a value, cell by cell `Labelled`. `CoinsWin`, `TeammateNamed`, `UnlistedCells` and `RelabelIdempotent` state its properties. |
| PlayerClient.RelabelCut | PlayerClient.py:120-140 | When a teammate has no name, nothing outside the window changes except cells of named teammates. The player's cell carries the player's name unless a named teammate stands on it. |
| PlayerClient.RelabelIdempotent | PlayerClient.py:120-152 | Labelling twice with the same snapshot and name gives the same map as labelling once. |
| PlayerClient.CoinsWin | PlayerClient.py:141-152 | Later writes win: Coin3 over Coin2 over Coin1 over walls over enemies. |
| PlayerClient.TeammateNamed | PlayerClient.py:136-140 | A teammate's cell carries that teammate's name unless a later teammate, an enemy, a wall or a coin is written over it. |
| PlayerClient.UnlistedCells | PlayerClient.py:126-136 | An unlisted cell in the window is "None", or the player's name on the player's cell. An unlisted cell outside the window keeps its old label. |
| PlayerClient.Player.constructor | PlayerClient.py:9-12 | At start-up every cell is "None", the game is not running, and no move is due. |
| PlayerClient.Player.OnMessage | PlayerClient.py:59-79 | The three flags move exactly as the shared handler says. |
| PlayerClient.Player.ConstructMap | PlayerClient.py:120-152 | The array afterwards holds the labelled map for the stored snapshot. It fails exactly when a teammate position has no name, leaving the writes made before the failing lookup. |
| PlayerClient.Player.PlaceItems | PlayerClient.py:141-152 | Enemies, walls and the three coin kinds are written in that order, so the last write wins. |
| PlayerClient.Player.ResetWindow | PlayerClient.py:126-134 | Exactly the window's cells become "None", and every other cell is kept. |
| PlayerClient.Player.PlaceTeammates | PlayerClient.py:137-140 | Each teammate position gets its name, later ones over earlier ones. The loop fails exactly when names run out, after writing the teammates before that point. |
| PlayerClient.Player.Place | PlayerClient.py:141-152 | Exactly the listed cells get the given label, and every other cell is kept. |
| PlayerClient.Player.TurnStep | PlayerClient.py:201-213 | One pass of the turn loop. It waits while no move is due and stops once the game is over. Otherwise the turn ends in exactly one of three ways: an unnamed teammate, a console without a key, or the published move of the first key typed, which clears the due-flag. An unnamed teammate leaves the partly relabelled map, and a console without a key leaves the relabelled map. Both leave the move due. |

## Left out

- MQTT: the connection, TLS, credentials, subscriptions and the logging callbacks (`on_connect`, `on_publish`, `on_subscribe`) are not modelled. Publishing a move is modelled as the `Emitted` outcome of a turn, which carries the move token.
- Threads and timing: the broker's callback thread and the `time.sleep` calls are not modelled. A turn is modelled one pass at a time (`TurnStep`), with messages arriving between passes (`OnMessage`).
- The first wait loop, for `game_running` (AIPlayerClient.py:256-257, PlayerClient.py:198-199), is not modelled.
- The lobby's STOP message (AIPlayerClient.py:272-274) is not modelled.
- `lobby_prompt` and `print_map` are console input and output, and are not modelled.
- JSON decoding is not modelled: a message carries the snapshot it decodes to, or None. None covers both a payload that does not parse and one that parses to something other than a snapshot. For a `/game_state` payload `null`, AIPlayerClient.py:75 and PlayerClient.py:77 store `None`, and the next turn raises a TypeError. The model keeps the old snapshot instead. Snapshot coordinates are on the board (`Pos`). Python would read off-board or negative indices differently.
- The unused globals `coins` and `walls` (AIPlayerClient.py:15-16) are not modelled.
- AIPlayerClient.AIPlayer.GenRandomMove: with all four neighbours blocked, the source turns forever. The model stops after four turns and returns None, with the heading back where it began.
- AIPlayerClient.AIPlayer.TurnStep: a due move with no snapshot stored makes the source raise a TypeError. The model reports `NoSnapshot` and changes nothing. A turn stuck in the endless fallback is reported as `Stuck`.
- PlayerClient.Player.TurnStep: the console is a finite sequence of typed lines. When the lines run out before a key is typed, the model reports `NoKey` and leaves the move due. At an open terminal the source would wait for more input. At the end of its input, Python's `input()` raises EOFError and the loop dies. An unnamed teammate raises an IndexError in the source; the model reports `Unnamed` with the map as far as it got.
- PlayerClient.Upper: upper-cases ASCII letters only. Python's `upper()` also maps other characters: the long s `ſ` becomes `S`, so the source accepts that line as a key and the model does not.
- PlayerClient.AcceptedLines: inherits the ASCII-only `Upper`. A typed `ſ` line, which PlayerClient.py:100-110 accepts as `S`, is rejected.
- PlayerClient.MovePrompt: inherits the ASCII-only `Upper`. A typed `ſ` line does not end the prompt, where PlayerClient.py:100-110 accepts it as the key `S`.
