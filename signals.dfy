/**
 * The message handler both clients register with the broker. Each inbound
 * message rewrites three pieces of shared state: whether the game is
 * running, whether a move is due, and the latest snapshot.
 */
module Signals {
  import opened Game

  /** The payload the lobby channel carries when the game is over. */
  const GameOver: string := "Game Over: All coins have been collected"

  /** The three globals the handler rewrites. */
  datatype Flags = Flags(gameRunning: bool, nextMove: bool, gameState: Option<Snapshot>)

  /**
   * An inbound message: its topic, its decoded payload text, and the
   * snapshot the payload decodes to when it is a well-formed game state
   * (JSON decoding itself happens outside this model).
   */
  datatype Message = Message(topic: string, payload: string, snapshot: Option<Snapshot>)

  /** Python's `sub in s` on strings. */
  predicate Contains(s: string, sub: string)
  {
    exists i :: 0 <= i <= |s| && sub <= s[i..]
  }

  /** Python's `s.endswith(suffix)`. */
  predicate EndsWith(s: string, suffix: string)
  {
    |suffix| <= |s| && s[|s| - |suffix|..] == suffix
  }

  /**
   * `on_message`: an error payload halts the game and releases the turn loop;
   * then the first matching rule of lobby game-over, game state, and start applies.
   * A game-state payload that fails to decode raises after `next_move` is
   * set, so the stored snapshot stays as it was.
   */
  function OnMessage(f: Flags, m: Message): (r: Flags)
    // the handler never takes a due move back; only make_move's caller does
    ensures f.nextMove ==> r.nextMove
    ensures r.nextMove && !f.nextMove ==> Contains(m.payload, "Error") || EndsWith(m.topic, "/game_state")
    ensures r.gameRunning && !f.gameRunning ==> EndsWith(m.topic, "/start") && m.payload == "START"
    ensures r.gameState == f.gameState || (EndsWith(m.topic, "/game_state") && r.gameState == m.snapshot)
  {
    var f1 := if Contains(m.payload, "Error") then f.(nextMove := true, gameRunning := false) else f;
    if EndsWith(m.topic, "/lobby") && m.payload == GameOver then
      f1.(gameRunning := false)
    else if EndsWith(m.topic, "/game_state") then
      f1.(nextMove := true, gameState := if m.snapshot.Some? then m.snapshot else f1.gameState)
    else if EndsWith(m.topic, "/start") && m.payload == "START" then
      f1.(gameRunning := true)
    else
      f1
  }

  /** A string that ends in `suffix` ends in its last character. */
  lemma EndsWithLast(t: string, suffix: string)
    requires EndsWith(t, suffix) && |suffix| > 0
    ensures t[|t| - 1] == suffix[|suffix| - 1]
  {
    assert t[|t| - |suffix|..][|suffix| - 1] == t[|t| - 1];
  }

  /** No topic ends in two of the three channel suffixes at once. */
  lemma SuffixesExclusive(t: string)
    ensures !(EndsWith(t, "/lobby") && EndsWith(t, "/game_state"))
    ensures !(EndsWith(t, "/lobby") && EndsWith(t, "/start"))
    ensures !(EndsWith(t, "/game_state") && EndsWith(t, "/start"))
  {
    if EndsWith(t, "/lobby") { EndsWithLast(t, "/lobby"); }
    if EndsWith(t, "/game_state") { EndsWithLast(t, "/game_state"); }
    if EndsWith(t, "/start") { EndsWithLast(t, "/start"); }
  }

  /** A string lacking the first character of `sub` does not contain `sub`. */
  lemma LacksFirst(s: string, sub: string)
    requires |sub| > 0 && sub[0] !in s
    ensures !Contains(s, sub)
  {
    forall i | 0 <= i <= |s| && |sub| <= |s[i..]|
      ensures sub[0] != s[i..][0]
    {
      assert s[i..][0] == s[i];
    }
  }

  /** The game-over sentinel is not itself an error payload. */
  lemma GameOverIsNotError()
    ensures !Contains(GameOver, "Error")
  {
    var a, b, c, d := "Game Over: ", "All coins ", "have been ", "collected";
    assert GameOver == a + b + c + d;
    assert 'E' !in a && 'E' !in b && 'E' !in c && 'E' !in d;
    LacksFirst(GameOver, "Error");
  }

  /** A payload containing "Error", on any topic, stops the game and releases the turn loop. */
  lemma ErrorHalts(f: Flags, m: Message)
    requires Contains(m.payload, "Error")
    ensures OnMessage(f, m).nextMove
    ensures !OnMessage(f, m).gameRunning
  {
    LacksFirst("START", "Error");
  }

  /** The lobby's game-over string clears `gameRunning` and touches nothing else. */
  lemma GameOverStops(f: Flags, m: Message)
    requires EndsWith(m.topic, "/lobby") && m.payload == GameOver
    ensures OnMessage(f, m) == f.(gameRunning := false)
  {
    GameOverIsNotError();
  }

  /**
   * A game-state message raises `nextMove`, stores the decoded snapshot when
   * there is one, and leaves `gameRunning` alone unless the payload is an error.
   */
  lemma GameStateArrives(f: Flags, m: Message)
    requires EndsWith(m.topic, "/game_state")
    ensures OnMessage(f, m).nextMove
    ensures OnMessage(f, m).gameState == if m.snapshot.Some? then m.snapshot else f.gameState
    ensures OnMessage(f, m).gameRunning == (f.gameRunning && !Contains(m.payload, "Error"))
  {
    SuffixesExclusive(m.topic);
  }

  /** "START" on the start channel sets `gameRunning` and nothing else. */
  lemma StartRuns(f: Flags, m: Message)
    requires EndsWith(m.topic, "/start") && m.payload == "START"
    ensures OnMessage(f, m) == f.(gameRunning := true)
  {
    SuffixesExclusive(m.topic);
    LacksFirst("START", "Error");
  }

  /** Any other message without an error payload changes nothing. */
  lemma OtherMessagesIgnored(f: Flags, m: Message)
    requires !Contains(m.payload, "Error")
    requires !(EndsWith(m.topic, "/lobby") && m.payload == GameOver)
    requires !EndsWith(m.topic, "/game_state")
    requires !(EndsWith(m.topic, "/start") && m.payload == "START")
    ensures OnMessage(f, m) == f
  {
  }

  /** Only a game-state message can replace the stored snapshot. */
  lemma SnapshotOnlyFromGameState(f: Flags, m: Message)
    requires OnMessage(f, m).gameState != f.gameState
    ensures EndsWith(m.topic, "/game_state") && m.snapshot.Some?
    ensures OnMessage(f, m).gameState == m.snapshot
  {
  }
}
