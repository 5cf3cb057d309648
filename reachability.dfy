/**
 * A reference description of the coin search, independent of any queue:
 * the cells reachable from a start within k steps through open cells, the
 * distance to the nearest coin, and the move a nearest-coin search should make.
 */
module Reachability {
  import opened Game
  import opened Navigation

  /**
   * `v` can be reached from `s` in at most `k` steps, each step entering an
   * open cell (`s` itself need not be open).
   */
  ghost predicate Reach(g: Grid, s: Coord, k: nat, v: Coord)
    decreases k
  {
    if k == 0 then v == s
    else
      Reach(g, s, k - 1, v) ||
      (Open(g, v) &&
       (Reach(g, s, k - 1, Step(v, Up)) || Reach(g, s, k - 1, Step(v, Down)) ||
        Reach(g, s, k - 1, Step(v, Left)) || Reach(g, s, k - 1, Step(v, Right))))
  }

  /** One more step from a reached cell into an open cell is reached one radius further out. */
  lemma ReachGrows(g: Grid, s: Coord, k: nat, u: Coord, d: Direction)
    requires Reach(g, s, k, u) && Open(g, Step(u, d))
    ensures Reach(g, s, k + 1, Step(u, d))
  {
    assert Step(Step(u, d), Opposite(d)) == u;
  }

  /** A cell first reached at radius k + 1 was entered from a cell reached at radius k. */
  lemma ReachPredecessor(g: Grid, s: Coord, k: nat, v: Coord) returns (u: Coord, d: Direction)
    requires Reach(g, s, k + 1, v) && !Reach(g, s, k, v)
    ensures Reach(g, s, k, u) && Step(u, d) == v && Open(g, v)
  {
    if Reach(g, s, k, Step(v, Up)) { u, d := Step(v, Up), Down; }
    else if Reach(g, s, k, Step(v, Down)) { u, d := Step(v, Down), Up; }
    else if Reach(g, s, k, Step(v, Left)) { u, d := Step(v, Left), Right; }
    else { u, d := Step(v, Right), Left; }
  }

  lemma {:induction false} ReachMonotone(g: Grid, s: Coord, j: nat, k: nat, v: Coord)
    requires j <= k && Reach(g, s, j, v)
    ensures Reach(g, s, k, v)
    decreases k
  {
    if j < k {
      ReachMonotone(g, s, j, k - 1, v);
    }
  }

  /** Every reached cell other than the start is open. */
  lemma {:induction false} ReachOpen(g: Grid, s: Coord, k: nat, v: Coord)
    requires Reach(g, s, k, v) && v != s
    ensures Open(g, v)
    decreases k
  {
    if Reach(g, s, k - 1, v) {
      ReachOpen(g, s, k - 1, v);
    }
  }

  /** Reaching `a` in i steps and then `v` from `a` in j steps reaches `v` in i + j steps. */
  lemma {:induction false} ReachTransitive(g: Grid, s: Coord, a: Coord, i: nat, j: nat, v: Coord)
    requires Reach(g, s, i, a) && Reach(g, a, j, v)
    ensures Reach(g, s, i + j, v)
    decreases j
  {
    if j == 0 {
      assert v == a;
    } else {
      var m: nat := i + j - 1;
      if Reach(g, a, j - 1, v) {
        ReachTransitive(g, s, a, i, j - 1, v);
        ReachMonotone(g, s, m, m + 1, v);
      } else {
        var u, d := ReachPredecessor(g, a, j - 1, v);
        ReachTransitive(g, s, a, i, j - 1, u);
        ReachGrows(g, s, m, u, d);
        assert Step(u, d) == v;
      }
    }
  }

  /**
   * A cell other than the start reached within k + 1 steps is reached
   * within k steps from one of the start's open neighbours.
   */
  lemma {:induction false} ReachFirstStep(g: Grid, s: Coord, k: nat, v: Coord) returns (d: Direction)
    requires Reach(g, s, k + 1, v) && v != s
    ensures Open(g, Step(s, d)) && Reach(g, Step(s, d), k, v)
    decreases k
  {
    if Reach(g, s, k, v) {
      d := ReachFirstStep(g, s, k - 1, v);
      ReachMonotone(g, Step(s, d), k - 1, k, v);
    } else {
      var u, e := ReachPredecessor(g, s, k, v);
      if u == s {
        d := e;
        ReachMonotone(g, v, 0, k, v);
      } else {
        d := ReachFirstStep(g, s, k - 1, u);
        ReachGrows(g, Step(s, d), k - 1, u, e);
      }
    }
  }

  /**
   * A cell first reached at radius k + 1 by a route leaving `s` in direction
   * `e` is entered from a cell first reached at radius k by a route leaving
   * in the same direction.
   */
  lemma RouteParent(g: Grid, s: Coord, e: Direction, c: Coord, k: nat) returns (u: Coord, d: Direction)
    requires k >= 1 && Leads(g, s, e, c, k + 1) && !Reach(g, s, k, c)
    ensures Step(u, d) == c && Open(g, c) && u != s
    ensures Leads(g, s, e, u, k) && Reach(g, s, k, u) && !Reach(g, s, k - 1, u)
  {
    assert !Reach(g, Step(s, e), k - 1, c) by {
      if Reach(g, Step(s, e), k - 1, c) { LeadsReach(g, s, e, c, k); }
    }
    u, d := ReachPredecessor(g, Step(s, e), k - 1, c);
    LeadsReach(g, s, e, u, k);
    var j: nat := k - 1;
    if Reach(g, s, j, u) {
      ReachGrows(g, s, j, u, d);
      assert false;
    }
    if u == s {
      ReachMonotone(g, s, 0, k - 1, s);
      assert false;
    }
  }

  /** Some coin other than the start lies within k steps. */
  ghost predicate CoinWithin(g: Grid, s: Coord, k: nat)
  {
    exists c :: Reach(g, s, k, c) && c != s && IsCoin(g, c)
  }

  /** Some coin other than the start can be reached at all. */
  ghost predicate CoinReachable(g: Grid, s: Coord)
  {
    exists k: nat :: CoinWithin(g, s, k)
  }

  lemma CoinWithinMonotone(g: Grid, s: Coord, j: nat, k: nat)
    requires j <= k && CoinWithin(g, s, j)
    ensures CoinWithin(g, s, k)
  {
    var c :| Reach(g, s, j, c) && c != s && IsCoin(g, c);
    ReachMonotone(g, s, j, k, c);
  }

  /** The least radius from `k` downwards that still holds a coin. */
  ghost function LeastCoinRadius(g: Grid, s: Coord, k: nat): (r: nat)
    requires CoinWithin(g, s, k)
    ensures r <= k && CoinWithin(g, s, r)
    ensures r == 0 || !CoinWithin(g, s, r - 1)
    decreases k
  {
    if k > 0 && CoinWithin(g, s, k - 1) then LeastCoinRadius(g, s, k - 1) else k
  }

  /** The number of steps to the nearest coin other than the start. */
  ghost function NearestDistance(g: Grid, s: Coord): (r: nat)
    requires CoinReachable(g, s)
    ensures r >= 1 && CoinWithin(g, s, r) && !CoinWithin(g, s, r - 1)
  {
    var k: nat :| CoinWithin(g, s, k);
    var r := LeastCoinRadius(g, s, k);
    assert r != 0;
    r
  }

  /** The nearest distance is the one radius that holds a coin when the one below does not. */
  lemma NearestIs(g: Grid, s: Coord, n: nat)
    requires n >= 1 && CoinWithin(g, s, n) && !CoinWithin(g, s, n - 1)
    ensures CoinReachable(g, s) && NearestDistance(g, s) == n
  {
    var r := NearestDistance(g, s);
    if r < n {
      CoinWithinMonotone(g, s, r, n - 1);
    } else if r > n {
      CoinWithinMonotone(g, s, n, r - 1);
    }
  }

  /** Stepping in direction `d` out of `s` and then k - 1 more steps reaches `v`. */
  ghost predicate Leads(g: Grid, s: Coord, d: Direction, v: Coord, k: nat)
  {
    k >= 1 && Open(g, Step(s, d)) && Reach(g, Step(s, d), k - 1, v)
  }

  /** Stepping into an open neighbour of `s` leads there in one step. */
  lemma LeadsFirst(g: Grid, s: Coord, d: Direction)
    requires Open(g, Step(s, d))
    ensures Leads(g, s, d, Step(s, d), 1)
  {
  }

  /** A route leaving `s` in direction `d` extends by one more step into an open cell. */
  lemma LeadsGrows(g: Grid, s: Coord, d: Direction, u: Coord, k: nat, e: Direction)
    requires Leads(g, s, d, u, k) && Open(g, Step(u, e))
    ensures Leads(g, s, d, Step(u, e), k + 1)
  {
    ReachGrows(g, Step(s, d), k - 1, u, e);
  }

  /** The first direction, in the order Up, Down, Left, Right, that leads to `v` in k steps. */
  ghost function FirstStepToward(g: Grid, s: Coord, v: Coord, k: nat): (r: Option<Direction>)
    ensures r.Some? ==> Leads(g, s, r.value, v, k)
    ensures r.Some? ==> forall e | Rank(e) < Rank(r.value) :: !Leads(g, s, e, v, k)
    ensures r.None? ==> forall e :: !Leads(g, s, e, v, k)
  {
    if Leads(g, s, Up, v, k) then Some(Up)
    else if Leads(g, s, Down, v, k) then Some(Down)
    else if Leads(g, s, Left, v, k) then Some(Left)
    else if Leads(g, s, Right, v, k) then Some(Right)
    else None
  }

  /** The first direction toward `v` is ranked no later than any direction that leads there. */
  lemma FirstStepIsFirst(g: Grid, s: Coord, v: Coord, k: nat, d: Direction, e: Direction)
    requires FirstStepToward(g, s, v, k) == Some(d) && Leads(g, s, e, v, k)
    ensures Rank(d) <= Rank(e)
  {
  }

  /** A direction that leads to `v`, with no earlier one leading there, is the first step toward `v`. */
  lemma FirstStepFrom(g: Grid, s: Coord, v: Coord, k: nat, d: Direction)
    requires Leads(g, s, d, v, k)
    requires forall e | Rank(e) < Rank(d) :: !Leads(g, s, e, v, k)
    ensures FirstStepToward(g, s, v, k) == Some(d)
  {
  }

  /** Stepping in direction `d` starts a shortest route to a nearest coin `n` steps away. */
  ghost predicate LeadsToNearest(g: Grid, s: Coord, d: Direction, n: nat)
  {
    exists c :: c != s && IsCoin(g, c) && Leads(g, s, d, c, n)
  }

  /** When a coin is reachable, some direction starts a shortest route to a nearest one. */
  lemma NearestIsLed(g: Grid, s: Coord)
    requires CoinReachable(g, s)
    ensures exists d :: LeadsToNearest(g, s, d, NearestDistance(g, s))
  {
    var n := NearestDistance(g, s);
    var c :| Reach(g, s, n, c) && c != s && IsCoin(g, c);
    var d := ReachFirstStep(g, s, n - 1, c);
    assert LeadsToNearest(g, s, d, n);
  }

  /**
   * The move a nearest-coin search from `s` should make: None when no coin
   * is reachable; otherwise the first direction, in the order Up, Down,
   * Left, Right, that starts a shortest route to a nearest coin.
   */
  ghost function ReferenceMove(g: Grid, s: Coord): Option<Direction>
  {
    if !CoinReachable(g, s) then None
    else
      var n := NearestDistance(g, s);
      if LeadsToNearest(g, s, Up, n) then Some(Up)
      else if LeadsToNearest(g, s, Down, n) then Some(Down)
      else if LeadsToNearest(g, s, Left, n) then Some(Left)
      else if LeadsToNearest(g, s, Right, n) then Some(Right)
      else None
  }

  /** The reference move exists exactly when a coin is reachable. */
  lemma ReferenceMoveExists(g: Grid, s: Coord)
    ensures ReferenceMove(g, s).Some? <==> CoinReachable(g, s)
  {
    if CoinReachable(g, s) {
      NearestIsLed(g, s);
    }
  }

  /**
   * Stepping in direction `d` out of `s` enters an open cell from which a
   * coin is `n - 1` steps away, and no coin other than `s` is fewer than
   * `n` steps from `s`.
   */
  ghost predicate StartsShortestRoute(g: Grid, s: Coord, d: Direction, n: nat)
  {
    n >= 1 && Open(g, Step(s, d)) &&
    (exists c :: c != s && IsCoin(g, c) && Reach(g, s, n, c) && Reach(g, Step(s, d), n - 1, c)) &&
    forall c | Reach(g, s, n - 1, c) && c != s :: !IsCoin(g, c)
  }

  /** The reference move leads to a nearest coin. */
  lemma ReferenceMoveLeads(g: Grid, s: Coord)
    requires ReferenceMove(g, s).Some?
    ensures CoinReachable(g, s) && LeadsToNearest(g, s, ReferenceMove(g, s).value, NearestDistance(g, s))
  {
  }

  /** A route that leaves `s` in direction `d` reaches its end from `s` too. */
  lemma LeadsReach(g: Grid, s: Coord, d: Direction, c: Coord, n: nat)
    requires Leads(g, s, d, c, n)
    ensures Reach(g, s, n, c)
  {
    ReachGrows(g, s, 0, s, d);
    ReachTransitive(g, s, Step(s, d), 1, n - 1, c);
  }

  /** The reference move is the first step of a shortest route to a nearest coin. */
  lemma ReferenceMoveIsShortest(g: Grid, s: Coord)
    requires ReferenceMove(g, s).Some?
    ensures StartsShortestRoute(g, s, ReferenceMove(g, s).value, NearestDistance(g, s))
  {
    ReferenceMoveLeads(g, s);
    var d := ReferenceMove(g, s).value;
    var n := NearestDistance(g, s);
    var c :| c != s && IsCoin(g, c) && Leads(g, s, d, c, n);
    LeadsReach(g, s, d, c, n);
    assert !CoinWithin(g, s, n - 1);
  }

  /** No direction earlier than the reference move starts a shortest route to a nearest coin. */
  lemma ReferenceMoveIsFirst(g: Grid, s: Coord, e: Direction)
    requires ReferenceMove(g, s).Some? && Rank(e) < Rank(ReferenceMove(g, s).value)
    ensures !LeadsToNearest(g, s, e, NearestDistance(g, s))
  {
  }

  /** The reference move is determined by being first among the directions that lead to a nearest coin. */
  lemma ReferenceMoveFrom(g: Grid, s: Coord, n: nat, d: Direction)
    requires CoinReachable(g, s) && NearestDistance(g, s) == n
    requires LeadsToNearest(g, s, d, n)
    requires forall e | Rank(e) < Rank(d) :: !LeadsToNearest(g, s, e, n)
    ensures ReferenceMove(g, s) == Some(d)
  {
  }

  /**
   * A coin `c` reached in k + 1 steps by a route leaving in direction `d`,
   * when no coin lies within k steps and no earlier direction leads to a
   * coin in k + 1 steps, makes `d` the reference move.
   */
  lemma CoinFirstReached(g: Grid, s: Coord, c: Coord, d: Direction, k: nat)
    requires c != s && IsCoin(g, c) && !CoinWithin(g, s, k)
    requires Leads(g, s, d, c, k + 1)
    requires forall e | Rank(e) < Rank(d) :: !LeadsToNearest(g, s, e, k + 1)
    ensures ReferenceMove(g, s) == Some(d)
  {
    LeadsReach(g, s, d, c, k + 1);
    NearestIs(g, s, k + 1);
    assert LeadsToNearest(g, s, d, k + 1);
    ReferenceMoveFrom(g, s, k + 1, d);
  }
}
