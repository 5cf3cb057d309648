/**
 * What the breadth-first coin search knows at each point of its loops.
 * The search keeps a queue of cells
 * (`frontier`), the cells it has seen (`explored`) and, for each seen cell
 * other than the start, the cell it was seen from (`previous`). Ghost
 * bookkeeping adds each seen cell's distance from the start (`depth`, whose
 * keys are exactly the explored cells), the direction out of the start its
 * route takes (`root`), and the set of cells already expanded (`X`).
 *
 * Facts about single cells are stated through per-cell predicates
 * (`LinkedAt`, `ReachedWithin`, `RootedAt`, `ClosedAt`) so that a proof
 * uses them only for the cells it names.
 */
module SearchInvariant {
  import opened Game
  import opened Navigation
  import opened Reachability

  /**
   * The link out of one recorded cell `v`: following `previous` keeps the
   * same first direction and strictly decreases the depth, until it
   * reaches the cell one step out of the start in that direction.
   */
  ghost predicate LinkedAt(start: Coord, P: map<Coord, Coord>, depth: map<Coord, nat>, root: map<Coord, Direction>, v: Coord)
  {
    v in P ==>
      v in depth && v in root &&
      if P[v] == start then Step(start, root[v]) == v
      else P[v] in P && P[v] in depth && P[v] in root && depth[P[v]] < depth[v] && root[P[v]] == root[v]
  }

  ghost predicate Linked(start: Coord, P: map<Coord, Coord>, depth: map<Coord, nat>, root: map<Coord, Direction>)
  {
    forall v :: LinkedAt(start, P, depth, root, v)
  }

  /** An explored cell is reachable from the start within its depth. */
  ghost predicate ReachedWithin(g: Grid, start: Coord, depth: map<Coord, nat>, v: Coord)
  {
    v in depth ==> Reach(g, start, depth[v], v)
  }

  /** A recorded cell's route leaves the start in the first direction that reaches it within its depth. */
  ghost predicate RootedAt(g: Grid, start: Coord, depth: map<Coord, nat>, root: map<Coord, Direction>, v: Coord)
  {
    v in depth && v in root ==> FirstStepToward(g, start, v, depth[v]) == Some(root[v])
  }

  /** The search tree over the explored cells. */
  ghost predicate Tree(g: Grid, start: Coord, P: map<Coord, Coord>, depth: map<Coord, nat>, root: map<Coord, Direction>)
  {
    start in depth && depth[start] == 0 && start !in P && start !in root &&
    (forall v | v in depth && v != start :: v in P) &&
    (forall v | v in P :: v in depth && v in root && Open(g, v) && !IsCoin(g, v)) &&
    Linked(start, P, depth, root) &&
    (forall v {:trigger ReachedWithin(g, start, depth, v)} {:trigger Reach(g, start, depth[v], v)} :: ReachedWithin(g, start, depth, v)) &&
    (forall v {:trigger RootedAt(g, start, depth, root, v)} {:trigger FirstStepToward(g, start, v, depth[v])} :: RootedAt(g, start, depth, root, v))
  }

  /** Queue order: distance first, then the rank of the route's first direction. */
  ghost function Key(depth: map<Coord, nat>, root: map<Coord, Direction>, v: Coord): int
  {
    if v in depth && v in root then 4 * depth[v] + Rank(root[v]) else 0
  }

  /** If `x` is expanded, each of its open neighbours is explored, at most one step deeper. */
  ghost predicate ClosedAt(g: Grid, X: set<Coord>, depth: map<Coord, nat>, x: Coord)
  {
    x in X && x in depth ==>
      forall d | Open(g, Step(x, d)) :: Step(x, d) in depth && depth[Step(x, d)] <= depth[x] + 1
  }

  /** Every open neighbour of an expanded cell is explored, at most one step deeper. */
  ghost predicate Closed(g: Grid, X: set<Coord>, depth: map<Coord, nat>)
  {
    forall x :: ClosedAt(g, X, depth, x)
  }

  ghost predicate Sorted(depth: map<Coord, nat>, root: map<Coord, Direction>, q: seq<Coord>)
  {
    forall i, j | 0 <= i < j < |q| :: Key(depth, root, q[i]) <= Key(depth, root, q[j])
  }

  /** Between expansions: each explored cell is expanded or queued; the start is expanded first. */
  ghost predicate Between(start: Coord, q: seq<Coord>, depth: map<Coord, nat>, X: set<Coord>)
  {
    (forall x | x in X :: x in depth) && (forall v | v in q :: v in depth) &&
    (forall v | v in depth :: v in X || v in q) &&
    (X == {} ==> q == [start]) && (X != {} ==> start in X && start !in q)
  }

  /** Between expansions: the queue is sorted by key, spans at most one depth, and follows the expanded cells. */
  ghost predicate Queued(depth: map<Coord, nat>, root: map<Coord, Direction>, q: seq<Coord>, X: set<Coord>)
  {
    Sorted(depth, root, q) &&
    (forall v | v in q :: Key(depth, root, v) <= Key(depth, root, q[0]) + 4) &&
    (forall x, v | x in X && v in q :: Key(depth, root, x) <= Key(depth, root, v))
  }

  /** The invariant of the outer loop. */
  ghost predicate Searching(g: Grid, start: Coord, q: seq<Coord>, P: map<Coord, Coord>,
                            depth: map<Coord, nat>, root: map<Coord, Direction>, X: set<Coord>)
  {
    Tree(g, start, P, depth, root) && Between(start, q, depth, X) && Queued(depth, root, q, X) && Closed(g, X, depth)
  }

  /** During the expansion of `cur`: each explored cell is expanded, queued, or `cur`. */
  ghost predicate During(start: Coord, cur: Coord, q: seq<Coord>, depth: map<Coord, nat>, X: set<Coord>)
  {
    cur in depth && (forall x | x in X :: x in depth) && (forall v | v in q :: v in depth) &&
    (forall v | v in depth :: v in X || v in q || v == cur) &&
    (cur == start <==> X == {}) && (X != {} ==> start in X) && start !in q
  }

  /**
   * During the expansion of `cur`: the queue is sorted, its keys lie
   * between `cur`'s and `cur`'s plus four (from four up to the neighbours
   * looked at so far, when `cur` is the start), and every expanded cell's
   * key is at most `cur`'s.
   */
  ghost predicate Ordered(start: Coord, cur: Coord, i: nat, depth: map<Coord, nat>, root: map<Coord, Direction>,
                          q: seq<Coord>, X: set<Coord>)
  {
    Sorted(depth, root, q) &&
    (forall v | v in q :: Key(depth, root, cur) <= Key(depth, root, v)) &&
    (cur != start ==> forall v | v in q :: Key(depth, root, v) <= Key(depth, root, cur) + 4) &&
    (cur == start ==> forall v | v in q :: 4 <= Key(depth, root, v) < 4 + i) &&
    (forall x | x in X :: Key(depth, root, x) <= Key(depth, root, cur))
  }

  /** The first `i` neighbours of `cur`, where open, are explored at most one step deeper. */
  ghost predicate Looked(g: Grid, cur: Coord, i: nat, depth: map<Coord, nat>)
  {
    cur in depth &&
    forall j | 0 <= j < i && j < 4 && Open(g, Step(cur, Directions[j])) ::
      Step(cur, Directions[j]) in depth && depth[Step(cur, Directions[j])] <= depth[cur] + 1
  }

  /** The invariant of the inner loop once `cur` has had its first `i` neighbours looked at. */
  ghost predicate Expanding(g: Grid, start: Coord, cur: Coord, i: nat, q: seq<Coord>, P: map<Coord, Coord>,
                            depth: map<Coord, nat>, root: map<Coord, Direction>, X: set<Coord>)
  {
    i <= 4 && Tree(g, start, P, depth, root) && During(start, cur, q, depth, X) &&
    Ordered(start, cur, i, depth, root, q, X) && Closed(g, X, depth) && Looked(g, cur, i, depth)
  }

  /** The direction out of the start that the routes through `cur`'s new neighbours take. */
  ghost function ChildRoot(start: Coord, cur: Coord, i: nat, root: map<Coord, Direction>): Direction
    requires i < 4 && (cur == start || cur in root)
  {
    if cur == start then Directions[i] else root[cur]
  }

  /** Every explored cell whose key is below `cur`'s has been expanded. */
  ghost predicate BelowExpanded(depth: map<Coord, nat>, root: map<Coord, Direction>, X: set<Coord>, cur: Coord)
  {
    forall y | y in depth && Key(depth, root, y) < Key(depth, root, cur) :: y in X
  }
}
