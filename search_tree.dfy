/**
 * Why the breadth-first coin search ends with the reference move: each
 * step of its loops keeps the invariant of `SearchInvariant`, and the two
 * ways out of the loop (a coin seen, an empty queue) yield the reference
 * move.
 */
module SearchTree {
  import opened Game
  import opened Navigation
  import opened Reachability
  import opened SearchInvariant

  /** A tree cell's key is four times its depth plus a rank below four. */
  lemma KeyDepth(g: Grid, start: Coord, P: map<Coord, Coord>, depth: map<Coord, nat>,
                 root: map<Coord, Direction>, v: Coord)
    requires Tree(g, start, P, depth, root) && v in depth
    ensures 4 * depth[v] <= Key(depth, root, v) <= 4 * depth[v] + 3
  {
  }

  /**
   * When every explored cell shallower than k is expanded, every cell
   * reachable within k steps is explored, at depth at most k.
   */
  lemma {:induction false} Covered(g: Grid, start: Coord, depth: map<Coord, nat>, X: set<Coord>, k: nat, v: Coord)
    requires start in depth && depth[start] == 0
    requires forall u | u in depth && depth[u] < k :: u in X
    requires Closed(g, X, depth)
    requires Reach(g, start, k, v)
    ensures v in depth && depth[v] <= k
    decreases k
  {
    if k > 0 {
      if Reach(g, start, k - 1, v) {
        Covered(g, start, depth, X, k - 1, v);
      } else {
        var u, d := ReachPredecessor(g, start, k - 1, v);
        Covered(g, start, depth, X, k - 1, u);
        assert ClosedAt(g, X, depth, u);
        assert Step(u, d) == v;
      }
    }
  }

  lemma ExpandingBelow(start: Coord, cur: Coord, i: nat, q: seq<Coord>,
                       depth: map<Coord, nat>, root: map<Coord, Direction>, X: set<Coord>)
    requires During(start, cur, q, depth, X) && Ordered(start, cur, i, depth, root, q, X)
    ensures BelowExpanded(depth, root, X, cur)
  {
  }

  /** Below `cur`'s key, every explored cell shallower than `cur` has been expanded. */
  lemma ShallowBelow(g: Grid, start: Coord, cur: Coord, P: map<Coord, Coord>,
                     depth: map<Coord, nat>, root: map<Coord, Direction>, X: set<Coord>)
    requires Tree(g, start, P, depth, root) && cur in depth && BelowExpanded(depth, root, X, cur)
    ensures forall y | y in depth && depth[y] < depth[cur] :: y in X
  {
    forall y | y in depth && depth[y] < depth[cur] ensures y in X {
      KeyDepth(g, start, P, depth, root, y);
      KeyDepth(g, start, P, depth, root, cur);
    }
  }

  /** The queue starts with the start cell alone. */
  lemma Init(g: Grid, start: Coord)
    ensures Searching(g, start, [start], map[], map[start := 0], map[], {})
  {
    var depth: map<Coord, nat> := map[start := 0];
    forall v ensures ReachedWithin(g, start, depth, v) {
    }
  }

  /** Taking the head of the queue to expand keeps the invariant. */
  lemma BeginExpand(g: Grid, start: Coord, q: seq<Coord>, P: map<Coord, Coord>,
                    depth: map<Coord, nat>, root: map<Coord, Direction>, X: set<Coord>)
    requires Searching(g, start, q, P, depth, root, X) && q != []
    ensures Expanding(g, start, q[0], 0, q[1..], P, depth, root, X)
  {
    BeginDuring(start, q, depth, X);
    BeginOrdered(start, q, depth, root, X);
  }

  lemma BeginDuring(start: Coord, q: seq<Coord>, depth: map<Coord, nat>, X: set<Coord>)
    requires Between(start, q, depth, X) && q != []
    ensures During(start, q[0], q[1..], depth, X)
  {
    assert forall v | v in q[1..] :: v in q;
    forall v | v in depth ensures v in X || v in q[1..] || v == q[0] {
      if v !in X && v != q[0] {
        var j :| 0 <= j < |q| && q[j] == v;
        assert q[1..][j - 1] == v;
      }
    }
  }

  lemma BeginOrdered(start: Coord, q: seq<Coord>, depth: map<Coord, nat>, root: map<Coord, Direction>, X: set<Coord>)
    requires Between(start, q, depth, X) && Queued(depth, root, q, X) && q != []
    ensures Ordered(start, q[0], 0, depth, root, q[1..], X)
  {
    forall v | v in q[1..] ensures Key(depth, root, q[0]) <= Key(depth, root, v) {
      var j :| 0 <= j < |q[1..]| && q[1..][j] == v;
      assert q[j + 1] == v;
    }
    assert forall v | v in q[1..] :: v in q;
  }

  /** Having looked at all four neighbours, `cur` joins the expanded cells. */
  lemma EndExpand(g: Grid, start: Coord, cur: Coord, q: seq<Coord>, P: map<Coord, Coord>,
                  depth: map<Coord, nat>, root: map<Coord, Direction>, X: set<Coord>)
    requires Expanding(g, start, cur, 4, q, P, depth, root, X)
    ensures Searching(g, start, q, P, depth, root, X + {cur})
  {
    EndClosed(g, cur, depth, X);
    EndQueued(start, cur, q, depth, root, X);
  }

  lemma EndClosed(g: Grid, cur: Coord, depth: map<Coord, nat>, X: set<Coord>)
    requires Closed(g, X, depth) && Looked(g, cur, 4, depth)
    ensures Closed(g, X + {cur}, depth)
  {
    forall x ensures ClosedAt(g, X + {cur}, depth, x) {
      if x == cur {
        forall d | Open(g, Step(x, d)) ensures Step(x, d) in depth && depth[Step(x, d)] <= depth[x] + 1 {
          DirectionOfDelta(d);
        }
      } else {
        assert ClosedAt(g, X, depth, x);
      }
    }
  }

  lemma EndQueued(start: Coord, cur: Coord, q: seq<Coord>, depth: map<Coord, nat>, root: map<Coord, Direction>, X: set<Coord>)
    requires During(start, cur, q, depth, X) && Ordered(start, cur, 4, depth, root, q, X)
    ensures Between(start, q, depth, X + {cur}) && Queued(depth, root, q, X + {cur})
  {
  }

  /** A neighbour that is off the board, an obstacle, or already explored is passed over. */
  lemma SkipNeighbor(g: Grid, start: Coord, cur: Coord, i: nat, q: seq<Coord>, P: map<Coord, Coord>,
                     depth: map<Coord, nat>, root: map<Coord, Direction>, X: set<Coord>)
    requires Expanding(g, start, cur, i, q, P, depth, root, X) && i < 4
    requires !Open(g, Step(cur, Directions[i])) || Step(cur, Directions[i]) in depth
    ensures Expanding(g, start, cur, i + 1, q, P, depth, root, X)
  {
    var w := Step(cur, Directions[i]);
    if Open(g, w) {
      SkipDepth(g, start, cur, i, q, P, depth, root, X);
    }
    SkipOrdered(start, cur, i, depth, root, q, X);
  }

  /** An explored neighbour of `cur` lies at most one step deeper than `cur`. */
  lemma SkipDepth(g: Grid, start: Coord, cur: Coord, i: nat, q: seq<Coord>, P: map<Coord, Coord>,
                  depth: map<Coord, nat>, root: map<Coord, Direction>, X: set<Coord>)
    requires Tree(g, start, P, depth, root) && During(start, cur, q, depth, X) && Ordered(start, cur, i, depth, root, q, X)
    requires Closed(g, X, depth) && i < 4
    requires Open(g, Step(cur, Directions[i])) && Step(cur, Directions[i]) in depth
    ensures depth[Step(cur, Directions[i])] <= depth[cur] + 1
  {
    var w := Step(cur, Directions[i]);
    KeyDepth(g, start, P, depth, root, w);
    KeyDepth(g, start, P, depth, root, cur);
    if w in X {
      assert ClosedAt(g, X, depth, w);
      assert Step(w, Opposite(Directions[i])) == cur;
    }
  }

  lemma SkipOrdered(start: Coord, cur: Coord, i: nat, depth: map<Coord, nat>, root: map<Coord, Direction>,
                    q: seq<Coord>, X: set<Coord>)
    requires Ordered(start, cur, i, depth, root, q, X)
    ensures Ordered(start, cur, i + 1, depth, root, q, X)
  {
  }

  /** A cell first reached at radius k, with every shallower explored cell expanded, is explored at depth k. */
  lemma FirstReachedDepth(g: Grid, start: Coord, P: map<Coord, Coord>, depth: map<Coord, nat>,
                          root: map<Coord, Direction>, X: set<Coord>, k: nat, u: Coord)
    requires Tree(g, start, P, depth, root) && Closed(g, X, depth)
    requires forall y | y in depth && depth[y] < k :: y in X
    requires k >= 1 && Reach(g, start, k, u) && !Reach(g, start, k - 1, u)
    ensures u in depth && depth[u] == k
  {
    Covered(g, start, depth, X, k, u);
    assert ReachedWithin(g, start, depth, u);
    if depth[u] < k {
      ReachMonotone(g, start, depth[u], k - 1, u);
      assert false;
    }
  }

  /** The cell such a route passes through at radius k is explored at depth k, with a key below `cur`'s, so expanded. */
  lemma ParentExpanded(g: Grid, start: Coord, cur: Coord, P: map<Coord, Coord>,
                       depth: map<Coord, nat>, root: map<Coord, Direction>, X: set<Coord>, e: Direction, u: Coord)
    requires Tree(g, start, P, depth, root) && cur in P
    requires BelowExpanded(depth, root, X, cur) && Closed(g, X, depth)
    requires Rank(e) < Rank(root[cur])
    requires u != start && Leads(g, start, e, u, depth[cur])
    requires Reach(g, start, depth[cur], u) && !Reach(g, start, depth[cur] - 1, u)
    ensures u in X
  {
    var k := depth[cur];
    ShallowBelow(g, start, cur, P, depth, root, X);
    FirstReachedDepth(g, start, P, depth, root, X, k, u);
    assert u in P && u in root;
    assert Rank(root[u]) <= Rank(e) by {
      assert RootedAt(g, start, depth, root, u);
      FirstStepIsFirst(g, start, u, k, root[u], e);
    }
    assert Key(depth, root, u) < Key(depth, root, cur);
  }

  /**
   * The heart of the tie-break, away from the start: while `cur` (at depth
   * k) is expanded, a cell first reached at radius k + 1 through a direction
   * out of the start ranked before `cur`'s own has already been explored.
   */
  lemma EarlierExploredDeeper(g: Grid, start: Coord, cur: Coord, P: map<Coord, Coord>,
                              depth: map<Coord, nat>, root: map<Coord, Direction>, X: set<Coord>, e: Direction, c: Coord)
    requires Tree(g, start, P, depth, root) && cur in P
    requires BelowExpanded(depth, root, X, cur) && Closed(g, X, depth) && forall x | x in X :: x in depth
    requires Rank(e) < Rank(root[cur])
    requires Leads(g, start, e, c, depth[cur] + 1) && !Reach(g, start, depth[cur], c)
    ensures c in depth
  {
    var k := depth[cur];
    assert k >= 1 by { assert ReachedWithin(g, start, depth, cur); }
    var u, d := RouteParent(g, start, e, c, k);
    ParentExpanded(g, start, cur, P, depth, root, X, e, u);
    assert ClosedAt(g, X, depth, u);
    assert Step(u, d) == c;
  }

  /**
   * The tie-break at the start: any cell one step out of the start in a
   * direction ranked before `Directions[i]` has already been explored.
   */
  lemma EarlierExploredAtStart(g: Grid, start: Coord, i: nat, depth: map<Coord, nat>, e: Direction, c: Coord)
    requires Looked(g, start, i, depth) && i < 4
    requires Rank(e) < i && Leads(g, start, e, c, 1)
    ensures c in depth
  {
    assert c == Step(start, e);
    DirectionOfDelta(e);
  }

  /** Both cases of the tie-break. */
  lemma EarlierExplored(g: Grid, start: Coord, cur: Coord, i: nat, q: seq<Coord>, P: map<Coord, Coord>,
                        depth: map<Coord, nat>, root: map<Coord, Direction>, X: set<Coord>, e: Direction, c: Coord)
    requires Expanding(g, start, cur, i, q, P, depth, root, X) && i < 4
    requires Rank(e) < Rank(ChildRoot(start, cur, i, root))
    requires Leads(g, start, e, c, depth[cur] + 1) && !Reach(g, start, depth[cur], c)
    ensures c in depth
  {
    if cur == start {
      EarlierExploredAtStart(g, start, i, depth, e, c);
    } else {
      ExpandingBelow(start, cur, i, q, depth, root, X);
      EarlierExploredDeeper(g, start, cur, P, depth, root, X, e, c);
    }
  }

  /**
   * An unexplored open neighbour of `cur` is first reached one step beyond
   * `cur`'s depth, by a route through `cur` that leaves the start in the
   * direction `cur`'s new neighbours inherit.
   */
  lemma NewNeighborReached(g: Grid, start: Coord, cur: Coord, i: nat,
                           depth: map<Coord, nat>, root: map<Coord, Direction>, X: set<Coord>)
    requires start in depth && depth[start] == 0 && cur in depth && i < 4
    requires ReachedWithin(g, start, depth, cur)
    requires cur != start ==> cur in root && RootedAt(g, start, depth, root, cur)
    requires forall y | y in depth && depth[y] < depth[cur] :: y in X
    requires Closed(g, X, depth)
    requires Open(g, Step(cur, Directions[i])) && Step(cur, Directions[i]) !in depth
    ensures Reach(g, start, depth[cur] + 1, Step(cur, Directions[i]))
    ensures !Reach(g, start, depth[cur], Step(cur, Directions[i]))
    ensures Leads(g, start, ChildRoot(start, cur, i, root), Step(cur, Directions[i]), depth[cur] + 1)
  {
    var w := Step(cur, Directions[i]);
    var k := depth[cur];
    ReachGrows(g, start, k, cur, Directions[i]);
    if Reach(g, start, k, w) {
      Covered(g, start, depth, X, k, w);
      assert false;
    }
    if cur == start {
      LeadsFirst(g, start, Directions[i]);
    } else {
      LeadsGrows(g, start, root[cur], cur, k, Directions[i]);
    }
  }

  /** The newly seen neighbour's first direction is the one `cur`'s new neighbours inherit. */
  lemma NewRoot(g: Grid, start: Coord, cur: Coord, i: nat, P: map<Coord, Coord>,
                depth: map<Coord, nat>, root: map<Coord, Direction>, X: set<Coord>)
    requires Tree(g, start, P, depth, root) && Looked(g, cur, i, depth) && i < 4
    requires BelowExpanded(depth, root, X, cur) && Closed(g, X, depth) && forall x | x in X :: x in depth
    requires Open(g, Step(cur, Directions[i])) && Step(cur, Directions[i]) !in depth
    ensures Reach(g, start, depth[cur] + 1, Step(cur, Directions[i]))
    ensures !Reach(g, start, depth[cur], Step(cur, Directions[i]))
    ensures FirstStepToward(g, start, Step(cur, Directions[i]), depth[cur] + 1) == Some(ChildRoot(start, cur, i, root))
  {
    ShallowBelow(g, start, cur, P, depth, root, X);
    assert ReachedWithin(g, start, depth, cur) && RootedAt(g, start, depth, root, cur);
    NewNeighborReached(g, start, cur, i, depth, root, X);
    NoEarlierRoute(g, start, cur, i, P, depth, root, X);
  }

  /** No direction ranked before the inherited one leads to the new neighbour at its first radius. */
  lemma NoEarlierRoute(g: Grid, start: Coord, cur: Coord, i: nat, P: map<Coord, Coord>,
                       depth: map<Coord, nat>, root: map<Coord, Direction>, X: set<Coord>)
    requires Tree(g, start, P, depth, root) && Looked(g, cur, i, depth) && i < 4
    requires BelowExpanded(depth, root, X, cur) && Closed(g, X, depth) && forall x | x in X :: x in depth
    requires Step(cur, Directions[i]) !in depth && !Reach(g, start, depth[cur], Step(cur, Directions[i]))
    requires cur == start || cur in root
    requires Leads(g, start, ChildRoot(start, cur, i, root), Step(cur, Directions[i]), depth[cur] + 1)
    ensures forall e | Rank(e) < Rank(ChildRoot(start, cur, i, root)) ::
              !Leads(g, start, e, Step(cur, Directions[i]), depth[cur] + 1)
    ensures FirstStepToward(g, start, Step(cur, Directions[i]), depth[cur] + 1) == Some(ChildRoot(start, cur, i, root))
  {
    var w := Step(cur, Directions[i]);
    forall e | Rank(e) < Rank(ChildRoot(start, cur, i, root)) ensures !Leads(g, start, e, w, depth[cur] + 1) {
      if Leads(g, start, e, w, depth[cur] + 1) {
        if cur == start {
          EarlierExploredAtStart(g, start, i, depth, e, w);
        } else {
          EarlierExploredDeeper(g, start, cur, P, depth, root, X, e, w);
        }
      }
    }
    FirstStepFrom(g, start, w, depth[cur] + 1, ChildRoot(start, cur, i, root));
  }

  /** Recording `w` as seen from `cur` keeps the predecessor links consistent. */
  lemma LinkedExtend(g: Grid, start: Coord, cur: Coord, i: nat, P: map<Coord, Coord>,
                     depth: map<Coord, nat>, root: map<Coord, Direction>)
    requires Tree(g, start, P, depth, root) && cur in depth && i < 4
    requires Step(cur, Directions[i]) !in depth
    ensures Linked(start, P[Step(cur, Directions[i]) := cur], depth[Step(cur, Directions[i]) := depth[cur] + 1],
                   root[Step(cur, Directions[i]) := ChildRoot(start, cur, i, root)])
  {
    var w := Step(cur, Directions[i]);
    var P', depth', root' := P[w := cur], depth[w := depth[cur] + 1], root[w := ChildRoot(start, cur, i, root)];
    forall v ensures LinkedAt(start, P', depth', root', v) {
      if v != w {
        assert LinkedAt(start, P, depth, root, v);
      }
    }
  }

  /** Recording an unexplored open non-coin neighbour, at its first direction, keeps the tree. */
  lemma TreeExtend(g: Grid, start: Coord, cur: Coord, i: nat, P: map<Coord, Coord>,
                   depth: map<Coord, nat>, root: map<Coord, Direction>)
    requires Tree(g, start, P, depth, root) && cur in depth && i < 4 && (cur == start || cur in root)
    requires Open(g, Step(cur, Directions[i])) && Step(cur, Directions[i]) !in depth
    requires !IsCoin(g, Step(cur, Directions[i]))
    requires Reach(g, start, depth[cur] + 1, Step(cur, Directions[i]))
    requires FirstStepToward(g, start, Step(cur, Directions[i]), depth[cur] + 1) == Some(ChildRoot(start, cur, i, root))
    ensures Tree(g, start, P[Step(cur, Directions[i]) := cur], depth[Step(cur, Directions[i]) := depth[cur] + 1],
                 root[Step(cur, Directions[i]) := ChildRoot(start, cur, i, root)])
  {
    var w := Step(cur, Directions[i]);
    var r := ChildRoot(start, cur, i, root);
    LinkedExtend(g, start, cur, i, P, depth, root);
    var depth', root' := depth[w := depth[cur] + 1], root[w := r];
    ReachedExtend(g, start, depth, w, depth[cur] + 1, depth');
    RootedExtend(g, start, depth, root, w, depth[cur] + 1, r, depth', root');
  }

  /** Recording `w` at a radius within which it is reached keeps every explored cell reached within its depth. */
  lemma ReachedExtend(g: Grid, start: Coord, depth: map<Coord, nat>, w: Coord, n: nat, depth': map<Coord, nat>)
    requires forall v :: ReachedWithin(g, start, depth, v)
    requires Reach(g, start, n, w) && depth' == depth[w := n]
    ensures forall v :: ReachedWithin(g, start, depth', v)
  {
    forall v ensures ReachedWithin(g, start, depth', v) {
      if v != w { assert ReachedWithin(g, start, depth, v); }
    }
  }

  /** Recording `w` with its first direction keeps every recorded cell's first direction. */
  lemma RootedExtend(g: Grid, start: Coord, depth: map<Coord, nat>, root: map<Coord, Direction>, w: Coord, n: nat, r: Direction,
                     depth': map<Coord, nat>, root': map<Coord, Direction>)
    requires forall v :: RootedAt(g, start, depth, root, v)
    requires FirstStepToward(g, start, w, n) == Some(r) && depth' == depth[w := n] && root' == root[w := r]
    ensures forall v :: RootedAt(g, start, depth', root', v)
  {
    forall v ensures RootedAt(g, start, depth', root', v) {
      if v != w { assert RootedAt(g, start, depth, root, v); }
    }
  }

  /** Exploring a new cell leaves every expanded cell closed. */
  lemma ClosedExtend(g: Grid, X: set<Coord>, depth: map<Coord, nat>, w: Coord, n: nat)
    requires Closed(g, X, depth) && w !in depth && forall x | x in X :: x in depth
    ensures Closed(g, X, depth[w := n])
  {
    var depth' := depth[w := n];
    forall x ensures ClosedAt(g, X, depth', x) {
      assert ClosedAt(g, X, depth, x);
    }
  }

  /** Exploring and queueing `w` keeps the bookkeeping of the expansion of `cur`. */
  lemma DuringExtend(start: Coord, cur: Coord, q: seq<Coord>, depth: map<Coord, nat>, X: set<Coord>, w: Coord, n: nat)
    requires During(start, cur, q, depth, X) && w !in depth
    ensures During(start, cur, q + [w], depth[w := n], X)
  {
    assert forall v | v in q + [w] :: v in q || v == w;
  }

  /** Queueing `w` at one step beyond `cur`, inheriting `cur`'s first direction, keeps the queue ordered. */
  lemma OrderedExtend(g: Grid, start: Coord, cur: Coord, i: nat, q: seq<Coord>, P: map<Coord, Coord>,
                      depth: map<Coord, nat>, root: map<Coord, Direction>, X: set<Coord>)
    requires Tree(g, start, P, depth, root) && During(start, cur, q, depth, X)
    requires Ordered(start, cur, i, depth, root, q, X) && i < 4
    requires Step(cur, Directions[i]) !in depth
    ensures Ordered(start, cur, i + 1, depth[Step(cur, Directions[i]) := depth[cur] + 1],
                    root[Step(cur, Directions[i]) := ChildRoot(start, cur, i, root)], q + [Step(cur, Directions[i])], X)
  {
    var w := Step(cur, Directions[i]);
    var r := ChildRoot(start, cur, i, root);
    var depth', root' := depth[w := depth[cur] + 1], root[w := r];
    KeyDepth(g, start, P, depth, root, cur);
    KeysKept(depth, root, w, depth[cur] + 1, r, depth', root');
    assert w !in q && w !in X && w != cur;
    var kw := Key(depth', root', w);
    assert kw == 4 * (depth[cur] + 1) + Rank(r);
    if cur == start {
      DirectionsRanked(i);
      assert kw == 4 + i;
    } else {
      assert kw == Key(depth, root, cur) + 4;
    }
    forall v | v in q ensures Key(depth', root', v) <= kw {
    }
    SortedAppend(depth', root', q, w);
    forall v | v in q + [w] ensures Key(depth', root', cur) <= Key(depth', root', v) {
      if v != w { assert v in q; }
    }
    forall v | v in q + [w] && cur != start ensures Key(depth', root', v) <= Key(depth', root', cur) + 4 {
      if v != w { assert v in q; }
    }
    forall v | v in q + [w] && cur == start ensures 4 <= Key(depth', root', v) < 4 + (i + 1) {
      if v != w { assert v in q; }
    }
  }

  /** Recording `w` changes no other cell's key. */
  lemma KeysKept(depth: map<Coord, nat>, root: map<Coord, Direction>, w: Coord, n: nat, r: Direction,
                 depth': map<Coord, nat>, root': map<Coord, Direction>)
    requires depth' == depth[w := n] && root' == root[w := r]
    ensures forall v | v != w :: Key(depth', root', v) == Key(depth, root, v)
  {
  }

  /** Appending a cell whose key is at least every queued key keeps the queue sorted. */
  lemma SortedAppend(depth: map<Coord, nat>, root: map<Coord, Direction>, q: seq<Coord>, w: Coord)
    requires Sorted(depth, root, q)
    requires forall v | v in q :: Key(depth, root, v) <= Key(depth, root, w)
    ensures Sorted(depth, root, q + [w])
  {
    forall a, b | 0 <= a < b < |q + [w]| ensures Key(depth, root, (q + [w])[a]) <= Key(depth, root, (q + [w])[b]) {
      assert (q + [w])[a] == q[a];
      if b < |q| { assert (q + [w])[b] == q[b]; }
    }
  }

  /** Exploring a new cell at one step beyond `cur` records `Directions[i]` as looked at. */
  lemma LookedExtend(g: Grid, cur: Coord, i: nat, depth: map<Coord, nat>)
    requires Looked(g, cur, i, depth) && i < 4 && Step(cur, Directions[i]) !in depth
    ensures Looked(g, cur, i + 1, depth[Step(cur, Directions[i]) := depth[cur] + 1])
  {
  }

  /** Recording an unexplored open non-coin neighbour keeps the tree. */
  lemma DiscoverTree(g: Grid, start: Coord, cur: Coord, i: nat, q: seq<Coord>, P: map<Coord, Coord>,
                     depth: map<Coord, nat>, root: map<Coord, Direction>, X: set<Coord>)
    requires Expanding(g, start, cur, i, q, P, depth, root, X) && i < 4
    requires Open(g, Step(cur, Directions[i])) && Step(cur, Directions[i]) !in depth
    requires !IsCoin(g, Step(cur, Directions[i]))
    ensures Tree(g, start, P[Step(cur, Directions[i]) := cur], depth[Step(cur, Directions[i]) := depth[cur] + 1],
                 root[Step(cur, Directions[i]) := ChildRoot(start, cur, i, root)])
  {
    ExpandingBelow(start, cur, i, q, depth, root, X);
    NewRoot(g, start, cur, i, P, depth, root, X);
    TreeExtend(g, start, cur, i, P, depth, root);
  }

  /** Recording an unexplored open non-coin neighbour and queueing it keeps the invariant. */
  lemma Discover(g: Grid, start: Coord, cur: Coord, i: nat, q: seq<Coord>, P: map<Coord, Coord>,
                 depth: map<Coord, nat>, root: map<Coord, Direction>, X: set<Coord>)
    requires Expanding(g, start, cur, i, q, P, depth, root, X) && i < 4
    requires Open(g, Step(cur, Directions[i])) && Step(cur, Directions[i]) !in depth
    requires !IsCoin(g, Step(cur, Directions[i]))
    ensures Expanding(g, start, cur, i + 1, q + [Step(cur, Directions[i])], P[Step(cur, Directions[i]) := cur],
                      depth[Step(cur, Directions[i]) := depth[cur] + 1],
                      root[Step(cur, Directions[i]) := ChildRoot(start, cur, i, root)], X)
  {
    var w := Step(cur, Directions[i]);
    DiscoverTree(g, start, cur, i, q, P, depth, root, X);
    DuringExtend(start, cur, q, depth, X, w, depth[cur] + 1);
    OrderedExtend(g, start, cur, i, q, P, depth, root, X);
    ClosedExtend(g, X, depth, w, depth[cur] + 1);
    LookedExtend(g, cur, i, depth);
  }

  /** When every explored cell shallower than k is expanded and no explored cell but the start holds a coin, no coin lies within k steps. */
  lemma NoCoinWithin(g: Grid, start: Coord, depth: map<Coord, nat>, X: set<Coord>, k: nat)
    requires start in depth && depth[start] == 0
    requires forall u | u in depth && depth[u] < k :: u in X
    requires Closed(g, X, depth)
    requires forall v | v in depth && v != start :: !IsCoin(g, v)
    ensures !CoinWithin(g, start, k)
  {
    forall c | Reach(g, start, k, c) && c != start ensures !IsCoin(g, c) {
      Covered(g, start, depth, X, k, c);
    }
  }

  /** No direction ranked before the one `cur`'s new neighbours inherit leads to a coin in one step more than `cur`'s depth. */
  lemma NoEarlierCoin(g: Grid, start: Coord, cur: Coord, i: nat, q: seq<Coord>, P: map<Coord, Coord>,
                      depth: map<Coord, nat>, root: map<Coord, Direction>, X: set<Coord>)
    requires Expanding(g, start, cur, i, q, P, depth, root, X) && i < 4
    requires forall v | v in depth && v != start :: !IsCoin(g, v)
    ensures cur == start || cur in root
    ensures !CoinWithin(g, start, depth[cur])
    ensures forall e | Rank(e) < Rank(ChildRoot(start, cur, i, root)) :: !LeadsToNearest(g, start, e, depth[cur] + 1)
  {
    var k := depth[cur];
    ExpandingBelow(start, cur, i, q, depth, root, X);
    ShallowBelow(g, start, cur, P, depth, root, X);
    NoCoinWithin(g, start, depth, X, k);
    assert cur == start || cur in root;
    forall e | Rank(e) < Rank(ChildRoot(start, cur, i, root)) ensures !LeadsToNearest(g, start, e, k + 1) {
      forall c | c != start && IsCoin(g, c) && Leads(g, start, e, c, k + 1) ensures false {
        if Reach(g, start, k, c) {
          Covered(g, start, depth, X, k, c);
        } else {
          EarlierExplored(g, start, cur, i, q, P, depth, root, X, e, c);
        }
      }
    }
  }

  /**
   * Meeting an unexplored coin next to `cur`: recording it keeps the links
   * consistent, and the direction its route inherits is the reference move.
   */
  lemma FoundCoin(g: Grid, start: Coord, cur: Coord, i: nat, q: seq<Coord>, P: map<Coord, Coord>,
                  depth: map<Coord, nat>, root: map<Coord, Direction>, X: set<Coord>)
    requires Expanding(g, start, cur, i, q, P, depth, root, X) && i < 4
    requires Open(g, Step(cur, Directions[i])) && Step(cur, Directions[i]) !in depth
    requires IsCoin(g, Step(cur, Directions[i]))
    ensures Linked(start, P[Step(cur, Directions[i]) := cur], depth[Step(cur, Directions[i]) := depth[cur] + 1],
                   root[Step(cur, Directions[i]) := ChildRoot(start, cur, i, root)])
    ensures ReferenceMove(g, start) == Some(ChildRoot(start, cur, i, root))
  {
    var w := Step(cur, Directions[i]);
    var r := ChildRoot(start, cur, i, root);
    var k := depth[cur];
    LinkedExtend(g, start, cur, i, P, depth, root);
    ExpandingBelow(start, cur, i, q, depth, root, X);
    NewRoot(g, start, cur, i, P, depth, root, X);
    assert forall v | v in depth && v != start :: !IsCoin(g, v);
    NoEarlierCoin(g, start, cur, i, q, P, depth, root, X);
    assert w != start;
    CoinFirstReached(g, start, w, r, k);
  }

  /** An empty queue means every reachable cell was explored and none is a coin: there is no reference move. */
  lemma Exhausted(g: Grid, start: Coord, P: map<Coord, Coord>,
                  depth: map<Coord, nat>, root: map<Coord, Direction>, X: set<Coord>)
    requires Searching(g, start, [], P, depth, root, X)
    ensures ReferenceMove(g, start) == None
  {
    forall k: nat, c | Reach(g, start, k, c) && c != start ensures !IsCoin(g, c) {
      Covered(g, start, depth, X, k, c);
    }
    assert !CoinReachable(g, start);
  }
}
