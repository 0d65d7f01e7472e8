/** The two breadth-first searches of src/knight.cpp: `minKnightMoves`, which
    counts the moves of a shortest knight route, and `getKnightPath`, which
    also rebuilds one shortest route from parent links. Both expand the
    positions of a FIFO queue, generate the eight neighbours in the fixed
    order of `Moves.Offsets`, and never enqueue a position twice. */
module Search {
  import opened Position
  import opened Moves
  import opened Layers

  /** The queue of `minKnightMoves` pairs each queued position with its
      distance from the start: layer k up to split, layer k + 1 after it. */
  ghost predicate QueueHolds(queue: seq<(Pos, nat)>, frontier: seq<Pos>, k: nat, split: nat)
  {
    && |queue| == |frontier|
    && forall i :: 0 <= i < |queue| ==> queue[i] == (frontier[i], if i < split then k else k + 1)
  }

  /** `minKnightMoves`: the least number of knight moves from start to target. */
  method MinKnightMoves(start: Pos, target: Pos) returns (moves: int)
    ensures moves >= 0 && IsDistance(start, target, moves)
    ensures start == target ==> moves == 0
  {
    if start == target {
      DistanceToSelf(start);
      return 0;
    }
    var queue: seq<(Pos, nat)> := [(start, 0)];
    var visited: set<Pos> := {start};
    ghost var frontier := [start];
    ghost var dist: map<Pos, nat> := map[start := 0];
    // `minKnightMoves` keeps no parent links; this ghost map exists only for
    // the proof, whose optimality argument follows the links back to start.
    ghost var parent: map<Pos, Pos> := map[];
    ghost var expanded: set<Pos> := {};
    ghost var k: nat, split: nat := 0, 1;
    InitialState(start, target);
    while |queue| > 0
      invariant SearchState(start, target, frontier, dist, expanded, k, split, start, |Offsets|)
      invariant ParentLinks(start, dist, parent) && split > 0 && visited == dist.Keys
      invariant QueueHolds(queue, frontier, k, split)
      decreases ReachBound(start, target) - k, split
    {
      var (cur, d) := queue[0];
      queue := queue[1..];
      PopHead(start, target, frontier, dist, expanded, k, split, parent, start);
      frontier, expanded, split := frontier[1..], expanded + {cur}, split - 1;
      var found;
      found, queue, visited, frontier, dist, parent :=
        ExpandPosition(start, target, cur, d, queue, visited, frontier, dist, expanded, split, parent);
      if found {
        return d + 1;
      }
      k, split := FinishExpansion(start, target, frontier, dist, expanded, k, split, cur);
    }
    assert false;
  }

  /** Step 4 of `minKnightMoves` for the position cur, taken off the queue at
      distance d: generate its eight neighbours in order; stop as soon as one
      of them is the target, whose distance is then d + 1; otherwise mark
      each neighbour not yet visited and queue it at distance d + 1. The
      parent map is ghost: it is kept only for the proof. */
  method ExpandPosition(start: Pos, target: Pos, cur: Pos, d: nat,
                        queue: seq<(Pos, nat)>, visited: set<Pos>,
                        ghost frontier: seq<Pos>, ghost dist: map<Pos, nat>,
                        ghost expanded: set<Pos>, ghost split: nat, ghost parent: map<Pos, Pos>)
      returns (found: bool, queue': seq<(Pos, nat)>, visited': set<Pos>,
               ghost frontier': seq<Pos>, ghost dist': map<Pos, nat>, ghost parent': map<Pos, Pos>)
    requires Expanding(start, target, frontier, dist, expanded, d, split, parent, cur, 0)
    requires visited == dist.Keys && QueueHolds(queue, frontier, d, split)
    ensures found ==> IsDistance(start, target, d + 1)
    ensures !found ==>
      && Expanding(start, target, frontier', dist', expanded, d, split, parent', cur, |Offsets|)
      && visited' == dist'.Keys && QueueHolds(queue', frontier', d, split)
  {
    found, queue', visited' := false, queue, visited;
    frontier', dist', parent' := frontier, dist, parent;
    for j := 0 to |Offsets|
      invariant Expanding(start, target, frontier', dist', expanded, d, split, parent', cur, j)
      invariant visited' == dist'.Keys && QueueHolds(queue', frontier', d, split)
    {
      var next := Step(cur, j);
      if next == target {
        TargetFound(start, target, frontier', dist', expanded, d, split, parent', cur, j);
        return true, queue', visited', frontier', dist', parent';
      }
      if next !in visited' {
        Discover(start, target, frontier', dist', expanded, d, split, parent', cur, j);
        visited' := visited' + {next};
        queue' := queue' + [(next, d + 1)];
        frontier', dist', parent' := frontier' + [next], dist'[next := d + 1], parent'[next := cur];
      } else {
        Revisit(start, target, frontier', dist', expanded, d, split, parent', cur, j);
      }
    }
  }

  /** `getKnightPath`: one shortest knight route from start to target. */
  method GetKnightPath(start: Pos, target: Pos) returns (path: seq<Pos>)
    ensures |path| > 0 && path[0] == start && path[|path| - 1] == target
    ensures IsKnightPath(path)
    ensures IsDistance(start, target, |path| - 1)
    ensures start == target ==> path == [start]
  {
    if start == target {
      DistanceToSelf(start);
      return [start];
    }
    var queue: seq<Pos> := [start];
    var visited: set<Pos> := {start};
    var parent: map<Pos, Pos> := map[];
    ghost var dist: map<Pos, nat> := map[start := 0];
    ghost var expanded: set<Pos> := {};
    ghost var k: nat, split: nat := 0, 1;
    InitialState(start, target);
    while |queue| > 0
      invariant SearchState(start, target, queue, dist, expanded, k, split, start, |Offsets|)
      invariant ParentLinks(start, dist, parent) && split > 0 && visited == dist.Keys
      decreases ReachBound(start, target) - k, split
    {
      var cur := queue[0];
      PopHead(start, target, queue, dist, expanded, k, split, parent, start);
      queue := queue[1..];
      expanded, split := expanded + {cur}, split - 1;
      var found;
      found, path, queue, visited, parent, dist :=
        ExpandWithParents(start, target, cur, queue, visited, parent, dist, expanded, k, split);
      if found {
        return;
      }
      k, split := FinishExpansion(start, target, queue, dist, expanded, k, split, cur);
    }
    assert false;
  }

  /** Step 5 of `getKnightPath` for the position cur of layer k: generate its
      eight neighbours in order; when one of them is the target, record cur
      as its parent and rebuild the path; otherwise mark each neighbour not
      yet visited, record cur as its parent and queue it. A parent link,
      once recorded, is never overwritten. */
  method ExpandWithParents(start: Pos, target: Pos, cur: Pos, queue: seq<Pos>, visited: set<Pos>,
                           parent: map<Pos, Pos>, ghost dist: map<Pos, nat>,
                           ghost expanded: set<Pos>, ghost k: nat, ghost split: nat)
      returns (found: bool, path: seq<Pos>, queue': seq<Pos>, visited': set<Pos>,
               parent': map<Pos, Pos>, ghost dist': map<Pos, nat>)
    requires Expanding(start, target, queue, dist, expanded, k, split, parent, cur, 0)
    requires visited == dist.Keys
    ensures found ==> |path| > 0 && path[0] == start && path[|path| - 1] == target
    ensures found ==> IsKnightPath(path) && IsDistance(start, target, |path| - 1)
    ensures !found ==>
      && Expanding(start, target, queue', dist', expanded, k, split, parent', cur, |Offsets|)
      && visited' == dist'.Keys
    ensures forall p :: p in parent ==> p in parent' && parent'[p] == parent[p]
  {
    found, path, queue', visited', parent', dist' := false, [], queue, visited, parent, dist;
    for j := 0 to |Offsets|
      invariant Expanding(start, target, queue', dist', expanded, k, split, parent', cur, j)
      invariant visited' == dist'.Keys
      invariant forall p :: p in parent ==> p in parent' && parent'[p] == parent[p]
    {
      var next := Step(cur, j);
      if next == target {
        TargetFound(start, target, queue', dist', expanded, k, split, parent', cur, j);
        parent' := parent'[next := cur];
        path := ReconstructPath(start, target, parent', dist'[next := k + 1]);
        return true, path, queue', visited', parent', dist';
      }
      if next !in visited' {
        Discover(start, target, queue', dist', expanded, k, split, parent', cur, j);
        visited' := visited' + {next};
        queue' := queue' + [next];
        parent' := parent'[next := cur];
        dist' := dist'[next := k + 1];
      } else {
        Revisit(start, target, queue', dist', expanded, k, split, parent', cur, j);
      }
    }
  }

  /** Steps 6 and 7 of `getKnightPath`: follow the parent links from the
      target back to the start, then reverse the collected positions. */
  method ReconstructPath(start: Pos, target: Pos, parent: map<Pos, Pos>,
                         ghost dist: map<Pos, nat>) returns (path: seq<Pos>)
    requires ParentLinks(start, dist, parent) && target in dist
    ensures |path| == dist[target] + 1 && path[0] == start && path[|path| - 1] == target
    ensures IsKnightPath(path)
  {
    var back: seq<Pos> := [];
    var p := target;
    while p != start
      invariant p in dist && |back| + dist[p] == dist[target]
      invariant back == [] ==> p == target
      invariant back != [] ==> back[0] == target && KnightStep(p, back[|back| - 1])
      invariant forall i :: 0 < i < |back| ==> KnightStep(back[i], back[i - 1])
      decreases dist[p]
    {
      back := back + [p];
      p := parent[p];
    }
    back := back + [start];
    path := Reversed(back);
    forall i | 0 < i < |path| ensures KnightStep(path[i - 1], path[i]) {
      assert path[i - 1] == back[|back| - i] && path[i] == back[|back| - 1 - i];
    }
  }
}
