/** The invariant of the breadth-first searches of src/knight.cpp and the
    lemmas that carry it across one step of a search: starting, popping the
    head of the queue, handling one neighbour, and moving on to the next
    layer. Its completeness lemmas connect the discovered positions with the
    reference distance of `Moves`. */
module Layers {
  import opened Position
  import opened Moves

  // ---------------------------------------------------------------------
  // The search state both searches maintain.
  //
  // `frontier` is the queue of discovered positions not yet expanded, `dist`
  // maps every discovered position to the layer it was discovered in,
  // `expanded` holds the positions already taken off the queue, and `k` is
  // the layer of the head of the queue: the first `split` entries of the
  // queue are in layer k, the others in layer k + 1. While the neighbours of
  // `cur` are generated, only the first `done` of them have been handled.

  /** The breadth-first invariant. The target is still undiscovered, so it
      lies beyond layer k; as it is within `ReachBound` moves, k stays below
      that bound, which is what makes the search terminate. */
  ghost predicate SearchState(s: Pos, t: Pos, frontier: seq<Pos>, dist: map<Pos, nat>,
                              expanded: set<Pos>, k: nat, split: nat, cur: Pos, done: int)
  {
    && s != t && t !in dist
    && s in dist && dist[s] == 0
    && k < ReachBound(s, t)
    && QueueFits(frontier, dist, expanded, k, split)
    && Closed(expanded, dist, cur, done)
  }

  /** The queue holds, once each, exactly the discovered positions that are
      not yet expanded: layer k first, then layer k + 1. Nothing discovered
      lies beyond layer k + 1. */
  ghost predicate QueueFits(frontier: seq<Pos>, dist: map<Pos, nat>, expanded: set<Pos>,
                            k: nat, split: nat)
  {
    && split <= |frontier|
    && expanded <= dist.Keys
    && (forall i :: 0 <= i < |frontier| ==>
          frontier[i] in dist && frontier[i] !in expanded
          && dist[frontier[i]] == if i < split then k else k + 1)
    && (forall i, j :: 0 <= i < j < |frontier| ==> frontier[i] != frontier[j])
    && (forall p :: p in dist ==> p in expanded || p in frontier)
    && (forall p :: p in dist ==> dist[p] <= k + 1)
  }

  /** Every neighbour of an expanded position has been discovered, at most
      one layer further out; for cur this holds of its first done
      neighbours only. */
  ghost predicate Closed(expanded: set<Pos>, dist: map<Pos, nat>, cur: Pos, done: int)
  {
    forall e, j :: e in expanded && 0 <= j < |Offsets| && (e != cur || j < done) ==>
      e in dist && Step(e, j) in dist && dist[Step(e, j)] <= dist[e] + 1
  }

  /** Predecessor links: every discovered position other than the start
      points at the position that discovered it, one layer closer. */
  ghost predicate ParentLinks(s: Pos, dist: map<Pos, nat>, parent: map<Pos, Pos>)
  {
    && s in dist && dist[s] == 0
    && parent.Keys == dist.Keys - {s}
    && (forall p :: p in parent ==>
          parent[p] in dist && dist[parent[p]] + 1 == dist[p] && KnightStep(parent[p], p))
  }

  /** The state while the neighbours of cur, a position of layer k, are
      generated. */
  ghost predicate Expanding(s: Pos, t: Pos, frontier: seq<Pos>, dist: map<Pos, nat>,
                            expanded: set<Pos>, k: nat, split: nat, parent: map<Pos, Pos>,
                            cur: Pos, done: int)
  {
    && SearchState(s, t, frontier, dist, expanded, k, split, cur, done)
    && ParentLinks(s, dist, parent)
    && cur in dist && dist[cur] == k
  }

  lemma InitialState(s: Pos, t: Pos)
    requires s != t
    ensures SearchState(s, t, [s], map[s := 0], {}, 0, 1, s, |Offsets|)
    ensures ParentLinks(s, map[s := 0], map[])
  {
  }

  /** Taking the head of the queue starts the expansion of a layer-k position. */
  lemma PopHead(s: Pos, t: Pos, frontier: seq<Pos>, dist: map<Pos, nat>, expanded: set<Pos>,
                k: nat, split: nat, parent: map<Pos, Pos>, cur: Pos)
    requires SearchState(s, t, frontier, dist, expanded, k, split, cur, |Offsets|)
    requires ParentLinks(s, dist, parent) && split > 0
    ensures Expanding(s, t, frontier[1..], dist, expanded + {frontier[0]}, k, split - 1,
                      parent, frontier[0], 0)
  {
    var head, rest := frontier[0], frontier[1..];
    forall p | p in dist ensures p in expanded + {head} || p in rest {
      if p in frontier && p != head {
        var i :| 0 <= i < |frontier| && frontier[i] == p;
        assert rest[i - 1] == p;
      }
    }
    forall i | 0 <= i < |rest|
      ensures rest[i] in dist && rest[i] !in expanded + {head}
      ensures dist[rest[i]] == if i < split - 1 then k else k + 1
    {
      assert rest[i] == frontier[i + 1];
    }
  }

  /** Appending a position not seen before to the queue, in layer k + 1,
      keeps the queue in shape. */
  lemma Enqueue(frontier: seq<Pos>, dist: map<Pos, nat>, expanded: set<Pos>, k: nat, split: nat,
                next: Pos)
    requires QueueFits(frontier, dist, expanded, k, split) && next !in dist
    ensures QueueFits(frontier + [next], dist[next := k + 1], expanded, k, split)
  {
    var frontier', dist' := frontier + [next], dist[next := k + 1];
    forall i | 0 <= i < |frontier'|
      ensures frontier'[i] in dist' && frontier'[i] !in expanded
      ensures dist'[frontier'[i]] == if i < split then k else k + 1
    {
      if i < |frontier| {
        assert frontier'[i] == frontier[i];
      }
    }
    forall i, i' | 0 <= i < i' < |frontier'| ensures frontier'[i] != frontier'[i'] {
      assert frontier'[i] == frontier[i];
      if i' < |frontier| {
        assert frontier'[i'] == frontier[i'];
      }
    }
  }

  /** A neighbour not seen before joins the back of the queue in layer k + 1. */
  lemma Discover(s: Pos, t: Pos, frontier: seq<Pos>, dist: map<Pos, nat>, expanded: set<Pos>,
                 k: nat, split: nat, parent: map<Pos, Pos>, cur: Pos, j: int)
    requires Expanding(s, t, frontier, dist, expanded, k, split, parent, cur, j)
    requires 0 <= j < |Offsets| && Step(cur, j) !in dist && Step(cur, j) != t
    ensures Step(cur, j) !in parent
    ensures Expanding(s, t, frontier + [Step(cur, j)], dist[Step(cur, j) := k + 1], expanded,
                      k, split, parent[Step(cur, j) := cur], cur, j + 1)
  {
    Enqueue(frontier, dist, expanded, k, split, Step(cur, j));
  }

  /** A neighbour seen before leaves the state as it is. */
  lemma Revisit(s: Pos, t: Pos, frontier: seq<Pos>, dist: map<Pos, nat>, expanded: set<Pos>,
                k: nat, split: nat, parent: map<Pos, Pos>, cur: Pos, j: int)
    requires Expanding(s, t, frontier, dist, expanded, k, split, parent, cur, j)
    requires 0 <= j < |Offsets| && Step(cur, j) in dist
    ensures Expanding(s, t, frontier, dist, expanded, k, split, parent, cur, j + 1)
  {
  }

  /** Once the layers below kk are expanded, a knight path of at most kk
      moves from the start ends at a discovered position, discovered no
      later than the length of the path. */
  lemma {:induction false} PathDiscovered(s: Pos, dist: map<Pos, nat>, expanded: set<Pos>,
                                          cur: Pos, done: int, kk: nat, path: seq<Pos>)
    requires s in dist && dist[s] == 0 && Closed(expanded, dist, cur, done)
    requires forall p :: p in dist && dist[p] < kk ==> p in expanded && (p != cur || done == |Offsets|)
    requires |path| > 0 && path[0] == s && IsKnightPath(path) && |path| - 1 <= kk
    ensures path[|path| - 1] in dist && dist[path[|path| - 1]] <= |path| - 1
  {
    if |path| > 1 {
      var prefix := path[..|path| - 1];
      assert IsKnightPath(prefix) by {
        forall i | 0 < i < |prefix| ensures KnightStep(prefix[i - 1], prefix[i]) {
          assert prefix[i - 1] == path[i - 1] && prefix[i] == path[i];
        }
      }
      PathDiscovered(s, dist, expanded, cur, done, kk, prefix);
      var q := path[|path| - 2];
      assert KnightStep(q, path[|path| - 1]);
      var j :| 0 <= j < |Offsets| && path[|path| - 1] == Step(q, j);
    }
  }

  /** Once the layers below kk are expanded, every position within kk moves
      has been discovered. */
  lemma BallDiscovered(s: Pos, dist: map<Pos, nat>, expanded: set<Pos>, cur: Pos, done: int,
                       kk: nat)
    requires s in dist && dist[s] == 0 && Closed(expanded, dist, cur, done)
    requires forall p :: p in dist && dist[p] < kk ==> p in expanded && (p != cur || done == |Offsets|)
    ensures forall q :: q in Ball(s, kk) ==> q in dist
  {
    forall q | q in Ball(s, kk) ensures q in dist {
      var path := BallHasPath(s, q, kk);
      PathDiscovered(s, dist, expanded, cur, done, kk, path);
    }
  }

  /** Following the parent links from a discovered position back to the
      start gives a knight path as long as its layer. */
  lemma {:induction false} ChainPath(s: Pos, dist: map<Pos, nat>, parent: map<Pos, Pos>, p: Pos)
      returns (path: seq<Pos>)
    requires ParentLinks(s, dist, parent) && p in dist
    ensures |path| == dist[p] + 1 && path[0] == s && path[|path| - 1] == p
    ensures IsKnightPath(path)
    decreases dist[p]
  {
    if p == s {
      path := [s];
    } else {
      var prefix := ChainPath(s, dist, parent, parent[p]);
      path := prefix + [p];
      forall i | 0 < i < |path| ensures KnightStep(path[i - 1], path[i]) {
        if i < |prefix| {
          assert path[i - 1] == prefix[i - 1] && path[i] == prefix[i];
        }
      }
    }
  }

  /** Meeting the target as a neighbour of a layer-k position settles its
      distance at k + 1: it was not among the positions within k moves. */
  lemma TargetFound(s: Pos, t: Pos, frontier: seq<Pos>, dist: map<Pos, nat>, expanded: set<Pos>,
                    k: nat, split: nat, parent: map<Pos, Pos>, cur: Pos, j: int)
    requires Expanding(s, t, frontier, dist, expanded, k, split, parent, cur, j)
    requires 0 <= j < |Offsets| && Step(cur, j) == t
    ensures IsDistance(s, t, k + 1) && t !in parent
    ensures ParentLinks(s, dist[t := k + 1], parent[t := cur]) && t in dist[t := k + 1]
  {
    var path := ChainPath(s, dist, parent, cur);
    PathEndsInBall(path);
    StepStaysInBall(s, cur, k + 1, j);
    forall p | p in dist && dist[p] < k ensures p in expanded && p != cur {
    }
    BallDiscovered(s, dist, expanded, cur, j, k);
  }

  /** Once the head of the queue is in layer k + 1, all of layer k has been
      expanded, and the target still lies further out than k + 1 moves. */
  lemma AdvanceLayer(s: Pos, t: Pos, frontier: seq<Pos>, dist: map<Pos, nat>, expanded: set<Pos>,
                     k: nat, cur: Pos)
    requires SearchState(s, t, frontier, dist, expanded, k, 0, cur, |Offsets|)
    requires |frontier| > 0
    ensures SearchState(s, t, frontier, dist, expanded, k + 1, |frontier|, cur, |Offsets|)
  {
    forall p | p in dist && dist[p] < k + 1 ensures p in expanded {
    }
    BallDiscovered(s, dist, expanded, cur, |Offsets|, k + 1);
    EverySquareReachable(s, t);
    forall m: nat | m <= k + 1 ensures Ball(s, m) <= Ball(s, k + 1) {
      BallGrows(s, m, k + 1);
    }
  }

  /** The queue never runs dry before the target is met: if every discovered
      position were expanded, every reachable position, the target among
      them, would have been discovered. */
  lemma QueueNeverEmpties(s: Pos, t: Pos, frontier: seq<Pos>, dist: map<Pos, nat>,
                          expanded: set<Pos>, k: nat, split: nat, cur: Pos)
    requires SearchState(s, t, frontier, dist, expanded, k, split, cur, |Offsets|)
    ensures |frontier| > 0
  {
    if |frontier| == 0 {
      EverySquareReachable(s, t);
      BallDiscovered(s, dist, expanded, cur, |Offsets|, ReachBound(s, t));
    }
  }

  /** After the expansion of a position the queue still holds something;
      when the layer k part of it is used up, the head is in layer k + 1 and
      the search moves on to that layer. */
  lemma FinishExpansion(s: Pos, t: Pos, frontier: seq<Pos>, dist: map<Pos, nat>,
                        expanded: set<Pos>, k: nat, split: nat, cur: Pos)
      returns (k': nat, split': nat)
    requires SearchState(s, t, frontier, dist, expanded, k, split, cur, |Offsets|)
    ensures SearchState(s, t, frontier, dist, expanded, k', split', s, |Offsets|)
    ensures |frontier| > 0 && split' > 0
    ensures if split == 0 then k' == k + 1 && split' == |frontier| else k' == k && split' == split
  {
    QueueNeverEmpties(s, t, frontier, dist, expanded, k, split, cur);
    k', split' := k, split;
    if split == 0 {
      AdvanceLayer(s, t, frontier, dist, expanded, k, cur);
      k', split' := k + 1, |frontier|;
    }
  }
}
