/** The move generator shared by both searches (src/knight.cpp, the offset
    table of the step comments) and the reference notion of knight distance
    the searches are proved against. */
module Moves {
  import opened Position

  /** The eight knight offsets (Δrow, Δcol), in the fixed order both searches
      expand them. */
  const Offsets: seq<(int, int)> :=
    [(2, 1), (2, -1), (-2, 1), (-2, -1), (1, 2), (1, -2), (-1, 2), (-1, -2)]

  function Abs(x: int): nat
  {
    if x < 0 then -x else x
  }

  /** An L-shaped displacement: two squares one way and one square the other. */
  predicate IsKnightOffset(dr: int, dc: int)
  {
    (Abs(dr) == 2 && Abs(dc) == 1) || (Abs(dr) == 1 && Abs(dc) == 2)
  }

  /** The j-th neighbour of p. The board is unbounded, so no neighbour is
      ever filtered out. */
  function Step(p: Pos, j: int): Pos
    requires 0 <= j < |Offsets|
  {
    Pos(p.row + Offsets[j].0, p.col + Offsets[j].1)
  }

  /** b is one of the eight generated neighbours of a. */
  predicate KnightStep(a: Pos, b: Pos)
  {
    exists j :: 0 <= j < |Offsets| && b == Step(a, j)
  }

  /** Consecutive positions of the path are generated neighbours. */
  predicate IsKnightPath(path: seq<Pos>)
  {
    forall i :: 0 < i < |path| ==> KnightStep(path[i - 1], path[i])
  }

  /** The table lists every L-shaped offset exactly once and nothing else. */
  lemma OffsetsAreTheKnightShapes(dr: int, dc: int)
    ensures |Offsets| == 8
    ensures forall j :: 0 <= j < |Offsets| ==> IsKnightOffset(Offsets[j].0, Offsets[j].1)
    ensures forall i, j :: 0 <= i < j < |Offsets| ==> Offsets[i] != Offsets[j]
    ensures IsKnightOffset(dr, dc) <==> (dr, dc) in Offsets
  {
  }

  /** A generated neighbour is exactly an L-shaped displacement away. */
  lemma KnightStepIsLShaped(a: Pos, b: Pos)
    ensures KnightStep(a, b) <==> IsKnightOffset(b.row - a.row, b.col - a.col)
  {
    var dr, dc := b.row - a.row, b.col - a.col;
    if IsKnightOffset(dr, dc) {
      OffsetsAreTheKnightShapes(dr, dc);
      var j :| 0 <= j < |Offsets| && Offsets[j] == (dr, dc);
      assert b == Step(a, j);
    }
  }

  /** The eight neighbours of a position are pairwise distinct. */
  lemma NeighboursAreDistinct(p: Pos, i: int, j: int)
    requires 0 <= i < j < |Offsets|
    ensures Step(p, i) != Step(p, j)
  {
    OffsetsAreTheKnightShapes(0, 0);
  }

  /** Moves are reversible: the opposite offset leads back. */
  lemma KnightStepIsSymmetric(a: Pos, b: Pos)
    ensures KnightStep(a, b) <==> KnightStep(b, a)
  {
    KnightStepIsLShaped(a, b);
    KnightStepIsLShaped(b, a);
  }

  // ---------------------------------------------------------------------
  // Knight distance, defined independently of any search.

  /** The positions reachable from s in at most n knight moves. */
  ghost function Ball(s: Pos, n: nat): set<Pos>
  {
    if n == 0 then {s} else Ball(s, n - 1) + Spread(Ball(s, n - 1))
  }

  /** Every neighbour of every member of b. */
  ghost function Spread(b: set<Pos>): set<Pos>
  {
    set p, j | p in b && 0 <= j < |Offsets| :: Step(p, j)
  }

  /** n is the least number of knight moves that takes s to t. */
  ghost predicate IsDistance(s: Pos, t: Pos, n: nat)
  {
    t in Ball(s, n) && (n == 0 || t !in Ball(s, n - 1))
  }

  /** The bound the reachability proof achieves: three moves per unit of
      Manhattan distance. */
  function ReachBound(s: Pos, t: Pos): nat
  {
    3 * (Abs(t.row - s.row) + Abs(t.col - s.col))
  }

  lemma {:induction false} BallGrows(s: Pos, m: nat, n: nat)
    requires m <= n
    ensures Ball(s, m) <= Ball(s, n)
  {
    if m < n {
      BallGrows(s, m, n - 1);
    }
  }

  lemma StepStaysInBall(s: Pos, p: Pos, n: nat, j: int)
    requires 0 < n && p in Ball(s, n - 1) && 0 <= j < |Offsets|
    ensures Step(p, j) in Ball(s, n)
  {
    assert Step(p, j) in Spread(Ball(s, n - 1));
  }

  /** Two knight paths, the second starting where the first ends, join into
      one knight path. */
  lemma JoinPaths(first: seq<Pos>, second: seq<Pos>) returns (path: seq<Pos>)
    requires |first| > 0 && |second| > 0 && first[|first| - 1] == second[0]
    requires IsKnightPath(first) && IsKnightPath(second)
    ensures |path| == |first| + |second| - 1
    ensures path[0] == first[0] && path[|path| - 1] == second[|second| - 1]
    ensures IsKnightPath(path)
  {
    path := first + second[1..];
    forall i | 0 < i < |path| ensures KnightStep(path[i - 1], path[i]) {
      if i < |first| {
        assert path[i - 1] == first[i - 1] && path[i] == first[i];
      } else {
        var i' := i - |first| + 1;
        assert path[i - 1] == second[i' - 1] && path[i] == second[i'];
      }
    }
  }

  /** Reaching q in a moves and then t from q in b moves reaches t in a + b. */
  lemma BallCompose(s: Pos, q: Pos, t: Pos, a: nat, b: nat)
    requires q in Ball(s, a) && t in Ball(q, b)
    ensures t in Ball(s, a + b)
  {
    var first := BallHasPath(s, q, a);
    var second := BallHasPath(q, t, b);
    var path := JoinPaths(first, second);
    PathEndsInBall(path);
    BallGrows(s, |path| - 1, a + b);
  }

  /** Three knight moves whose offsets are L-shaped stay within three moves. */
  lemma ThreeMoves(p: Pos, a: Pos, b: Pos, c: Pos)
    requires IsKnightOffset(a.row - p.row, a.col - p.col)
    requires IsKnightOffset(b.row - a.row, b.col - a.col)
    requires IsKnightOffset(c.row - b.row, c.col - b.col)
    ensures c in Ball(p, 3)
  {
    KnightStepIsLShaped(p, a);
    KnightStepIsLShaped(a, b);
    KnightStepIsLShaped(b, c);
    var i :| 0 <= i < |Offsets| && a == Step(p, i);
    var j :| 0 <= j < |Offsets| && b == Step(a, j);
    var k :| 0 <= k < |Offsets| && c == Step(b, k);
    assert p in Ball(p, 0);
    StepStaysInBall(p, p, 1, i);
    StepStaysInBall(p, a, 2, j);
    StepStaysInBall(p, b, 3, k);
  }

  /** On the unbounded board every position reaches every other one. */
  lemma {:induction false} EverySquareReachable(s: Pos, t: Pos)
    ensures t in Ball(s, ReachBound(s, t))
    decreases ReachBound(s, t)
  {
    if s == t {
      assert t in Ball(s, 0);
    } else {
      // three moves that make one unit of progress towards t
      var r, c := s.row, s.col;
      var a, b, u;
      if t.row > r {
        a, b, u := Pos(r + 2, c + 1), Pos(r + 3, c - 1), Pos(r + 1, c);
      } else if t.row < r {
        a, b, u := Pos(r - 2, c - 1), Pos(r - 3, c + 1), Pos(r - 1, c);
      } else if t.col > c {
        a, b, u := Pos(r + 1, c + 2), Pos(r - 1, c + 3), Pos(r, c + 1);
      } else {
        a, b, u := Pos(r - 1, c - 2), Pos(r + 1, c - 3), Pos(r, c - 1);
      }
      ThreeMoves(s, a, b, u);
      assert ReachBound(u, t) == ReachBound(s, t) - 3;
      EverySquareReachable(u, t);
      BallCompose(s, u, t, 3, ReachBound(u, t));
    }
  }

  /** A knight path of m moves ends within m moves of where it starts. */
  lemma {:induction false} PathEndsInBall(path: seq<Pos>)
    requires |path| > 0 && IsKnightPath(path)
    ensures path[|path| - 1] in Ball(path[0], |path| - 1)
  {
    if |path| == 1 {
      assert path[0] in Ball(path[0], 0);
    } else {
      var prefix := path[..|path| - 1];
      assert IsKnightPath(prefix) by {
        forall i | 0 < i < |prefix| ensures KnightStep(prefix[i - 1], prefix[i]) {
          assert prefix[i - 1] == path[i - 1] && prefix[i] == path[i];
        }
      }
      PathEndsInBall(prefix);
      assert KnightStep(path[|path| - 2], path[|path| - 1]);
      var j :| 0 <= j < |Offsets| && path[|path| - 1] == Step(path[|path| - 2], j);
      StepStaysInBall(path[0], path[|path| - 2], |path| - 1, j);
    }
  }

  /** Every member of the ball is the end of a knight path of at most n moves. */
  lemma {:induction false} BallHasPath(s: Pos, t: Pos, n: nat) returns (path: seq<Pos>)
    requires t in Ball(s, n)
    ensures 0 < |path| <= n + 1 && path[0] == s && path[|path| - 1] == t
    ensures IsKnightPath(path)
    decreases n
  {
    if n == 0 {
      path := [s];
    } else if t in Ball(s, n - 1) {
      path := BallHasPath(s, t, n - 1);
    } else {
      var u, j :| u in Ball(s, n - 1) && 0 <= j < |Offsets| && t == Step(u, j);
      var prefix := BallHasPath(s, u, n - 1);
      path := prefix + [t];
      forall i | 0 < i < |path| ensures KnightStep(path[i - 1], path[i]) {
        if i < |prefix| {
          assert path[i - 1] == prefix[i - 1] && path[i] == prefix[i];
        }
      }
    }
  }

  /** No knight path from s to t is shorter than the distance. */
  lemma DistanceIsShortest(s: Pos, t: Pos, n: nat, path: seq<Pos>)
    requires IsDistance(s, t, n)
    requires |path| > 0 && path[0] == s && path[|path| - 1] == t && IsKnightPath(path)
    ensures |path| - 1 >= n
  {
    PathEndsInBall(path);
    forall m: nat | m < n ensures t !in Ball(s, m) {
      BallGrows(s, m, n - 1);
    }
  }

  /** The distance is attained: some knight path from s to t has exactly n moves. */
  lemma DistanceIsAttained(s: Pos, t: Pos, n: nat) returns (path: seq<Pos>)
    requires IsDistance(s, t, n)
    ensures |path| == n + 1 && path[0] == s && path[|path| - 1] == t
    ensures IsKnightPath(path)
  {
    path := BallHasPath(s, t, n);
    DistanceIsShortest(s, t, n, path);
  }

  /** The distance between two positions is a single number. */
  lemma DistanceIsUnique(s: Pos, t: Pos, m: nat, n: nat)
    requires IsDistance(s, t, m) && IsDistance(s, t, n)
    ensures m == n
  {
    if m < n {
      BallGrows(s, m, n - 1);
    } else if n < m {
      BallGrows(s, n, m - 1);
    }
  }

  lemma DistanceToSelf(s: Pos)
    ensures IsDistance(s, s, 0)
  {
    assert s in Ball(s, 0);
  }

  lemma DistanceOfOneStep(s: Pos, t: Pos)
    requires KnightStep(s, t)
    ensures IsDistance(s, t, 1)
  {
    var j :| 0 <= j < |Offsets| && t == Step(s, j);
    assert s in Ball(s, 0);
    StepStaysInBall(s, s, 1, j);
    OffsetsAreTheKnightShapes(0, 0);
  }

  /** `std::reverse`: the same positions in the opposite order. */
  function Reversed(s: seq<Pos>): (r: seq<Pos>)
    ensures |r| == |s|
    ensures forall i :: 0 <= i < |s| ==> r[i] == s[|s| - 1 - i]
  {
    if s == [] then [] else Reversed(s[1..]) + [s[0]]
  }

  /** Read backwards, a knight path is a knight path between the same two
      positions. */
  lemma ReversedPathIsKnightPath(path: seq<Pos>)
    requires IsKnightPath(path)
    ensures IsKnightPath(Reversed(path))
  {
    var r := Reversed(path);
    forall i | 0 < i < |r| ensures KnightStep(r[i - 1], r[i]) {
      assert r[i - 1] == path[|path| - i] && r[i] == path[|path| - 1 - i];
      assert KnightStep(path[|path| - 1 - i], path[|path| - i]);
      KnightStepIsSymmetric(r[i - 1], r[i]);
    }
  }

  /** Knight distance is symmetric: moves are reversible. */
  lemma DistanceIsSymmetric(s: Pos, t: Pos, n: nat)
    requires IsDistance(s, t, n)
    ensures IsDistance(t, s, n)
  {
    var path := DistanceIsAttained(s, t, n);
    ReversedPathIsKnightPath(path);
    PathEndsInBall(Reversed(path));
    if n > 0 && s in Ball(t, n - 1) {
      var back := BallHasPath(t, s, n - 1);
      ReversedPathIsKnightPath(back);
      DistanceIsShortest(s, t, n, Reversed(back));
    }
  }

  /** p shifted by the displacement d. */
  function Translate(p: Pos, d: Pos): Pos
  {
    Pos(p.row + d.row, p.col + d.col)
  }

  /** Every position of the path shifted by d. */
  function TranslatePath(path: seq<Pos>, d: Pos): (r: seq<Pos>)
    ensures |r| == |path|
    ensures forall i :: 0 <= i < |path| ==> r[i] == Translate(path[i], d)
  {
    if path == [] then [] else [Translate(path[0], d)] + TranslatePath(path[1..], d)
  }

  /** Shifting a knight path gives a knight path. */
  lemma TranslatedPathIsKnightPath(path: seq<Pos>, d: Pos)
    requires IsKnightPath(path)
    ensures IsKnightPath(TranslatePath(path, d))
  {
    var r := TranslatePath(path, d);
    forall i | 0 < i < |r| ensures KnightStep(r[i - 1], r[i]) {
      assert KnightStep(path[i - 1], path[i]);
      KnightStepIsLShaped(path[i - 1], path[i]);
      KnightStepIsLShaped(r[i - 1], r[i]);
    }
  }

  /** Shifting both ends by d keeps a position within n moves. */
  lemma BallTranslates(s: Pos, t: Pos, d: Pos, n: nat)
    requires t in Ball(s, n)
    ensures Translate(t, d) in Ball(Translate(s, d), n)
  {
    var path := BallHasPath(s, t, n);
    TranslatedPathIsKnightPath(path, d);
    var moved := TranslatePath(path, d);
    PathEndsInBall(moved);
    BallGrows(Translate(s, d), |moved| - 1, n);
  }

  /** Knight distance depends only on the displacement between the two
      positions. */
  lemma DistanceIsTranslationInvariant(s: Pos, t: Pos, d: Pos, n: nat)
    ensures IsDistance(s, t, n) <==> IsDistance(Translate(s, d), Translate(t, d), n)
  {
    var back := Pos(-d.row, -d.col);
    assert Translate(Translate(s, d), back) == s && Translate(Translate(t, d), back) == t;
    if t in Ball(s, n) {
      BallTranslates(s, t, d, n);
    }
    if Translate(t, d) in Ball(Translate(s, d), n) {
      BallTranslates(Translate(s, d), Translate(t, d), back, n);
    }
    if n > 0 {
      if t in Ball(s, n - 1) {
        BallTranslates(s, t, d, n - 1);
      }
      if Translate(t, d) in Ball(Translate(s, d), n - 1) {
        BallTranslates(Translate(s, d), Translate(t, d), back, n - 1);
      }
    }
  }
}
