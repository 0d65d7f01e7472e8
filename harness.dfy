/** The acceptance checks of the test program (src/main.cpp), without the
    console output: `isValidKnightMove`, the path checks of `printResults`
    and the extra distance checks of the first two test cases. */
module Harness {
  import opened Position
  import opened Moves
  import opened Search

  /** `isValidKnightMove`: the absolute row and column differences are
      two and one, in either order. */
  predicate IsValidKnightMove(from: Pos, to: Pos)
  {
    var rowDiff := Abs(from.row - to.row);
    var colDiff := Abs(from.col - to.col);
    (rowDiff == 2 && colDiff == 1) || (rowDiff == 1 && colDiff == 2)
  }

  /** The checker accepts exactly the moves the searches generate. */
  lemma ValidKnightMoveIsKnightStep(from: Pos, to: Pos)
    ensures IsValidKnightMove(from, to) <==> KnightStep(from, to)
  {
    KnightStepIsLShaped(from, to);
  }

  /** Absolute differences make the check symmetric. */
  lemma ValidKnightMoveIsSymmetric(a: Pos, b: Pos)
    ensures IsValidKnightMove(a, b) == IsValidKnightMove(b, a)
  {
  }

  /** Staying in place is never a knight move. */
  lemma NoKnightMoveInPlace(a: Pos)
    ensures !IsValidKnightMove(a, a)
  {
  }

  /** The conditions under which `printResults` keeps `testPassed` set: the
      reported distance is the number of moves of the path, the path starts
      at start and ends at target, and each move passes `isValidKnightMove`. */
  predicate PathAccepted(start: Pos, target: Pos, minMoves: int, path: seq<Pos>)
  {
    && minMoves == |path| - 1
    && |path| > 0 && path[0] == start && path[|path| - 1] == target
    && forall i :: 1 <= i < |path| ==> IsValidKnightMove(path[i - 1], path[i])
  }

  /** The checks of `printResults` on given results: the flag stays set
      exactly when the results are accepted. */
  method CheckPath(start: Pos, target: Pos, minMoves: int, path: seq<Pos>)
      returns (testPassed: bool)
    ensures testPassed <==> PathAccepted(start, target, minMoves, path)
  {
    testPassed := true;
    if minMoves != |path| - 1 {
      testPassed := false;
    }
    if |path| == 0 || path[0] != start {
      testPassed := false;
    }
    if |path| == 0 || path[|path| - 1] != target {
      testPassed := false;
    }
    ghost var headOk := testPassed;
    var i := 1;
    while i < |path|
      invariant 1 <= i && (i <= |path| || i == 1)
      invariant testPassed <==>
        headOk && forall m :: 1 <= m < i && m < |path| ==> IsValidKnightMove(path[m - 1], path[m])
    {
      if !IsValidKnightMove(path[i - 1], path[i]) {
        testPassed := false;
      }
      i := i + 1;
    }
  }

  /** `printResults` without the output: both searches run on the same pair
      and their results pass every check, whatever the pair. */
  method PrintResults(start: Pos, target: Pos) returns (testPassed: bool)
    ensures testPassed
  {
    var minMoves := MinKnightMoves(start, target);
    var path := GetKnightPath(start, target);
    DistanceIsUnique(start, target, minMoves, |path| - 1);
    forall i | 1 <= i < |path| ensures IsValidKnightMove(path[i - 1], path[i]) {
      ValidKnightMoveIsKnightStep(path[i - 1], path[i]);
    }
    testPassed := CheckPath(start, target, minMoves, path);
  }

  /** Test case 1: a position is zero moves from itself. */
  method SamePositionTest() returns (testPassed: bool)
    ensures testPassed
  {
    var start, target := Pos(0, 0), Pos(0, 0);
    testPassed := PrintResults(start, target);
    var moves := MinKnightMoves(start, target);
    DistanceToSelf(start);
    DistanceIsUnique(start, target, moves, 0);
    if moves != 0 {
      testPassed := false;
    }
  }

  /** Test case 2: (2, 1) is one knight move from the origin. */
  method SingleKnightMoveTest() returns (testPassed: bool)
    ensures testPassed
  {
    var start, target := Pos(0, 0), Pos(2, 1);
    testPassed := PrintResults(start, target);
    var moves := MinKnightMoves(start, target);
    OneMoveFromOrigin();
    DistanceIsUnique(start, target, moves, 1);
    if moves != 1 {
      testPassed := false;
    }
  }

  /** The distance the second test case expects. */
  lemma OneMoveFromOrigin()
    ensures IsDistance(Pos(0, 0), Pos(2, 1), 1)
  {
    assert Pos(2, 1) == Step(Pos(0, 0), 0);
    DistanceOfOneStep(Pos(0, 0), Pos(2, 1));
  }

  /** The distance behind test case 3: (0, 2) is two moves from the origin,
      through (2, 1), and not one. */
  lemma TwoMovesFromOrigin()
    ensures IsDistance(Pos(0, 0), Pos(0, 2), 2)
  {
    var o, m, t := Pos(0, 0), Pos(2, 1), Pos(0, 2);
    assert o in Ball(o, 0);
    assert m == Step(o, 0);
    StepStaysInBall(o, o, 1, 0);
    assert t == Step(m, 2);
    StepStaysInBall(o, m, 2, 2);
    forall j | 0 <= j < |Offsets| ensures Step(o, j) != t {
      KnightStepIsLShaped(o, Step(o, j));
    }
  }
}
