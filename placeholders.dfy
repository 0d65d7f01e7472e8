/** The two search bodies as they stand in src/knight.cpp: each returns a
    placeholder before any search happens. */
module Placeholders {
  import opened Position
  import opened Harness

  /** The placeholder return of `minKnightMoves`. */
  function MinKnightMovesAsWritten(start: Pos, target: Pos): int
  {
    -1
  }

  /** The placeholder return of `getKnightPath`. */
  function GetKnightPathAsWritten(start: Pos, target: Pos): seq<Pos>
  {
    [start]
  }

  /** With the placeholders, the first check of `printResults` fails for
      every pair of positions: the reported distance is -1 while the
      one-position path has no moves. Every test case of the program fails. */
  lemma PlaceholdersFailEveryTest(start: Pos, target: Pos)
    ensures !PathAccepted(start, target, MinKnightMovesAsWritten(start, target),
                          GetKnightPathAsWritten(start, target))
  {
  }
}
