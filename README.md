# Knight moves on an unbounded board

A Dafny model of a small C++ library that answers two questions about a
chess knight on an infinite grid of integer squares: how many moves it needs
to get from one square to another (`minKnightMoves`), and which squares a
shortest route passes through (`getKnightPath`). Both are meant to be
breadth-first searches, as their numbered step comments describe: pop
positions off a FIFO queue, generate the eight L-shaped neighbours in a
fixed order, keep a visited set so that no position is queued twice, and
(for the path) record a parent link for each newly found position. Their
bodies are placeholders; see below. The model also covers the position type `Pos` with its equality
operators and hash, the board predicate `isValidPosition`, and the checks the
test program applies to the search results (`isValidKnightMove` and the
checks inside `printResults`).

The project has seven modules:

- `Position` (position.dfy): `Pos`, `operator==`, `operator!=`, `PosHash`.
- `Moves` (moves.dfy): the offset table, the neighbour function `Step`,
  knight paths, and a reference definition of knight distance that does not
  mention any search: `Ball(s, n)` is the set of squares within `n` moves of
  `s`, and `IsDistance(s, t, n)` says `n` is the least such `n` for `t`. The
  lemmas prove that every square is reachable, that distance is attained by a
  path and no path is shorter, and that distance is symmetric and invariant
  under translation.
- `Layers` (layers.dfy): the invariant of both searches and the lemmas
  that carry it across one step. The queue holds the discovered but
  unexpanded positions, each once: first those of the current layer, then
  those of the next one. Every neighbour of an expanded position has been
  discovered, and parent links point one layer closer to the start.
- `Search` (search.dfy): the two searches as imperative methods over a
  queue, a visited set and a parent map, proved against `IsDistance`. The
  expansion of one position (the loop over the eight neighbours) is a
  method of its own. Termination needs no fuel: the target lies beyond the
  current layer and within `ReachBound` moves, which bounds the layer
  number.
- `Board` (board.dfy): `isValidPosition` with its default board size -1.
- `Harness` (harness.dfy): `isValidKnightMove`, the path checks of
  `printResults` as a method with a loop, and the first two test cases.
- `Placeholders` (placeholders.dfy): the bodies of the two searches as they
  stand in the repository (see Findings).

The two search functions in src/knight.cpp are unfinished: each body returns
a placeholder, and the algorithm is spelled out in numbered step comments.
The methods `Search.MinKnightMoves` and `Search.GetKnightPath` model the
algorithm those comments prescribe. The placeholders are modelled separately.

Where the repository's documentation and its code differ, the model follows
the code:

- `isValidPosition` treats a board size of 0 or a negative size other than
  -1 as an empty board, because its bounds test fails for every position.
  The documentation only describes -1 and positive sizes.
- The header says `minKnightMoves` returns -1 when the target is unreachable.
  The model proves that this never happens: the queue cannot run dry before
  the target is found.

## Model

| member | source | states |
|---|---|---|
| Position.Equal | src/knight.h:32-34 | `operator==` holds exactly when both coordinates agree, that is, exactly on equal values |
| Position.NotEqual | src/knight.h:36-38 | `operator!=` is the negation of `operator==` and holds exactly on distinct values |
| Position.EqualIsEquivalence | src/knight.h:32-34 | componentwise equality is reflexive, symmetric and transitive |
| Position.EqualPositionsHashEqually | src/knight.h:42-46 | for any integer hash, equal positions get equal `PosHash` values |
| Moves.OffsetsAreTheKnightShapes | src/knight.cpp:22-24 | the table has eight pairwise distinct entries, each an L-shaped offset, and every L-shaped offset is in it |
| Moves.KnightStepIsLShaped | src/knight.cpp:16-17 | b is a generated neighbour of a exactly when b - a is an L-shaped offset |
| Moves.NeighboursAreDistinct | src/knight.cpp:22-24 | the eight neighbours of a position are pairwise distinct |
| Moves.KnightStepIsSymmetric | src/knight.cpp:22-24 | b is a neighbour of a exactly when a is a neighbour of b |
| Moves.JoinPaths | src/knight.cpp:22-24 | derived property of the fixed offsets, not a step of the source: two knight paths, the second starting where the first ends, join into one knight path whose move count is the sum of theirs |
| Moves.EverySquareReachable | src/knight.cpp:26-30 | on the unbounded board every target is within 3 × (Manhattan distance) moves of every start |
| Moves.DistanceIsShortest | src/knight.cpp:27-29 | no knight path from s to t has fewer moves than the distance |
| Moves.DistanceIsAttained | src/knight.cpp:27-29 | some knight path from s to t has exactly the distance as its number of moves |
| Moves.DistanceIsUnique | src/knight.cpp:27-29 | the distance between two positions is a single number |
| Moves.DistanceToSelf | src/knight.cpp:13 | a position is at distance 0 from itself |
| Moves.DistanceOfOneStep | src/knight.cpp:16-20 | a generated neighbour is at distance exactly 1 |
| Moves.Reversed | src/knight.cpp:52 | reversal keeps the length and puts element i at position length - 1 - i |
| Moves.ReversedPathIsKnightPath | src/knight.cpp:51-57 | a knight path read backwards is a knight path |
| Moves.DistanceIsSymmetric | src/knight.cpp:22-24 | distance from s to t is n exactly when distance from t to s is n |
| Moves.TranslatePath | src/knight.cpp:22-28 | helper for a derived property of the fixed offsets on the unbounded board (the source shifts no paths): shifting a path keeps its length and shifts each position |
| Moves.TranslatedPathIsKnightPath | src/knight.cpp:22-28 | derived property of the fixed offsets on the unbounded board: a shifted knight path is a knight path |
| Moves.BallTranslates | src/knight.cpp:22-28 | derived property of the fixed offsets on the unbounded board: shifting both ends keeps a target within n moves |
| Moves.DistanceIsTranslationInvariant | src/knight.cpp:22-28 | derived property of the fixed offsets on the unbounded board: the distance between two positions is unchanged when both are shifted by the same displacement, in both directions |
| Layers.InitialState | src/knight.cpp:14-15 | a queue holding only the start, at layer 0, satisfies the search invariant; the parent map starts empty |
| Layers.PopHead | src/knight.cpp:16 | popping the head of the queue starts the expansion of a position of the current layer, keeping the invariant |
| Layers.Enqueue | src/knight.cpp:19 | appending a position not seen before to the queue, in the next layer, keeps each queued position once and the layers in order |
| Layers.Discover | src/knight.cpp:19 | a neighbour not yet visited is enqueued once, in the next layer, with its parent recorded, keeping the invariant |
| Layers.Revisit | src/knight.cpp:19 | a neighbour already visited is skipped and nothing is enqueued or overwritten |
| Layers.PathDiscovered | src/knight.cpp:27 | once the layers below k are expanded, the end of any knight path of at most k moves from the start has been discovered no later than its length |
| Layers.BallDiscovered | src/knight.cpp:27 | once the layers below k are expanded, every position within k moves has been discovered |
| Layers.ChainPath | src/knight.cpp:55-56 | parent links lead from any discovered position back to the start along a knight path as long as its layer |
| Layers.TargetFound | src/knight.cpp:18-20 | when the target is a neighbour of a position of layer k, its distance is exactly k + 1, and recording its parent keeps the parent links sound |
| Layers.AdvanceLayer | src/knight.cpp:16 | when the current layer is used up, the whole queue is the next layer and the target is still further out |
| Layers.QueueNeverEmpties | src/knight.h:48-49 | the queue is never empty while the target is undiscovered, so the unreachable result cannot occur |
| Layers.FinishExpansion | src/knight.cpp:16-19 | after an expansion the queue is non-empty, and the layer advances exactly when the current layer is used up |
| Search.MinKnightMoves | src/knight.cpp:8-35 | the result is non-negative and is the knight distance from start to target; it is 0 when start equals target |
| Search.ExpandPosition | src/knight.cpp:16-20 | expanding one position either meets the target, whose distance is then one more than the position's, or keeps the search invariant with every neighbour discovered and the queue pairing each position with its distance |
| Search.GetKnightPath | src/knight.cpp:38-67 | the path is non-empty, starts at start, ends at target, consists of knight moves, has as many moves as the knight distance, and is [start] when start equals target |
| Search.ExpandWithParents | src/knight.cpp:47-50 | expanding one position either returns a shortest knight path from start to target or keeps the search invariant with every neighbour discovered; no recorded parent link is ever changed |
| Search.ReconstructPath | src/knight.cpp:51-57 | following parent links from the target and reversing gives a knight path from start to target with as many moves as the target's layer |
| Board.UnboundedBoardAcceptsAll | src/knight.cpp:92-94 | with the board size omitted or -1, every position is valid |
| Board.BoundedBoardIsTheSquare | src/knight.cpp:97-98 | for a positive size n, a position is valid exactly when both coordinates lie in [0, n) |
| Board.DegenerateBoardIsEmpty | src/knight.cpp:97-98 | for a size that is neither -1 nor positive, no position is valid |
| Harness.ValidKnightMoveIsKnightStep | src/main.cpp:35-39 | `isValidKnightMove` accepts exactly the moves the searches generate |
| Harness.ValidKnightMoveIsSymmetric | src/main.cpp:36-37 | `isValidKnightMove(a, b)` equals `isValidKnightMove(b, a)` |
| Harness.NoKnightMoveInPlace | src/main.cpp:36-38 | `isValidKnightMove(a, a)` is false |
| Harness.CheckPath | src/main.cpp:67-95 | the flag stays set exactly when the reported distance is the path's number of moves, the path starts at start, ends at target and every consecutive pair is a valid knight move |
| Harness.PrintResults | src/main.cpp:47-104 | for every pair of positions, the results of the two searches pass all the checks |
| Harness.SamePositionTest | src/main.cpp:113-129 | test case 1 passes, including its extra check that the distance is 0 |
| Harness.SingleKnightMoveTest | src/main.cpp:131-147 | test case 2 passes, including its extra check that the distance is 1 |
| Harness.OneMoveFromOrigin | src/main.cpp:134-143 | (2, 1) is exactly one move from (0, 0) |
| Harness.TwoMovesFromOrigin | src/main.cpp:152-153 | (0, 2) is exactly two moves from (0, 0) |
| Placeholders.PlaceholdersFailEveryTest | src/knight.cpp:34 | with the placeholder returns, the first check of `printResults` fails for every pair of positions |

## Left out

- Console output: `printPos`, the text printed by `printResults`, the test
  counters and the exit status of `main`.
- The integer hash of the C++ library: `PosHash` takes it as a parameter,
  so only its determinism is used.
- The bucket structure of `unordered_set` and `unordered_map`: they are
  Dafny `set` and `map` values keyed by `Pos`.
- C++ `int` overflow: coordinates and distances are unbounded integers.
- The -1 unreachable result of `minKnightMoves`: the model proves the queue
  never empties before the target is found, so no such return exists.
- Test cases 3 to 6 have no extra checks beyond `printResults`, so
  `Harness.PrintResults` covers them for every pair of positions. Their
  expected distances (such as 6 for (7, 7)) are not stated as constants;
  only (0, 2) at distance 2 is proved, by `Harness.TwoMovesFromOrigin`.
- The two searches do not call `isValidPosition`: on the unbounded board
  it accepts every neighbour, so no neighbour is filtered out.

## Findings

| source | as written | input that shows it | evidently intended | confidence | as-written member | corrected member |
|---|---|---|---|---|---|---|
| src/knight.cpp:34, src/knight.cpp:66 | both searches are unfinished and return the placeholders -1 and `{start}` | any pair, e.g. (0, 0) and (0, 0): distance -1 against a path of 0 moves fails the first check of `printResults` | the breadth-first search of the step comments, whose results pass every check | high, not executed | Placeholders.PlaceholdersFailEveryTest | Harness.PrintResults |
