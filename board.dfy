/** `isValidPosition` (src/knight.cpp): whether a position lies on the board.
    A board size of -1, the default, stands for the unbounded board. */
module Board {
  import opened Position

  /** The default board size: the unbounded board. */
  const Unbounded: int := -1

  /** `isValidPosition(pos, boardSize)`: every position is on the unbounded
      board; otherwise both coordinates must lie in [0, boardSize). */
  function IsValidPosition(pos: Pos, boardSize: int := Unbounded): bool
  {
    if boardSize == Unbounded then true
    else pos.row >= 0 && pos.row < boardSize && pos.col >= 0 && pos.col < boardSize
  }

  /** With the size left out, or given as -1, every position is valid. */
  lemma UnboundedBoardAcceptsAll(pos: Pos)
    ensures IsValidPosition(pos)
    ensures IsValidPosition(pos, -1)
  {
  }

  /** On an n-by-n board the valid positions are exactly the n * n squares
      with both coordinates in [0, n). */
  lemma BoundedBoardIsTheSquare(pos: Pos, n: int)
    requires n > 0
    ensures IsValidPosition(pos, n) <==> 0 <= pos.row < n && 0 <= pos.col < n
  {
  }

  /** A size that is neither -1 nor positive describes an empty board. */
  lemma DegenerateBoardIsEmpty(pos: Pos, n: int)
    requires n <= 0 && n != -1
    ensures !IsValidPosition(pos, n)
  {
  }
}
