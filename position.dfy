/** Board coordinates (src/knight.h): a position is a pair of unbounded
    integers, compared field by field and hashed from both fields. */
module Position {

  /** A square on the unbounded board; rows and columns may be negative. */
  datatype Pos = Pos(row: int, col: int)

  /** `Pos::operator==`: two positions are equal when both coordinates agree.
      This coincides with Dafny's value equality on `Pos`. */
  function Equal(a: Pos, b: Pos): (r: bool)
    ensures r <==> a == b
  {
    a.row == b.row && a.col == b.col
  }

  /** `Pos::operator!=`: defined as the negation of `operator==`. */
  function NotEqual(a: Pos, b: Pos): (r: bool)
    ensures r <==> a != b
    ensures r <==> !Equal(a, b)
  {
    !Equal(a, b)
  }

  /** Componentwise equality is an equivalence relation. */
  lemma EqualIsEquivalence(a: Pos, b: Pos, c: Pos)
    ensures Equal(a, a)
    ensures Equal(a, b) == Equal(b, a)
    ensures Equal(a, b) && Equal(b, c) ==> Equal(a, c)
  {
  }

  /** `PosHash::operator()`: the hash of the row combined by exclusive-or with
      the hash of the column shifted left by one bit. The integer hash of the
      C++ library is a parameter: only its determinism matters here. */
  function PosHash(intHash: int -> bv64, p: Pos): bv64
  {
    intHash(p.row) ^ (intHash(p.col) << 1)
  }

  /** Equal positions land in the same bucket, whatever the integer hash is:
      the hash reads nothing but the two coordinates. */
  lemma EqualPositionsHashEqually(intHash: int -> bv64, a: Pos, b: Pos)
    requires Equal(a, b)
    ensures PosHash(intHash, a) == PosHash(intHash, b)
  {
  }
}
