/**
 * Board geometry: files, ranks and squares built from them.
 *
 * The table generators split a square into file `x = sq % 8` and rank
 * `y = sq / 8` and put squares back together as `x + 8 * y`; proofs about
 * the tables are stated on these coordinates.
 */
module Geometry {
  import opened Bitboards

  /** The file (column) of a square: 0 for the a-file to 7 for the h-file. */
  function File(sq: Square): (x: bv8)
    ensures x < 8
  {
    sq % 8
  }

  /** The rank (row) index of a square: 0 for the first rank to 7 for the eighth. */
  function Rank(sq: Square): (y: bv8)
    ensures y < 8
  {
    sq / 8
  }

  /** The square on file `x` and rank `y`. */
  function SquareOf(x: bv8, y: bv8): Square
    requires x < 8 && y < 8
  {
    x + 8 * y
  }

  /** A square is put back together from its own file and rank. */
  lemma SquareOfCoordinates(sq: Square)
    ensures SquareOf(File(sq), Rank(sq)) == sq
  {
  }

  /** ... and the file and rank of a square built from coordinates are those coordinates. */
  lemma CoordinatesOfSquare(x: bv8, y: bv8)
    requires x < 8 && y < 8
    ensures File(SquareOf(x, y)) == x && Rank(SquareOf(x, y)) == y
  {
  }

  lemma SquareOfInjective(x: bv8, y: bv8, x': bv8, y': bv8)
    requires x < 8 && y < 8 && x' < 8 && y' < 8
    ensures SquareOf(x, y) == SquareOf(x', y') <==> x == x' && y == y'
  {
  }

  /** The distance between two coordinates. */
  function Dist(a: bv8, b: bv8): bv8 {
    if a < b then b - a else a - b
  }

  lemma DistSymmetric(a: bv8, b: bv8)
    ensures Dist(a, b) == Dist(b, a)
  {
  }

  /** Coordinates `k` apart: the second is `k` above the first or `k` below it. */
  lemma DistIs(a: bv8, b: bv8, k: bv8)
    requires a < 8 && b < 8 && 0 < k < 8
    ensures Dist(a, b) == k <==> (a + k < 8 && b == a + k) || (a >= k && b == a - k)
  {
  }
}
