/**
 * The occupancy-compaction tables of src/pext_consts.rs (the whole file is
 * commented out in the repository; the model follows its text).
 *
 * For a rook-like ("plus") or bishop-like ("x") piece on `sq`, only the
 * squares of its rank/file or diagonals that are not on the board's frame
 * and not `sq` itself can block it: these relevant squares are
 * `LOOKUP_*_NO_FRAME_NO_CENTER[sq]`.  An occupancy index `p` is unfolded onto
 * them by `inverse_pext`, the inverse of `const_pext`, and the attacked
 * squares are found by walking the four arms until the first occupied square.
 */
module PextTables {
  import opened Bitboards
  import opened Geometry
  import opened AttackTables
  import opened BitLoop
  import opened PathTable

  // ---------------------------------------------------------------------------
  // get_proper_frame
  // ---------------------------------------------------------------------------

  /**
   * `get_proper_frame`: the board's outer ranks and files, leaving out each
   * edge that the square (x, y) itself lies on.
   */
  function ProperFrame(x: bv8, y: bv8): Bitboard
    requires x < 8 && y < 8
  {
    if 0 < x < 7 && 0 < y < 7 then 0xFF818181818181FF
    else if x == 0 && 0 < y < 7 then 0xFF808080808080FF
    else if x == 7 && 0 < y < 7 then 0xFF010101010101FF
    else if 0 < x < 7 && y == 0 then 0xFF81818181818181
    else if 0 < x < 7 && y == 7 then 0x81818181818181FF
    else if x == 0 && y == 0 then 0xFF80808080808080
    else if x == 0 && y == 7 then 0x80808080808080FF
    else if x == 7 && y == 0 then 0xFF01010101010101
    else 0x01010101010101FF
  }

  /** (tx, ty) lies on an edge of the board that does not pass through (x, y). */
  predicate OnFrame(x: bv8, y: bv8, tx: bv8, ty: bv8) {
    (ty == 0 && y != 0) || (ty == 7 && y != 7) || (tx == 0 && x != 0) || (tx == 7 && x != 7)
  }

  /** The frame holds exactly the squares on the edges not through (x, y). */
  lemma ProperFrameMembers(x: bv8, y: bv8, tx: bv8, ty: bv8)
    requires x < 8 && y < 8 && tx < 8 && ty < 8
    ensures Has(ProperFrame(x, y), SquareOf(tx, ty)) <==> OnFrame(x, y, tx, ty)
  {
  }

  // ---------------------------------------------------------------------------
  // LOOKUP_PLUS_NO_FRAME_NO_CENTER, LOOKUP_X_NO_FRAME_NO_CENTER
  // ---------------------------------------------------------------------------

  /** `mask & !frame & !(1 << sq)`: the part of `mask` off the proper frame of (x, y) and off (x, y) itself. */
  function Relevant(mask: Bitboard, x: bv8, y: bv8): Bitboard
    requires x < 8 && y < 8
  {
    mask & !ProperFrame(x, y) & !Bit(SquareOf(x, y))
  }

  /** `PLUS_MASK[sq] & !frame & !(1 << sq)`: the squares that can block a rook-like piece on (x, y). */
  function PlusRelevant(x: bv8, y: bv8): Bitboard
    requires x < 8 && y < 8
  {
    Relevant(PlusMask(x, y), x, y)
  }

  /** `X_MASK[sq] & !frame & !(1 << sq)`: the squares that can block a bishop-like piece on (x, y). */
  function XRelevant(x: bv8, y: bv8): Bitboard
    requires x < 8 && y < 8
  {
    Relevant(XMask(x, y), x, y)
  }

  /** Removing a frame and one square from a mask, square by square. */
  lemma HasMasked(m: Bitboard, frame: Bitboard, s: Square, t: Square)
    ensures Has(m & !frame & !Bit(s), t) <==> Has(m, t) && !Has(frame, t) && s != t
  {
    HasAnd(m & !frame, !Bit(s), t);
    HasAnd(m, !frame, t);
    HasNeg(frame, t);
    HasNeg(Bit(s), t);
    HasBit(s, t);
  }

  /** A square of the mask is relevant unless it is on the proper frame or is (x, y) itself. */
  lemma RelevantMembers(mask: Bitboard, x: bv8, y: bv8, tx: bv8, ty: bv8, inMask: bool)
    requires x < 8 && y < 8 && tx < 8 && ty < 8
    requires Has(mask, SquareOf(tx, ty)) <==> inMask
    ensures Has(Relevant(mask, x, y), SquareOf(tx, ty))
      <==> inMask && !OnFrame(x, y, tx, ty) && (tx != x || ty != y)
  {
    HasMasked(mask, ProperFrame(x, y), SquareOf(x, y), SquareOf(tx, ty));
    ProperFrameMembers(x, y, tx, ty);
    SquareOfInjective(x, y, tx, ty);
  }

  /** The plus relevant squares: the rank and file of (x, y), without the frame and without (x, y). */
  lemma PlusRelevantMembers(x: bv8, y: bv8, tx: bv8, ty: bv8)
    requires x < 8 && y < 8 && tx < 8 && ty < 8
    ensures Has(PlusRelevant(x, y), SquareOf(tx, ty))
      <==> (tx == x || ty == y) && !OnFrame(x, y, tx, ty) && (tx != x || ty != y)
  {
    PlusMaskMembers(x, y, tx, ty);
    RelevantMembers(PlusMask(x, y), x, y, tx, ty, tx == x || ty == y);
  }

  /** The x relevant squares: the diagonals of (x, y), without the frame and without (x, y). */
  lemma XRelevantMembers(x: bv8, y: bv8, tx: bv8, ty: bv8)
    requires x < 8 && y < 8 && tx < 8 && ty < 8
    ensures Has(XRelevant(x, y), SquareOf(tx, ty))
      <==> Dist(x, tx) == Dist(y, ty) && !OnFrame(x, y, tx, ty) && (tx != x || ty != y)
  {
    XMaskMembers(x, y, tx, ty);
    RelevantMembers(XMask(x, y), x, y, tx, ty, Dist(x, tx) == Dist(y, ty));
  }

  /** LOOKUP_PLUS_NO_FRAME_NO_CENTER. */
  method BuildPlusRelevant() returns (table: array<Bitboard>)
    ensures table.Length == 64
    ensures forall sq: Square :: table[sq] == PlusRelevant(File(sq), Rank(sq))
  {
    table := Tabulate((x, y) requires x < 8 && y < 8 => PlusRelevant(x, y));
  }

  /** LOOKUP_X_NO_FRAME_NO_CENTER. */
  method BuildXRelevant() returns (table: array<Bitboard>)
    ensures table.Length == 64
    ensures forall sq: Square :: table[sq] == XRelevant(File(sq), Rank(sq))
  {
    table := Tabulate((x, y) requires x < 8 && y < 8 => XRelevant(x, y));
  }

  // ---------------------------------------------------------------------------
  // inverse_pext: depositing the bits of an index onto the squares of a mask
  // ---------------------------------------------------------------------------

  /**
   * The squares `sqs` visited from the `k`-th mask square on, each added to
   * `acc` when bit `cnt` of `p` is set (`cnt` counting up from `k`).
   */
  function Deposit(acc: Bitboard, p: Bitboard, sqs: seq<Square>, k: nat): Bitboard
    requires k + |sqs| <= 64
    decreases |sqs|
  {
    if sqs == [] then acc
    else Deposit(if Has(p, SquareAt(k)) then acc | Bit(sqs[0]) else acc, p, sqs[1..], k + 1)
  }

  /** A board has at most 64 squares, so the deposit loop's counter stays below 64. */
  lemma SquaresFromFit(mask: Bitboard, i: BitCount)
    ensures CountBelow(mask, i) + |SquaresFrom(mask, i)| <= 64
  {
    SquaresFromLength(mask, i);
    CountBelowBound(mask, 64);
  }

  /** One square of the deposit. */
  lemma DepositStep(acc: Bitboard, p: Bitboard, sq: Square, rest: seq<Square>, k: nat)
    requires k + 1 + |rest| <= 64
    ensures Deposit(acc, p, [sq] + rest, k)
      == Deposit(if Has(p, SquareAt(k)) then acc | Bit(sq) else acc, p, rest, k + 1)
  {
    assert ([sq] + rest)[1..] == rest;
  }

  /** Adding square `sq` to `acc` when `c` holds. */
  lemma HasAddWhen(acc: Bitboard, c: bool, sq: Square, t: Square)
    ensures Has(if c then acc | Bit(sq) else acc, t) <==> Has(acc, t) || (c && t == sq)
  {
    HasOr(acc, Bit(sq), t);
    HasBit(sq, t);
  }

  /** The count below the next square. */
  lemma CountBelowNext(mask: Bitboard, sq: Square, j: BitCount)
    requires j as int == sq as int + 1
    ensures CountBelow(mask, j) == CountBelow(mask, sq) + (if Has(mask, sq) then 1 else 0)
  {
  }

  /** Square `t` is at or above `sq` exactly when it is `sq` or at or above the next square `j`. */
  lemma AtOrAbove(sq: Square, j: BitCount, t: Square)
    requires j as int == sq as int + 1
    ensures sq <= t <==> t == sq || j <= t
  {
  }

  /** The bit of a compacted index that mask square `sq` corresponds to: the number of mask squares below it. */
  function MaskRank(mask: Bitboard, sq: Square): (k: Square)
    ensures k as int == CountBelow(mask, sq)
  {
    CountBelowSquare(mask, sq);
    SquareAt(CountBelow(mask, sq))
  }

  /** Square `t` receives the bit of `p` at its rank in `mask`, when `t` is a mask square at or above `i`. */
  predicate Deposited(acc: Bitboard, p: Bitboard, mask: Bitboard, i: BitCount, t: Square) {
    Has(acc, t) || (i <= t && Has(mask, t) && Has(p, MaskRank(mask, t)))
  }

  /** The deposit loop from square `i` on. */
  function DepositFromSquare(acc: Bitboard, p: Bitboard, mask: Bitboard, i: BitCount): Bitboard {
    SquaresFromFit(mask, i);
    Deposit(acc, p, SquaresFrom(mask, i), CountBelow(mask, i))
  }

  /** One step of the deposit loop, on a mask square. */
  lemma DepositFromHit(acc: Bitboard, p: Bitboard, mask: Bitboard, i: BitCount, sq: Square, j: BitCount)
    requires i == sq && j as int == sq as int + 1 && Has(mask, sq)
    ensures DepositFromSquare(acc, p, mask, i)
      == DepositFromSquare(if Has(p, MaskRank(mask, sq)) then acc | Bit(sq) else acc, p, mask, j)
  {
    var k := CountBelow(mask, sq);
    var rest := SquaresFrom(mask, j);
    SquaresFromFit(mask, j);
    CountBelowNext(mask, sq, j);
    SquaresFromNext(mask, sq, j);
    DepositStep(acc, p, sq, rest, k);
  }

  /** What square `t` holds is unchanged by moving a hit mask square from the pending part into `acc`. */
  lemma DepositedHit(acc: Bitboard, p: Bitboard, mask: Bitboard, sq: Square, j: BitCount, t: Square)
    requires j as int == sq as int + 1 && Has(mask, sq)
    ensures Deposited(if Has(p, MaskRank(mask, sq)) then acc | Bit(sq) else acc, p, mask, j, t)
      <==> Deposited(acc, p, mask, sq, t)
  {
    AtOrAbove(sq, j, t);
    HasAddWhen(acc, Has(p, MaskRank(mask, sq)), sq, t);
  }

  /** One step of the deposit loop, off the mask. */
  lemma DepositFromMiss(acc: Bitboard, p: Bitboard, mask: Bitboard, i: BitCount, sq: Square, j: BitCount)
    requires i == sq && j as int == sq as int + 1 && !Has(mask, sq)
    ensures DepositFromSquare(acc, p, mask, i) == DepositFromSquare(acc, p, mask, j)
  {
    CountBelowNext(mask, sq, j);
    SquaresFromNext(mask, sq, j);
  }

  /** What square `t` holds does not depend on whether the pending part starts at or after a non-mask square. */
  lemma DepositedMiss(acc: Bitboard, p: Bitboard, mask: Bitboard, sq: Square, j: BitCount, t: Square)
    requires j as int == sq as int + 1 && !Has(mask, sq)
    ensures Deposited(acc, p, mask, j, t) <==> Deposited(acc, p, mask, sq, t)
  {
    AtOrAbove(sq, j, t);
  }

  /** What `inverse_pext` returns: the deposit of `p` over all the squares of `mask`, lowest first. */
  function Pdep(p: Bitboard, mask: Bitboard): Bitboard {
    DepositFromSquare(0, p, mask, 0)
  }

  /** From square `i` on, square `t` of the mask receives the bit of `p` at the rank of `t` in the mask. */
  lemma {:induction false} DepositFrom(acc: Bitboard, p: Bitboard, mask: Bitboard, i: BitCount, t: Square)
    ensures Has(DepositFromSquare(acc, p, mask, i), t) <==> Deposited(acc, p, mask, i, t)
    decreases 64 - i
  {
    if i < 64 {
      var j: BitCount := i + 1;
      if Has(mask, i as Square) {
        var acc' := if Has(p, MaskRank(mask, i as Square)) then acc | Bit(i as Square) else acc;
        DepositFromHit(acc, p, mask, i, i as Square, j);
        DepositedHit(acc, p, mask, i as Square, j, t);
        DepositFrom(acc', p, mask, j, t);
      } else {
        DepositFromMiss(acc, p, mask, i, i as Square, j);
        DepositedMiss(acc, p, mask, i as Square, j, t);
        DepositFrom(acc, p, mask, j, t);
      }
    } else {
      assert SquaresFrom(mask, i) == [];
    }
  }

  /** `inverse_pext` puts bit k of `p` on the k-th square of `mask` and sets nothing off the mask. */
  lemma PdepMembers(p: Bitboard, mask: Bitboard, t: Square)
    ensures Has(Pdep(p, mask), t) <==> Has(mask, t) && Has(p, MaskRank(mask, t))
  {
    DepositFrom(0, p, mask, 0, t);
    HasZero(t);
  }

  /**
   * `inverse_pext`: walks the squares of `mask` lowest first, counting them
   * with `cnt`, and sets each square whose counter bit is set in `pext`.
   */
  method InversePext(pext: Bitboard, mask: Bitboard) returns (unfolded: Bitboard)
    ensures unfolded == Pdep(pext, mask)
  {
    unfolded := 0;
    var cnt: nat := 0;
    var b := mask;
    SquaresFromFit(mask, 0);
    while HasBits(b)
      invariant cnt + |Squares(b)| <= 64
      invariant Deposit(unfolded, pext, Squares(b), cnt) == Pdep(pext, mask)
      decreases |Squares(b)|
    {
      SquaresStep(b);
      var sq := Tzcnt(b) as Square;
      DepositStep(unfolded, pext, sq, Squares(Blsr(b)), cnt);
      if Has(pext, SquareAt(cnt)) {
        unfolded := unfolded | Bit(sq);
      }
      cnt := cnt + 1;
      b := Blsr(b);
    }
    assert b == 0;
    TzcntLowest(b);
    SquaresFromFirst(b, 0);
  }

  /** Every index bit below the number of mask squares belongs to some mask square. */
  lemma MaskSquareOfRank(mask: Bitboard, j: Square) returns (sq: Square)
    requires (j as int) < PopCount(mask)
    ensures Has(mask, sq) && MaskRank(mask, sq) == j
  {
    CountBelowOnto(mask, 64, j as int);
    sq :| Has(mask, sq) && CountBelow(mask, sq) == j as int;
  }

  /** Compacting what was unfolded gives back the index, when the index has no bit beyond the mask's size. */
  lemma PextPdepAt(p: Bitboard, mask: Bitboard, j: Square)
    requires PopCount(mask) <= j as int ==> !Has(p, j)
    ensures Has(Pext(Pdep(p, mask), mask), j) <==> Has(p, j)
  {
    if (j as int) < PopCount(mask) {
      var sq := MaskSquareOfRank(mask, j);
      PextRank(Pdep(p, mask), mask, sq);
      PdepMembers(p, mask, sq);
    } else {
      PextHigh(Pdep(p, mask), mask, j);
    }
  }

  /** `const_pext(inverse_pext(p, mask), mask) == p` for every index `p` below `2^popcount(mask)`. */
  lemma PextPdep(p: Bitboard, mask: Bitboard)
    requires forall j: Square :: PopCount(mask) <= j as int ==> !Has(p, j)
    ensures Pext(Pdep(p, mask), mask) == p
  {
    forall j: Square
      ensures Has(Pext(Pdep(p, mask), mask), j) <==> Has(p, j)
    {
      PextPdepAt(p, mask, j);
    }
    Extensionality(Pext(Pdep(p, mask), mask), p);
  }

  /** Unfolding the compacted occupancy recovers the occupancy on the mask. */
  lemma PdepPextAt(occ: Bitboard, mask: Bitboard, t: Square)
    ensures Has(Pdep(Pext(occ, mask), mask), t) <==> Has(occ & mask, t)
  {
    PdepMembers(Pext(occ, mask), mask, t);
    HasAnd(occ, mask, t);
    if Has(mask, t) {
      PextRank(occ, mask, t);
    }
  }

  /** `inverse_pext(const_pext(occ, mask), mask) == occ & mask`. */
  lemma PdepPext(occ: Bitboard, mask: Bitboard)
    ensures Pdep(Pext(occ, mask), mask) == occ & mask
  {
    forall t: Square
      ensures Has(Pdep(Pext(occ, mask), mask), t) <==> Has(occ & mask, t)
    {
      PdepPextAt(occ, mask, t);
    }
    Extensionality(Pdep(Pext(occ, mask), mask), occ & mask);
  }
}
