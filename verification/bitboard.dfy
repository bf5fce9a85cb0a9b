/**
 * The 64-bit square set of the chess engine (`Bitboard` in src/chess.rs).
 *
 * Square a1 is 0, h1 is 7, a8 is 56 and h8 is 63: bit `sq` of the word is set
 * iff the square belongs to the set.  Squares and bit counts are kept as 8-bit
 * values so that every fact about single bits stays inside the bit-vector
 * theory.
 */
module Bitboards {

  type Bitboard = bv64

  /** A board square, `file + 8 * rank`. */
  type Square = s: bv8 | s < 64

  /** A shift amount or bit count: 0..64. */
  type BitCount = n: bv8 | n <= 64

  /** The one-square board `1 << sq`. */
  function Bit(sq: Square): Bitboard {
    1 << sq
  }

  /** Square `sq` is in the set: bit `sq` of the word is one. */
  predicate Has(b: Bitboard, sq: Square) {
    (b >> sq) & 1 == 1
  }

  /** The squares strictly below `n`: `(1 << n) - 1`, all ones for n = 64. */
  function LowMask(n: BitCount): Bitboard {
    (1 << n) - 1
  }

  // ---------------------------------------------------------------------------
  // The word operations of `Bitboard`
  // ---------------------------------------------------------------------------

  /** `has_entry_at`: the word has a one where the one-square board has it. */
  predicate HasEntryAt(b: Bitboard, sq: Square) {
    b & Bit(sq) != 0
  }

  /** `set_bit`, on the value of the word. */
  function SetBit(a: Bitboard, sq: Square): Bitboard {
    a | Bit(sq)
  }

  /** `clear_bit`, on the value of the word. */
  function ClearBit(a: Bitboard, sq: Square): Bitboard {
    a & !Bit(sq)
  }

  /** `has_bits`. */
  predicate HasBits(a: Bitboard) {
    a != 0
  }

  /** `lsh`; a shift of 64 or more is an arithmetic-overflow panic. */
  function Lsh(a: Bitboard, shift: Square): Bitboard {
    a << shift
  }

  /** `rsh` as written: the word is shifted LEFT, exactly as by `lsh`. */
  function Rsh(a: Bitboard, shift: Square): Bitboard {
    a << shift
  }

  // ---------------------------------------------------------------------------
  // The operations' meaning on sets of squares, one square at a time
  // ---------------------------------------------------------------------------

  lemma HasEntryAtHas(b: Bitboard, sq: Square)
    ensures HasEntryAt(b, sq) <==> Has(b, sq)
  {
  }

  lemma HasBit(a: Square, sq: Square)
    ensures Has(Bit(a), sq) <==> a == sq
  {
  }

  lemma HasZero(sq: Square)
    ensures !Has(0, sq)
  {
  }

  lemma HasAnd(a: Bitboard, b: Bitboard, sq: Square)
    ensures Has(a & b, sq) <==> Has(a, sq) && Has(b, sq)
  {
  }

  lemma HasOr(a: Bitboard, b: Bitboard, sq: Square)
    ensures Has(a | b, sq) <==> Has(a, sq) || Has(b, sq)
  {
  }

  lemma HasNeg(a: Bitboard, sq: Square)
    ensures Has(!a, sq) <==> !Has(a, sq)
  {
  }

  lemma HasXor(a: Bitboard, b: Bitboard, sq: Square)
    ensures Has(a ^ b, sq) <==> Has(a, sq) != Has(b, sq)
  {
  }

  /** `set_bit` adds square `sq` and changes nothing else. */
  lemma HasSetBit(a: Bitboard, sq: Square, j: Square)
    ensures Has(SetBit(a, sq), j) <==> Has(a, j) || j == sq
  {
    HasSet(a, sq, j);
  }

  lemma HasSet(a: Bitboard, sq: Square, j: Square)
    ensures Has(a | Bit(sq), j) <==> Has(a, j) || j == sq
  {
  }

  /** `clear_bit` removes square `sq` and changes nothing else. */
  lemma HasClearBit(a: Bitboard, sq: Square, j: Square)
    ensures Has(ClearBit(a, sq), j) <==> Has(a, j) && j != sq
  {
    HasClear(a, sq, j);
  }

  lemma HasClear(a: Bitboard, sq: Square, j: Square)
    ensures Has(a & !Bit(sq), j) <==> Has(a, j) && j != sq
  {
  }

  lemma HasSetBitOf(a: Bitboard, sq: Square, j: Square, r: Bitboard)
    requires r == SetBit(a, sq)
    ensures Has(r, j) <==> Has(a, j) || j == sq
  {
    HasSet(a, sq, j);
  }

  lemma HasClearBitOf(a: Bitboard, sq: Square, j: Square, r: Bitboard)
    requires r == ClearBit(a, sq)
    ensures Has(r, j) <==> Has(a, j) && j != sq
  {
    HasClear(a, sq, j);
  }

  /** Clearing a square just set restores a board that did not hold it. */
  lemma ClearSetBit(a: Bitboard, sq: Square)
    requires !Has(a, sq)
    ensures ClearBit(SetBit(a, sq), sq) == a
  {
  }

  lemma ClearSetBitOf(a: Bitboard, sq: Square, m: Bitboard, r: Bitboard)
    requires !Has(a, sq) && m == SetBit(a, sq) && r == ClearBit(m, sq)
    ensures r == a
  {
    ClearSetBit(a, sq);
  }

  /** Setting a square the board already holds changes nothing. */
  lemma SetPresent(a: Bitboard, sq: Square)
    requires Has(a, sq)
    ensures SetBit(a, sq) == a
  {
  }

  /** Clearing a square the board does not hold changes nothing. */
  lemma ClearAbsent(a: Bitboard, sq: Square)
    requires !Has(a, sq)
    ensures ClearBit(a, sq) == a
  {
  }

  /** Moving a bit from `f` to `t` a second time changes nothing. */
  lemma MoveBitAgain(a: Bitboard, f: Square, t: Square, m: Bitboard)
    requires f != t && m == SetBit(ClearBit(a, f), t)
    ensures SetBit(ClearBit(m, f), t) == m
  {
    HasClearBit(a, f, f);
    HasSetBit(ClearBit(a, f), t, f);
    ClearAbsent(m, f);
    HasSetBit(ClearBit(a, f), t, t);
    SetPresent(m, t);
  }

  /** Moving a bit from `f` to `t` changes nothing when `f` is empty and `t` already set. */
  lemma MoveBitKept(m: Bitboard, f: Square, t: Square)
    requires !Has(m, f) && Has(m, t)
    ensures SetBit(ClearBit(m, f), t) == m
  {
    ClearAbsent(m, f);
    SetPresent(m, t);
  }

  lemma HasLowMask(n: BitCount, sq: Square)
    ensures Has(LowMask(n), sq) <==> sq < n
  {
  }

  lemma NonEmpty(a: Bitboard, sq: Square)
    requires Has(a, sq)
    ensures a != 0
  {
  }

  /** `has_bits` holds exactly when some square is in the set. */
  lemma HasBitsSquare(a: Bitboard)
    ensures HasBits(a) <==> exists sq: Square :: Has(a, sq)
  {
    if a != 0 {
      TzcntLowest(a);
      assert Has(a, Tzcnt(a) as Square);
    } else {
      forall sq: Square ensures !Has(a, sq) { HasZero(sq); }
    }
  }

  /** `lsh` moves a single square up by `shift`. */
  lemma LshBit(sq: Square, shift: Square, t: Square)
    requires t == sq + shift
    ensures Lsh(Bit(sq), shift) == Bit(t)
  {
  }

  /** `rsh` moves a single square up as well, never down. */
  lemma RshBit(sq: Square, shift: Square, t: Square)
    requires t == sq + shift
    ensures Rsh(Bit(sq), shift) == Bit(t)
  {
    LshBit(sq, shift, t);
  }

  /** b1 shifted right by one would be a1; `rsh` yields c1. */
  lemma RshMovesUp()
    ensures Rsh(Bit(1), 1) == Bit(2)
    ensures Rsh(Bit(1), 1) != Bit(0)
  {
    RshBit(1, 1, 2);
    HasBit(2, 0);
    HasBit(0, 0);
  }

  // ---------------------------------------------------------------------------
  // Iteration primitives: tzcnt and blsr
  // ---------------------------------------------------------------------------

  /** None of the squares below `n` is in the set. */
  predicate NoneBelow(a: Bitboard, n: BitCount)
    decreases n
  {
    n == 0 || (!Has(a, (n - 1) as Square) && NoneBelow(a, n - 1))
  }

  lemma {:induction false} NoneBelowHas(a: Bitboard, n: BitCount, sq: Square)
    requires NoneBelow(a, n) && sq < n
    ensures !Has(a, sq)
    decreases n
  {
    if sq != n - 1 {
      NoneBelowHas(a, n - 1, sq);
    }
  }

  lemma LowMaskStep(a: Bitboard, n: Square)
    requires a & LowMask(n) == 0
    requires !Has(a, n)
    ensures a & LowMask(n + 1) == 0
  {
  }

  lemma LowMaskFull(a: Bitboard)
    ensures a & LowMask(64) == a
  {
  }

  lemma {:induction false} NoneBelowLowMask(a: Bitboard, n: BitCount)
    requires NoneBelow(a, n)
    ensures a & LowMask(n) == 0
    decreases n
  {
    if n > 0 {
      NoneBelowLowMask(a, n - 1);
      LowMaskStep(a, (n - 1) as Square);
    }
  }

  /** A word with no square set is zero. */
  lemma NoneBelowZero(a: Bitboard)
    requires NoneBelow(a, 64)
    ensures a == 0
  {
    NoneBelowLowMask(a, 64);
    LowMaskFull(a);
  }

  /** The scan of `trailing_zeros` from square `i` upwards: the first square in the set, 64 when none is left. */
  function LowestFrom(a: Bitboard, i: BitCount): BitCount
    decreases 64 - i
  {
    if i == 64 then i
    else if Has(a, i as Square) then i
    else LowestFrom(a, i + 1)
  }

  lemma {:induction false} LowestFromFirst(a: Bitboard, i: BitCount)
    requires NoneBelow(a, i)
    ensures i <= LowestFrom(a, i)
    ensures LowestFrom(a, i) < 64 ==> Has(a, LowestFrom(a, i) as Square)
    ensures NoneBelow(a, LowestFrom(a, i))
    decreases 64 - i
  {
    if i < 64 && !Has(a, i as Square) {
      LowestFromFirst(a, i + 1);
    }
  }

  /**
   * `tzcnt` (`trailing_zeros`): the lowest square of the set, 64 for the empty
   * set.
   */
  function Tzcnt(a: Bitboard): BitCount {
    LowestFrom(a, 0)
  }

  /** `tzcnt` finds the lowest set square, and reports 64 exactly for the empty board. */
  lemma TzcntLowest(a: Bitboard)
    ensures Tzcnt(a) < 64 <==> a != 0
    ensures Tzcnt(a) < 64 ==> Has(a, Tzcnt(a) as Square)
    ensures NoneBelow(a, Tzcnt(a))
  {
    LowestFromFirst(a, 0);
    var r := Tzcnt(a);
    if r < 64 {
      NonEmpty(a, r as Square);
    } else {
      NoneBelowZero(a);
    }
  }

  /** The lowest square of a one-square board is that square. */
  lemma TzcntBit(sq: Square)
    ensures Tzcnt(Bit(sq)) == sq
  {
    TzcntLowest(Bit(sq));
    HasBit(sq, sq);
    HasZero(sq);
    var r := Tzcnt(Bit(sq));
    if r < 64 {
      HasBit(sq, r as Square);
    }
  }

  /** No square below the one `tzcnt` reports is in the set. */
  lemma TzcntBelow(a: Bitboard, sq: Square)
    requires sq < Tzcnt(a)
    ensures !Has(a, sq)
  {
    TzcntLowest(a);
    NoneBelowHas(a, Tzcnt(a), sq);
  }

  /** Two words with the same squares are equal. */
  lemma Extensionality(a: Bitboard, b: Bitboard)
    requires forall sq: Square :: Has(a, sq) <==> Has(b, sq)
    ensures a == b
  {
    if a != b {
      TzcntLowest(a ^ b);
      var t := Tzcnt(a ^ b) as Square;
      HasXor(a, b, t);
    }
  }

  /** `blsr`: `a & a.wrapping_sub(1)`. */
  function Blsr(a: Bitboard): Bitboard {
    a & (a - 1)
  }

  lemma BlsrBits(a: Bitboard, t: Square)
    requires Has(a, t)
    requires a & LowMask(t) == 0
    ensures a & (a - 1) == a & !Bit(t)
  {
  }

  /** `blsr` removes exactly the lowest square of the set, the one `tzcnt` reports. */
  lemma BlsrClearsLowest(a: Bitboard)
    requires a != 0
    ensures Tzcnt(a) < 64 && Blsr(a) == ClearBit(a, Tzcnt(a) as Square)
  {
    TzcntLowest(a);
    var t := Tzcnt(a);
    NoneBelowLowMask(a, t);
    BlsrBits(a, t as Square);
  }

  /** After `blsr` the lowest square lies strictly higher, so a loop over the set terminates. */
  lemma BlsrTzcnt(a: Bitboard)
    requires a != 0
    ensures Tzcnt(Blsr(a)) > Tzcnt(a)
  {
    BlsrClearsLowest(a);
    TzcntLowest(a);
    TzcntLowest(Blsr(a));
    var t := Tzcnt(a) as Square;
    var u := Tzcnt(Blsr(a));
    if u <= t as bv8 {
      HasClearBit(a, t, u as Square);
      if u < t as bv8 {
        TzcntBelow(a, u as Square);
      }
    }
  }

  // ---------------------------------------------------------------------------
  // Counting: number_of_set_bits and the rank of a square within a mask
  // ---------------------------------------------------------------------------

  /** The number of squares of the set strictly below `n`. */
  function CountBelow(a: Bitboard, n: BitCount): nat
    decreases n
  {
    if n == 0 then 0
    else CountBelow(a, n - 1) + (if Has(a, (n - 1) as Square) then 1 else 0)
  }

  /** `number_of_set_bits` (`count_ones`). */
  function PopCount(a: Bitboard): nat {
    CountBelow(a, 64)
  }

  /** The square with index `k`, for a count known to be below 64. */
  function SquareAt(k: nat): (sq: Square)
    requires k < 64
    ensures sq as int == k
  {
    if k == 0 then 0 else SquareAt(k - 1) + 1
  }

  lemma SquareAtInjective(i: nat, j: nat)
    requires i < 64 && j < 64 && i != j
    ensures SquareAt(i) != SquareAt(j)
  {
  }

  /** No more squares are counted than there are squares below `n`. */
  lemma {:induction false} CountBelowBound(a: Bitboard, n: BitCount)
    ensures CountBelow(a, n) <= n as int
    decreases n
  {
    if n > 0 {
      CountBelowBound(a, n - 1);
    }
  }

  /** Below a square, fewer than 64 squares are counted. */
  lemma CountBelowSquare(a: Bitboard, sq: Square)
    ensures CountBelow(a, sq) < 64
  {
    CountBelowBound(a, sq);
  }

  /** Counting is monotone. */
  lemma {:induction false} CountBelowMono(a: Bitboard, i: BitCount, j: BitCount)
    requires i <= j
    ensures CountBelow(a, i) <= CountBelow(a, j)
    decreases j
  {
    if i < j {
      CountBelowMono(a, i, j - 1);
    }
  }

  /** Counting is strictly monotone past a square of the set. */
  lemma CountBelowStrict(a: Bitboard, sq: Square, j: BitCount)
    requires sq < j && Has(a, sq)
    ensures CountBelow(a, sq) < CountBelow(a, j)
  {
    CountBelowMono(a, sq + 1, j);
  }

  /** The empty board counts nothing. */
  lemma {:induction false} CountBelowZero(n: BitCount)
    ensures CountBelow(0, n) == 0
    decreases n
  {
    if n > 0 {
      HasZero((n - 1) as Square);
      CountBelowZero(n - 1);
    }
  }

  /** Every rank below the total count is the rank of some square of the set. */
  lemma {:induction false} CountBelowOnto(a: Bitboard, n: BitCount, k: nat)
    requires k < CountBelow(a, n)
    ensures exists sq: Square :: sq < n && Has(a, sq) && CountBelow(a, sq) == k
    decreases n
  {
    var m := (n - 1) as Square;
    if k < CountBelow(a, m) {
      CountBelowOnto(a, m, k);
    } else {
      assert Has(a, m) && CountBelow(a, m) == k;
    }
  }

  // ---------------------------------------------------------------------------
  // Occupancy compaction: `const_pext`
  // ---------------------------------------------------------------------------

  /**
   * The compacted word after the squares below `m` have been scanned: if
   * square `m - 1` is in `mask`, its bit of `a` is written to position
   * `CountBelow(mask, m - 1)`, which is set or cleared accordingly.
   */
  function PextUpTo(a: Bitboard, mask: Bitboard, m: BitCount): Bitboard
    decreases m
  {
    if m == 0 then 0
    else
      var prev := PextUpTo(a, mask, m - 1);
      CountBelowBound(mask, m - 1);
      var k := SquareAt(CountBelow(mask, m - 1));
      if Has(mask, (m - 1) as Square) then WriteBit(prev, k, Has(a, (m - 1) as Square)) else prev
  }

  /** Sets square `k` when `b` holds and clears it otherwise. */
  function WriteBit(w: Bitboard, k: Square, b: bool): Bitboard {
    if b then SetBit(w, k) else ClearBit(w, k)
  }

  lemma HasWriteBit(w: Bitboard, k: Square, b: bool, j: Square)
    ensures Has(WriteBit(w, k, b), j) <==> if j == k then b else Has(w, j)
  {
    HasSetBit(w, k, j);
    HasClearBit(w, k, j);
  }

  /** The compaction of `a` by `mask` (what the x86 `pext` instruction computes). */
  function Pext(a: Bitboard, mask: Bitboard): Bitboard {
    PextUpTo(a, mask, 64)
  }

  /** Positions at or above the number of mask squares scanned so far are still clear. */
  lemma {:induction false} PextUpToHigh(a: Bitboard, mask: Bitboard, m: BitCount, j: Square)
    requires CountBelow(mask, m) <= j as int
    ensures !Has(PextUpTo(a, mask, m), j)
    decreases m
  {
    if m == 0 {
      HasZero(j);
    } else {
      var p := (m - 1) as Square;
      CountBelowBound(mask, p);
      var k := SquareAt(CountBelow(mask, p));
      PextUpToHigh(a, mask, p, j);
      if Has(mask, p) {
        HasWriteBit(PextUpTo(a, mask, p), k, Has(a, p), j);
      }
    }
  }

  /** Each scanned mask square's bit of `a` sits at the square's rank within the mask. */
  lemma {:induction false} PextUpToRank(a: Bitboard, mask: Bitboard, m: BitCount, sq: Square)
    requires sq < m && Has(mask, sq)
    ensures CountBelow(mask, sq) < 64
    ensures Has(PextUpTo(a, mask, m), SquareAt(CountBelow(mask, sq))) <==> Has(a, sq)
    decreases m
  {
    var p := (m - 1) as Square;
    CountBelowSquare(mask, p);
    CountBelowSquare(mask, sq);
    var k := SquareAt(CountBelow(mask, p));
    var ks := SquareAt(CountBelow(mask, sq));
    var prev := PextUpTo(a, mask, p);
    if sq == p {
      HasWriteBit(prev, k, Has(a, p), k);
    } else {
      PextUpToRank(a, mask, p, sq);
      if Has(mask, p) {
        CountBelowStrict(mask, sq, p);
        SquareAtInjective(CountBelow(mask, sq), CountBelow(mask, p));
        HasWriteBit(prev, k, Has(a, p), ks);
      }
    }
  }

  /**
   * `const_pext` compacts: the bit at the rank of `sq` among the mask's
   * squares is the board's bit at `sq`.
   */
  lemma PextRank(a: Bitboard, mask: Bitboard, sq: Square)
    requires Has(mask, sq)
    ensures CountBelow(mask, sq) < 64
    ensures Has(Pext(a, mask), SquareAt(CountBelow(mask, sq))) <==> Has(a, sq)
  {
    PextUpToRank(a, mask, 64, sq);
  }

  /** No bit at or above the number of mask squares is set. */
  lemma PextHigh(a: Bitboard, mask: Bitboard, j: Square)
    requires PopCount(mask) <= j as int
    ensures !Has(Pext(a, mask), j)
  {
    PextUpToHigh(a, mask, 64, j);
  }

  /** Squares outside the mask do not influence the compaction. */
  lemma {:induction false} PextIgnoresOutside(a: Bitboard, mask: Bitboard, m: BitCount)
    ensures PextUpTo(a & mask, mask, m) == PextUpTo(a, mask, m)
    decreases m
  {
    if m > 0 {
      PextIgnoresOutside(a, mask, m - 1);
      HasAnd(a, mask, (m - 1) as Square);
    }
  }

  /** `const_pext`: the software bit gather, one mask square at a time. */
  method ConstPext(a: Bitboard, mask: Bitboard) returns (out: Bitboard)
    ensures out == Pext(a, mask)
  {
    var k: nat := 0;
    var m: BitCount := 0;
    out := 0;
    while m < 64
      invariant k == CountBelow(mask, m)
      invariant out == PextUpTo(a, mask, m)
      decreases 64 - m
    {
      HasEntryAtHas(mask, m as Square);
      HasEntryAtHas(a, m as Square);
      CountBelowBound(mask, m);
      if HasEntryAt(mask, m as Square) {
        if HasEntryAt(a, m as Square) {
          out := SetBit(out, SquareAt(k));
        } else {
          out := ClearBit(out, SquareAt(k));
        }
        k := k + 1;
      }
      m := m + 1;
    }
  }
}
