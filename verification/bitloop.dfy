/**
 * The `bitloop!` macro of src/compile_time_constants.rs: run a body once for
 * every square of a bitboard, taking the lowest square with `tzcnt` and
 * dropping it with `blsr` until the board is empty.
 *
 * The body is whatever the caller writes, so the model records the squares it
 * is run for, in order.
 */
module BitLoop {
  import opened Bitboards

  /** The squares of `a` from index `i` upwards, in increasing order. */
  function SquaresFrom(a: Bitboard, i: BitCount): seq<Square>
    decreases 64 - i
  {
    if i == 64 then []
    else if Has(a, i as Square) then [i as Square] + SquaresFrom(a, i + 1)
    else SquaresFrom(a, i + 1)
  }

  /** One step of SquaresFrom. */
  lemma SquaresFromNext(a: Bitboard, sq: Square, j: BitCount)
    requires j as int == sq as int + 1
    ensures SquaresFrom(a, sq) == if Has(a, sq) then [sq] + SquaresFrom(a, j) else SquaresFrom(a, j)
  {
  }

  /** All squares of `a`, lowest first. */
  function Squares(a: Bitboard): seq<Square> {
    SquaresFrom(a, 0)
  }

  /** A square is listed exactly when it is in the set and not below the start. */
  lemma {:induction false} SquaresFromMembers(a: Bitboard, i: BitCount, t: Square)
    ensures t in SquaresFrom(a, i) <==> i <= t && Has(a, t)
    decreases 64 - i
  {
    if i < 64 {
      SquaresFromMembers(a, i + 1, t);
    }
  }

  /** The list is strictly increasing. */
  lemma {:induction false} SquaresFromIncreasing(a: Bitboard, i: BitCount)
    ensures forall j, k :: 0 <= j < k < |SquaresFrom(a, i)| ==> SquaresFrom(a, i)[j] < SquaresFrom(a, i)[k]
    decreases 64 - i
  {
    if i < 64 {
      SquaresFromIncreasing(a, i + 1);
      var rest := SquaresFrom(a, i + 1);
      forall k | 0 <= k < |rest|
        ensures i < rest[k]
      {
        SquaresFromMembers(a, i + 1, rest[k]);
      }
    }
  }

  /** The list has one entry per square counted by `PopCount`. */
  lemma {:induction false} SquaresFromLength(a: Bitboard, i: BitCount)
    ensures |SquaresFrom(a, i)| + CountBelow(a, i) == PopCount(a)
    decreases 64 - i
  {
    if i < 64 {
      SquaresFromLength(a, i + 1);
    }
  }

  /** The list starts at the lowest square at or above `i`. */
  lemma {:induction false} SquaresFromFirst(a: Bitboard, i: BitCount)
    ensures SquaresFrom(a, i) ==
      if LowestFrom(a, i) == 64 then []
      else [LowestFrom(a, i) as Square] + SquaresFrom(a, LowestFrom(a, i) + 1)
    decreases 64 - i
  {
    if i < 64 && !Has(a, i as Square) {
      SquaresFromFirst(a, i + 1);
    }
  }

  /** Clearing a square below `i` does not change the list from `i` on. */
  lemma {:induction false} SquaresFromClearBelow(a: Bitboard, t: Square, i: BitCount)
    requires t < i
    ensures SquaresFrom(ClearBit(a, t), i) == SquaresFrom(a, i)
    decreases 64 - i
  {
    if i < 64 {
      HasClearBit(a, t, i as Square);
      SquaresFromClearBelow(a, t, i + 1);
    }
  }

  /** Below the lowest square `t`, the board without `t` lists what follows `t`. */
  lemma {:induction false} SquaresFromClearLowest(a: Bitboard, t: Square, i: BitCount)
    requires i <= t && LowestFrom(a, i) == t
    ensures SquaresFrom(ClearBit(a, t), i) == SquaresFrom(a, t + 1)
    decreases t - i
  {
    HasClearBit(a, t, i as Square);
    if i < t {
      SquaresFromClearLowest(a, t, i + 1);
    } else {
      SquaresFromClearBelow(a, t, t + 1);
    }
  }

  /** One round of the loop: the lowest square comes first, the rest is the list of `blsr`. */
  lemma SquaresStep(a: Bitboard)
    requires a != 0
    ensures Tzcnt(a) < 64
    ensures Squares(a) == [Tzcnt(a) as Square] + Squares(Blsr(a))
  {
    BlsrClearsLowest(a);
    SquaresFromFirst(a, 0);
    SquaresFromClearLowest(a, Tzcnt(a) as Square, 0);
  }

  /**
   * The loop of `bitloop!`, returning the values its body receives: every
   * square of `bb`, lowest first, each once.
   */
  method Bitloop(bb: Bitboard) returns (visited: seq<Square>)
    ensures visited == Squares(bb)
  {
    var b := bb;
    visited := [];
    while HasBits(b)
      invariant visited + Squares(b) == Squares(bb)
      decreases 64 - Tzcnt(b)
    {
      SquaresStep(b);
      BlsrTzcnt(b);
      var sq := Tzcnt(b) as Square;
      visited := visited + [sq];
      b := Blsr(b);
    }
    assert b == 0;
    TzcntLowest(b);
    SquaresFromFirst(b, 0);
  }

  /** What the loop visits: each square of the board, in increasing order, and nothing else. */
  lemma SquaresMeaning(a: Bitboard, t: Square)
    ensures t in Squares(a) <==> Has(a, t)
    ensures forall j, k :: 0 <= j < k < |Squares(a)| ==> Squares(a)[j] < Squares(a)[k]
    ensures |Squares(a)| == PopCount(a)
  {
    SquaresFromMembers(a, 0, t);
    SquaresFromIncreasing(a, 0);
    SquaresFromLength(a, 0);
  }
}
