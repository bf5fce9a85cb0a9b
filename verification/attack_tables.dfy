/**
 * The per-square attack tables of src/compile_time_constants.rs and the
 * `bitloop` iteration macro.
 *
 * Each generator walks `sq` from 0 to 63, splits it into file `x` and rank
 * `y`, builds a pattern by OR-ing single squares into it and stores the
 * pattern in slot `sq`.  The patterns are the functions below, taking the
 * coordinates; the generators are the methods at the end of the module.
 */
module AttackTables {
  import opened Bitboards
  import opened Geometry

  // ---------------------------------------------------------------------------
  // Guarded targets: `if guard { pattern |= 1 << target }`
  // ---------------------------------------------------------------------------

  /** A square a generator adds to its pattern, or nothing when the guard fails. */
  datatype Target = NoTarget | Target(sq: Square)

  function AddTarget(p: Bitboard, c: Target): Bitboard {
    if c.Target? then p | Bit(c.sq) else p
  }

  lemma HasAddTarget(p: Bitboard, c: Target, t: Square)
    ensures Has(AddTarget(p, c), t) <==> Has(p, t) || (c.Target? && c.sq == t)
  {
    match c
    case NoTarget =>
    case Target(s) => HasSet(p, s, t);
  }

  /** The guarded targets OR-ed into `p` one after the other. */
  function AddTargets(p: Bitboard, cs: seq<Target>): Bitboard
    decreases |cs|
  {
    if cs == [] then p else AddTargets(AddTarget(p, cs[0]), cs[1..])
  }

  /** A square is in the result iff it was in `p` or is one of the targets whose guard held. */
  lemma {:induction false} HasAddTargets(p: Bitboard, cs: seq<Target>, t: Square)
    ensures Has(AddTargets(p, cs), t) <==> Has(p, t) || Target(t) in cs
    decreases |cs|
  {
    if cs != [] {
      HasAddTargets(AddTarget(p, cs[0]), cs[1..], t);
      HasAddTarget(p, cs[0], t);
      assert cs == [cs[0]] + cs[1..];
    }
  }

  /** Running two lists of guarded updates one after the other is running their concatenation. */
  lemma {:induction false} AddTargetsConcat(p: Bitboard, a: seq<Target>, b: seq<Target>)
    ensures AddTargets(p, a + b) == AddTargets(AddTargets(p, a), b)
    decreases |a|
  {
    if a == [] {
      assert a + b == b;
    } else {
      AddTargetsConcat(AddTarget(p, a[0]), a[1..], b);
      assert (a + b)[0] == a[0];
      assert (a + b)[1..] == a[1..] + b;
    }
  }

  lemma AddTargetsPair(p: Bitboard, a: Target, b: Target)
    ensures AddTargets(p, [a, b]) == AddTarget(AddTarget(p, a), b)
  {
    assert [a, b][1..] == [b];
    assert AddTargets(p, [a, b]) == AddTargets(AddTarget(p, a), [b]);
    assert [b][1..] == [];
    assert AddTargets(AddTarget(p, a), [b]) == AddTargets(AddTarget(AddTarget(p, a), b), []);
  }

  /** The square (a, b) when the guard holds. */
  function Guarded(guard: bool, a: bv8, b: bv8): Target
    requires guard ==> a < 8 && b < 8
  {
    if guard then Target(SquareOf(a, b)) else NoTarget
  }

  /** The generators' `if guard { pattern |= 1 << s }`, where s is the square (a, b) computed from sq. */
  lemma GuardedStep(p: Bitboard, guard: bool, a: bv8, b: bv8, s: bv8)
    requires guard ==> a < 8 && b < 8 && s == a + 8 * b
    ensures AddTarget(p, Guarded(guard, a, b)) == if guard then p | Bit(s) else p
  {
  }

  lemma GuardedHits(guard: bool, a: bv8, b: bv8, tx: bv8, ty: bv8)
    requires guard ==> a < 8 && b < 8
    requires tx < 8 && ty < 8
    ensures Guarded(guard, a, b) == Target(SquareOf(tx, ty)) <==> guard && a == tx && b == ty
  {
    if guard { SquareOfInjective(a, b, tx, ty); }
  }

  lemma InTwo(a: Target, b: Target, t: Target)
    ensures t in [a, b] <==> t == a || t == b
  {
  }

  lemma InFour(a: Target, b: Target, c: Target, d: Target, t: Target)
    ensures t in [a, b, c, d] <==> t == a || t == b || t == c || t == d
  {
  }

  // ---------------------------------------------------------------------------
  // Pawn attacks on a king: WHITE_PAWN_KING_ATTACKS, BLACK_PAWN_KING_ATTACKS
  // ---------------------------------------------------------------------------

  /** `sq - 9` and `sq - 7`, the squares from which a white pawn attacks a king on (x, y), for y > 1. */
  function WhitePawnKingTargets(x: bv8, y: bv8): seq<Target>
    requires x < 8 && y < 8
  {
    [ Guarded(x > 0 && y > 1, x - 1, y - 1),
      Guarded(x < 7 && y > 1, x + 1, y - 1) ]
  }

  function WhitePawnKingAttacks(x: bv8, y: bv8): Bitboard
    requires x < 8 && y < 8
  {
    AddTargets(0, WhitePawnKingTargets(x, y))
  }

  /** `sq + 7` and `sq + 9`, the squares from which a black pawn attacks a king on (x, y), for y < 7. */
  function BlackPawnKingTargets(x: bv8, y: bv8): seq<Target>
    requires x < 8 && y < 8
  {
    [ Guarded(x > 0 && y < 7, x - 1, y + 1),
      Guarded(x < 7 && y < 7, x + 1, y + 1) ]
  }

  function BlackPawnKingAttacks(x: bv8, y: bv8): Bitboard
    requires x < 8 && y < 8
  {
    AddTargets(0, BlackPawnKingTargets(x, y))
  }

  /**
   * The white table entry of a king on (x, y) holds exactly the squares one
   * rank below on a neighbouring file, and is empty for a king on the first
   * two ranks.
   */
  lemma WhitePawnKingTargetsHit(x: bv8, y: bv8, tx: bv8, ty: bv8)
    requires x < 8 && y < 8 && tx < 8 && ty < 8
    ensures Target(SquareOf(tx, ty)) in WhitePawnKingTargets(x, y) <==> y > 1 && ty == y - 1 && Dist(x, tx) == 1
  {
    InTwo(Guarded(x > 0 && y > 1, x - 1, y - 1), Guarded(x < 7 && y > 1, x + 1, y - 1), Target(SquareOf(tx, ty)));
    GuardedHits(x > 0 && y > 1, x - 1, y - 1, tx, ty);
    GuardedHits(x < 7 && y > 1, x + 1, y - 1, tx, ty);
    DistIs(x, tx, 1);
  }

  lemma WhitePawnKingAttacksMembers(x: bv8, y: bv8, tx: bv8, ty: bv8)
    requires x < 8 && y < 8 && tx < 8 && ty < 8
    ensures Has(WhitePawnKingAttacks(x, y), SquareOf(tx, ty)) <==> y > 1 && ty == y - 1 && Dist(x, tx) == 1
  {
    HasAddTargets(0, WhitePawnKingTargets(x, y), SquareOf(tx, ty));
    HasZero(SquareOf(tx, ty));
    WhitePawnKingTargetsHit(x, y, tx, ty);
  }

  /**
   * The black table entry of a king on (x, y) holds exactly the squares one
   * rank above on a neighbouring file; it is empty only on the eighth rank,
   * so unlike the white table it includes squares on the far rank.
   */
  lemma BlackPawnKingTargetsHit(x: bv8, y: bv8, tx: bv8, ty: bv8)
    requires x < 8 && y < 8 && tx < 8 && ty < 8
    ensures Target(SquareOf(tx, ty)) in BlackPawnKingTargets(x, y) <==> y < 7 && ty == y + 1 && Dist(x, tx) == 1
  {
    InTwo(Guarded(x > 0 && y < 7, x - 1, y + 1), Guarded(x < 7 && y < 7, x + 1, y + 1), Target(SquareOf(tx, ty)));
    GuardedHits(x > 0 && y < 7, x - 1, y + 1, tx, ty);
    GuardedHits(x < 7 && y < 7, x + 1, y + 1, tx, ty);
    DistIs(x, tx, 1);
  }

  lemma BlackPawnKingAttacksMembers(x: bv8, y: bv8, tx: bv8, ty: bv8)
    requires x < 8 && y < 8 && tx < 8 && ty < 8
    ensures Has(BlackPawnKingAttacks(x, y), SquareOf(tx, ty)) <==> y < 7 && ty == y + 1 && Dist(x, tx) == 1
  {
    HasAddTargets(0, BlackPawnKingTargets(x, y), SquareOf(tx, ty));
    HasZero(SquareOf(tx, ty));
    BlackPawnKingTargetsHit(x, y, tx, ty);
  }

  // ---------------------------------------------------------------------------
  // KNIGHT_MASK
  // ---------------------------------------------------------------------------

  /** The knight's move: one file and two ranks, or two files and one rank. */
  predicate KnightJump(x: bv8, y: bv8, tx: bv8, ty: bv8) {
    (Dist(x, tx) == 1 && Dist(y, ty) == 2) || (Dist(x, tx) == 2 && Dist(y, ty) == 1)
  }

  /** The eight guarded knight targets, in the generator's order: sq-17, sq-15, sq-10, sq-6, sq+6, sq+10, sq+15, sq+17. */
  function KnightTargets(x: bv8, y: bv8): seq<Target>
    requires x < 8 && y < 8
  {
    KnightTargetsBelow(x, y) + KnightTargetsAbove(x, y)
  }

  /** The four targets on lower ranks: sq-17, sq-15, sq-10, sq-6. */
  function KnightTargetsBelow(x: bv8, y: bv8): seq<Target>
    requires x < 8 && y < 8
  {
    [ Guarded(x >= 1 && y >= 2, x - 1, y - 2),
      Guarded(x <= 6 && y >= 2, x + 1, y - 2),
      Guarded(x >= 2 && y >= 1, x - 2, y - 1),
      Guarded(x <= 5 && y >= 1, x + 2, y - 1) ]
  }

  /** The four targets on higher ranks: sq+6, sq+10, sq+15, sq+17. */
  function KnightTargetsAbove(x: bv8, y: bv8): seq<Target>
    requires x < 8 && y < 8
  {
    [ Guarded(x >= 2 && y <= 6, x - 2, y + 1),
      Guarded(x <= 5 && y <= 6, x + 2, y + 1),
      Guarded(x >= 1 && y <= 5, x - 1, y + 2),
      Guarded(x <= 6 && y <= 5, x + 1, y + 2) ]
  }

  function KnightMask(x: bv8, y: bv8): Bitboard
    requires x < 8 && y < 8
  {
    AddTargets(0, KnightTargets(x, y))
  }

  /** The guards and offsets of the four lower targets, as coordinates. */
  predicate KnightBelow(x: bv8, y: bv8, tx: bv8, ty: bv8) {
    (x >= 1 && y >= 2 && x - 1 == tx && y - 2 == ty) ||
    (x <= 6 && y >= 2 && x + 1 == tx && y - 2 == ty) ||
    (x >= 2 && y >= 1 && x - 2 == tx && y - 1 == ty) ||
    (x <= 5 && y >= 1 && x + 2 == tx && y - 1 == ty)
  }

  /** The guards and offsets of the four upper targets, as coordinates. */
  predicate KnightAbove(x: bv8, y: bv8, tx: bv8, ty: bv8) {
    (x >= 2 && y <= 6 && x - 2 == tx && y + 1 == ty) ||
    (x <= 5 && y <= 6 && x + 2 == tx && y + 1 == ty) ||
    (x >= 1 && y <= 5 && x - 1 == tx && y + 2 == ty) ||
    (x <= 6 && y <= 5 && x + 1 == tx && y + 2 == ty)
  }

  /** The eight guarded offsets are exactly the knight's moves that stay on the board. */
  lemma KnightOffsets(x: bv8, y: bv8, tx: bv8, ty: bv8)
    requires x < 8 && y < 8 && tx < 8 && ty < 8
    ensures KnightJump(x, y, tx, ty) <==> KnightBelow(x, y, tx, ty) || KnightAbove(x, y, tx, ty)
  {
    KnightBelowDist(x, y, tx, ty);
    KnightAboveDist(x, y, tx, ty);
    DistIs(y, ty, 1);
    DistIs(y, ty, 2);
  }

  lemma KnightBelowDist(x: bv8, y: bv8, tx: bv8, ty: bv8)
    requires x < 8 && y < 8 && tx < 8 && ty < 8
    ensures KnightBelow(x, y, tx, ty) <==>
      (y >= 2 && ty == y - 2 && Dist(x, tx) == 1) || (y >= 1 && ty == y - 1 && Dist(x, tx) == 2)
  {
    DistIs(x, tx, 1);
    DistIs(x, tx, 2);
  }

  lemma KnightAboveDist(x: bv8, y: bv8, tx: bv8, ty: bv8)
    requires x < 8 && y < 8 && tx < 8 && ty < 8
    ensures KnightAbove(x, y, tx, ty) <==>
      (y + 1 < 8 && ty == y + 1 && Dist(x, tx) == 2) || (y + 2 < 8 && ty == y + 2 && Dist(x, tx) == 1)
  {
    DistIs(x, tx, 1);
    DistIs(x, tx, 2);
  }

  lemma KnightTargetsBelowHit(x: bv8, y: bv8, tx: bv8, ty: bv8)
    requires x < 8 && y < 8 && tx < 8 && ty < 8
    ensures Target(SquareOf(tx, ty)) in KnightTargetsBelow(x, y) <==> KnightBelow(x, y, tx, ty)
  {
    InFour(Guarded(x >= 1 && y >= 2, x - 1, y - 2), Guarded(x <= 6 && y >= 2, x + 1, y - 2),
      Guarded(x >= 2 && y >= 1, x - 2, y - 1), Guarded(x <= 5 && y >= 1, x + 2, y - 1), Target(SquareOf(tx, ty)));
    GuardedHits(x >= 1 && y >= 2, x - 1, y - 2, tx, ty);
    GuardedHits(x <= 6 && y >= 2, x + 1, y - 2, tx, ty);
    GuardedHits(x >= 2 && y >= 1, x - 2, y - 1, tx, ty);
    GuardedHits(x <= 5 && y >= 1, x + 2, y - 1, tx, ty);
  }

  lemma KnightTargetsAboveHit(x: bv8, y: bv8, tx: bv8, ty: bv8)
    requires x < 8 && y < 8 && tx < 8 && ty < 8
    ensures Target(SquareOf(tx, ty)) in KnightTargetsAbove(x, y) <==> KnightAbove(x, y, tx, ty)
  {
    InFour(Guarded(x >= 2 && y <= 6, x - 2, y + 1), Guarded(x <= 5 && y <= 6, x + 2, y + 1),
      Guarded(x >= 1 && y <= 5, x - 1, y + 2), Guarded(x <= 6 && y <= 5, x + 1, y + 2), Target(SquareOf(tx, ty)));
    GuardedHits(x >= 2 && y <= 6, x - 2, y + 1, tx, ty);
    GuardedHits(x <= 5 && y <= 6, x + 2, y + 1, tx, ty);
    GuardedHits(x >= 1 && y <= 5, x - 1, y + 2, tx, ty);
    GuardedHits(x <= 6 && y <= 5, x + 1, y + 2, tx, ty);
  }

  lemma KnightTargetsJump(x: bv8, y: bv8, tx: bv8, ty: bv8)
    requires x < 8 && y < 8 && tx < 8 && ty < 8
    ensures Target(SquareOf(tx, ty)) in KnightTargets(x, y) <==> KnightJump(x, y, tx, ty)
  {
    KnightTargetsBelowHit(x, y, tx, ty);
    KnightTargetsAboveHit(x, y, tx, ty);
    KnightOffsets(x, y, tx, ty);
  }

  /** KNIGHT_MASK[sq] holds exactly the squares a knight's move away. */
  lemma KnightMaskMembers(x: bv8, y: bv8, tx: bv8, ty: bv8)
    requires x < 8 && y < 8 && tx < 8 && ty < 8
    ensures Has(KnightMask(x, y), SquareOf(tx, ty)) <==> KnightJump(x, y, tx, ty)
  {
    HasAddTargets(0, KnightTargets(x, y), SquareOf(tx, ty));
    HasZero(SquareOf(tx, ty));
    KnightTargetsJump(x, y, tx, ty);
  }

  lemma KnightJumpSymmetric(x: bv8, y: bv8, tx: bv8, ty: bv8)
    requires x < 8 && y < 8 && tx < 8 && ty < 8
    ensures KnightJump(x, y, tx, ty) <==> KnightJump(tx, ty, x, y)
    ensures !KnightJump(x, y, x, y)
  {
    DistSymmetric(x, tx);
    DistSymmetric(y, ty);
  }

  /** Knight moves are symmetric, and a square is never a knight's move from itself. */
  lemma KnightMaskSymmetric(x: bv8, y: bv8, tx: bv8, ty: bv8)
    requires x < 8 && y < 8 && tx < 8 && ty < 8
    ensures Has(KnightMask(x, y), SquareOf(tx, ty)) <==> Has(KnightMask(tx, ty), SquareOf(x, y))
    ensures !Has(KnightMask(x, y), SquareOf(x, y))
  {
    KnightMaskMembers(x, y, tx, ty);
    KnightMaskMembers(tx, ty, x, y);
    KnightMaskMembers(x, y, x, y);
    KnightJumpSymmetric(x, y, tx, ty);
  }

  // ---------------------------------------------------------------------------
  // PLUS_MASK
  // ---------------------------------------------------------------------------

  /** The rank through (x, y) OR the file through it: `0xFF << 8 * y | 0x0101010101010101 << x`. */
  function PlusMask(x: bv8, y: bv8): Bitboard
    requires x < 8 && y < 8
  {
    (0xFF << (8 * y)) | (0x0101010101010101 << x)
  }

  lemma HasRankMask(y: bv8, tx: bv8, ty: bv8)
    requires y < 8 && tx < 8 && ty < 8
    ensures Has(0xFF << (8 * y), SquareOf(tx, ty)) <==> ty == y
  {
  }

  lemma HasFileMask(x: bv8, tx: bv8, ty: bv8)
    requires x < 8 && tx < 8 && ty < 8
    ensures Has(0x0101010101010101 << x, SquareOf(tx, ty)) <==> tx == x
  {
  }

  /** PLUS_MASK[sq] holds exactly the squares sharing the rank or the file of sq, sq included. */
  lemma PlusMaskMembers(x: bv8, y: bv8, tx: bv8, ty: bv8)
    requires x < 8 && y < 8 && tx < 8 && ty < 8
    ensures Has(PlusMask(x, y), SquareOf(tx, ty)) <==> tx == x || ty == y
  {
    HasOr(0xFF << (8 * y), 0x0101010101010101 << x, SquareOf(tx, ty));
    HasRankMask(y, tx, ty);
    HasFileMask(x, tx, ty);
  }

  // ---------------------------------------------------------------------------
  // X_MASK
  // ---------------------------------------------------------------------------

  /** The four rays the X_MASK generator walks, named by the direction they head in. */
  datatype Diagonal = UpRight | DownRight | DownLeft | UpLeft

  /**
   * The square at distance d along a ray from (x, y), when the generator's loop
   * guard for that ray still holds (the source keeps two counters dx and dy
   * that are always equal; d stands for both).
   */
  function RayTarget(x: bv8, y: bv8, diag: Diagonal, d: bv8): (c: Target)
    requires x < 8 && y < 8 && d <= 8
    ensures c.Target? ==> d < 8
  {
    match diag
    case UpRight => Guarded(x + d < 8 && y + d < 8, x + d, y + d)
    case DownRight => Guarded(x + d < 8 && d <= y, x + d, y - d)
    case DownLeft => Guarded(d <= x && d <= y, x - d, y - d)
    case UpLeft => Guarded(d <= x && y + d < 8, x - d, y + d)
  }

  /** The targets one ray loop visits, from distance d on, until its guard fails. */
  function RayTargets(x: bv8, y: bv8, diag: Diagonal, d: bv8): seq<Target>
    requires x < 8 && y < 8 && d <= 8
    decreases 8 - d
  {
    var c := RayTarget(x, y, diag, d);
    if c.Target? then [c] + RayTargets(x, y, diag, d + 1) else []
  }

  /** The targets of the four ray loops, in the generator's order. */
  function XTargets(x: bv8, y: bv8): seq<Target>
    requires x < 8 && y < 8
  {
    (RayTargets(x, y, UpRight, 0) + RayTargets(x, y, DownRight, 0)) + (RayTargets(x, y, DownLeft, 0) + RayTargets(x, y, UpLeft, 0))
  }

  /** The X_MASK entry for (x, y). */
  function XMask(x: bv8, y: bv8): Bitboard
    requires x < 8 && y < 8
  {
    AddTargets(0, XTargets(x, y))
  }

  /** (tx, ty) lies on the up-right ray from (x, y), at least d steps out. */
  predicate OnUpRight(x: bv8, y: bv8, d: bv8, tx: bv8, ty: bv8) {
    x <= tx && y <= ty && tx - x == ty - y && d <= tx - x
  }

  predicate OnDownRight(x: bv8, y: bv8, d: bv8, tx: bv8, ty: bv8) {
    x <= tx && ty <= y && tx - x == y - ty && d <= tx - x
  }

  predicate OnDownLeft(x: bv8, y: bv8, d: bv8, tx: bv8, ty: bv8) {
    tx <= x && ty <= y && x - tx == y - ty && d <= x - tx
  }

  predicate OnUpLeft(x: bv8, y: bv8, d: bv8, tx: bv8, ty: bv8) {
    tx <= x && y <= ty && x - tx == ty - y && d <= x - tx
  }

  predicate OnRay(x: bv8, y: bv8, diag: Diagonal, d: bv8, tx: bv8, ty: bv8) {
    match diag
    case UpRight => OnUpRight(x, y, d, tx, ty)
    case DownRight => OnDownRight(x, y, d, tx, ty)
    case DownLeft => OnDownLeft(x, y, d, tx, ty)
    case UpLeft => OnUpLeft(x, y, d, tx, ty)
  }

  lemma UpRightStep(x: bv8, y: bv8, d: bv8, tx: bv8, ty: bv8)
    requires x < 8 && y < 8 && d <= 8 && tx < 8 && ty < 8
    ensures var c := RayTarget(x, y, UpRight, d);
      if c.Target? then OnUpRight(x, y, d, tx, ty) <==> c == Target(SquareOf(tx, ty)) || OnUpRight(x, y, d + 1, tx, ty)
      else !OnUpRight(x, y, d, tx, ty)
  {
    GuardedHits(x + d < 8 && y + d < 8, x + d, y + d, tx, ty);
    UpRightArith(x, y, d, tx, ty);
  }

  lemma UpRightArith(x: bv8, y: bv8, d: bv8, tx: bv8, ty: bv8)
    requires x < 8 && y < 8 && d <= 8 && tx < 8 && ty < 8
    ensures x + d < 8 && y + d < 8 ==> (OnUpRight(x, y, d, tx, ty) <==> (x + d == tx && y + d == ty) || OnUpRight(x, y, d + 1, tx, ty))
    ensures !(x + d < 8 && y + d < 8) ==> !OnUpRight(x, y, d, tx, ty)
  {
  }

  lemma DownRightStep(x: bv8, y: bv8, d: bv8, tx: bv8, ty: bv8)
    requires x < 8 && y < 8 && d <= 8 && tx < 8 && ty < 8
    ensures var c := RayTarget(x, y, DownRight, d);
      if c.Target? then OnDownRight(x, y, d, tx, ty) <==> c == Target(SquareOf(tx, ty)) || OnDownRight(x, y, d + 1, tx, ty)
      else !OnDownRight(x, y, d, tx, ty)
  {
    GuardedHits(x + d < 8 && d <= y, x + d, y - d, tx, ty);
    DownRightArith(x, y, d, tx, ty);
  }

  lemma DownRightArith(x: bv8, y: bv8, d: bv8, tx: bv8, ty: bv8)
    requires x < 8 && y < 8 && d <= 8 && tx < 8 && ty < 8
    ensures x + d < 8 && d <= y ==> (OnDownRight(x, y, d, tx, ty) <==> (x + d == tx && y - d == ty) || OnDownRight(x, y, d + 1, tx, ty))
    ensures !(x + d < 8 && d <= y) ==> !OnDownRight(x, y, d, tx, ty)
  {
  }

  lemma DownLeftStep(x: bv8, y: bv8, d: bv8, tx: bv8, ty: bv8)
    requires x < 8 && y < 8 && d <= 8 && tx < 8 && ty < 8
    ensures var c := RayTarget(x, y, DownLeft, d);
      if c.Target? then OnDownLeft(x, y, d, tx, ty) <==> c == Target(SquareOf(tx, ty)) || OnDownLeft(x, y, d + 1, tx, ty)
      else !OnDownLeft(x, y, d, tx, ty)
  {
    GuardedHits(d <= x && d <= y, x - d, y - d, tx, ty);
    DownLeftArith(x, y, d, tx, ty);
  }

  lemma DownLeftArith(x: bv8, y: bv8, d: bv8, tx: bv8, ty: bv8)
    requires x < 8 && y < 8 && d <= 8 && tx < 8 && ty < 8
    ensures d <= x && d <= y ==> (OnDownLeft(x, y, d, tx, ty) <==> (x - d == tx && y - d == ty) || OnDownLeft(x, y, d + 1, tx, ty))
    ensures !(d <= x && d <= y) ==> !OnDownLeft(x, y, d, tx, ty)
  {
  }

  lemma UpLeftStep(x: bv8, y: bv8, d: bv8, tx: bv8, ty: bv8)
    requires x < 8 && y < 8 && d <= 8 && tx < 8 && ty < 8
    ensures var c := RayTarget(x, y, UpLeft, d);
      if c.Target? then OnUpLeft(x, y, d, tx, ty) <==> c == Target(SquareOf(tx, ty)) || OnUpLeft(x, y, d + 1, tx, ty)
      else !OnUpLeft(x, y, d, tx, ty)
  {
    GuardedHits(d <= x && y + d < 8, x - d, y + d, tx, ty);
    UpLeftArith(x, y, d, tx, ty);
  }

  lemma UpLeftArith(x: bv8, y: bv8, d: bv8, tx: bv8, ty: bv8)
    requires x < 8 && y < 8 && d <= 8 && tx < 8 && ty < 8
    ensures d <= x && y + d < 8 ==> (OnUpLeft(x, y, d, tx, ty) <==> (x - d == tx && y + d == ty) || OnUpLeft(x, y, d + 1, tx, ty))
    ensures !(d <= x && y + d < 8) ==> !OnUpLeft(x, y, d, tx, ty)
  {
  }

  /** Each step of a ray loop adds the next square of the ray, and the loop stops where the ray leaves the board. */
  lemma RayStep(x: bv8, y: bv8, diag: Diagonal, d: bv8, tx: bv8, ty: bv8)
    requires x < 8 && y < 8 && d <= 8 && tx < 8 && ty < 8
    ensures var c := RayTarget(x, y, diag, d);
      if c.Target? then OnRay(x, y, diag, d, tx, ty) <==> c == Target(SquareOf(tx, ty)) || OnRay(x, y, diag, d + 1, tx, ty)
      else !OnRay(x, y, diag, d, tx, ty)
  {
    match diag
    case UpRight => UpRightStep(x, y, d, tx, ty);
    case DownRight => DownRightStep(x, y, d, tx, ty);
    case DownLeft => DownLeftStep(x, y, d, tx, ty);
    case UpLeft => UpLeftStep(x, y, d, tx, ty);
  }

  /** A ray loop started at distance d visits exactly the ray's squares at distance d or more. */
  lemma {:induction false} RayTargetsHit(x: bv8, y: bv8, diag: Diagonal, d: bv8, tx: bv8, ty: bv8)
    requires x < 8 && y < 8 && d <= 8 && tx < 8 && ty < 8
    ensures Target(SquareOf(tx, ty)) in RayTargets(x, y, diag, d) <==> OnRay(x, y, diag, d, tx, ty)
    decreases 8 - d
  {
    RayStep(x, y, diag, d, tx, ty);
    if RayTarget(x, y, diag, d).Target? {
      RayTargetsHit(x, y, diag, d + 1, tx, ty);
    }
  }

  lemma OnUpRightDist(x: bv8, y: bv8, tx: bv8, ty: bv8)
    requires x < 8 && y < 8 && tx < 8 && ty < 8
    ensures OnUpRight(x, y, 0, tx, ty) <==> x <= tx && y <= ty && Dist(x, tx) == Dist(y, ty)
  {
  }

  lemma OnDownRightDist(x: bv8, y: bv8, tx: bv8, ty: bv8)
    requires x < 8 && y < 8 && tx < 8 && ty < 8
    ensures OnDownRight(x, y, 0, tx, ty) <==> x <= tx && ty <= y && Dist(x, tx) == Dist(y, ty)
  {
  }

  lemma OnDownLeftDist(x: bv8, y: bv8, tx: bv8, ty: bv8)
    requires x < 8 && y < 8 && tx < 8 && ty < 8
    ensures OnDownLeft(x, y, 0, tx, ty) <==> tx <= x && ty <= y && Dist(x, tx) == Dist(y, ty)
  {
  }

  lemma OnUpLeftDist(x: bv8, y: bv8, tx: bv8, ty: bv8)
    requires x < 8 && y < 8 && tx < 8 && ty < 8
    ensures OnUpLeft(x, y, 0, tx, ty) <==> tx <= x && y <= ty && Dist(x, tx) == Dist(y, ty)
  {
  }

  /** The four rays together cover exactly the squares on a diagonal through (x, y). */
  lemma OnSomeRay(x: bv8, y: bv8, tx: bv8, ty: bv8)
    requires x < 8 && y < 8 && tx < 8 && ty < 8
    ensures OnRay(x, y, UpRight, 0, tx, ty) || OnRay(x, y, DownRight, 0, tx, ty) || OnRay(x, y, DownLeft, 0, tx, ty) || OnRay(x, y, UpLeft, 0, tx, ty)
      <==> Dist(x, tx) == Dist(y, ty)
  {
    OnUpRightDist(x, y, tx, ty);
    OnDownRightDist(x, y, tx, ty);
    OnDownLeftDist(x, y, tx, ty);
    OnUpLeftDist(x, y, tx, ty);
  }

  /** Membership in a concatenation of target lists. */
  lemma InTwoSeqs(a: seq<Target>, b: seq<Target>, t: Target)
    ensures t in a + b <==> t in a || t in b
  {
  }

  lemma RayPairHit(x: bv8, y: bv8, d1: Diagonal, d2: Diagonal, tx: bv8, ty: bv8)
    requires x < 8 && y < 8 && tx < 8 && ty < 8
    ensures Target(SquareOf(tx, ty)) in RayTargets(x, y, d1, 0) + RayTargets(x, y, d2, 0) <==>
      OnRay(x, y, d1, 0, tx, ty) || OnRay(x, y, d2, 0, tx, ty)
  {
    InTwoSeqs(RayTargets(x, y, d1, 0), RayTargets(x, y, d2, 0), Target(SquareOf(tx, ty)));
    RayTargetsHit(x, y, d1, 0, tx, ty);
    RayTargetsHit(x, y, d2, 0, tx, ty);
  }

  lemma XTargetsHit(x: bv8, y: bv8, tx: bv8, ty: bv8)
    requires x < 8 && y < 8 && tx < 8 && ty < 8
    ensures Target(SquareOf(tx, ty)) in XTargets(x, y) <==>
      OnRay(x, y, UpRight, 0, tx, ty) || OnRay(x, y, DownRight, 0, tx, ty) || OnRay(x, y, DownLeft, 0, tx, ty) || OnRay(x, y, UpLeft, 0, tx, ty)
  {
    InTwoSeqs(RayTargets(x, y, UpRight, 0) + RayTargets(x, y, DownRight, 0), RayTargets(x, y, DownLeft, 0) + RayTargets(x, y, UpLeft, 0), Target(SquareOf(tx, ty)));
    RayPairHit(x, y, UpRight, DownRight, tx, ty);
    RayPairHit(x, y, DownLeft, UpLeft, tx, ty);
  }


  lemma XTargetsDiagonal(x: bv8, y: bv8, tx: bv8, ty: bv8)
    requires x < 8 && y < 8 && tx < 8 && ty < 8
    ensures Target(SquareOf(tx, ty)) in XTargets(x, y) <==> Dist(x, tx) == Dist(y, ty)
  {
    XTargetsHit(x, y, tx, ty);
    OnSomeRay(x, y, tx, ty);
  }


  /** X_MASK[sq] holds exactly the squares on the two diagonals through sq, sq included. */
  lemma XMaskMembers(x: bv8, y: bv8, tx: bv8, ty: bv8)
    requires x < 8 && y < 8 && tx < 8 && ty < 8
    ensures Has(XMask(x, y), SquareOf(tx, ty)) <==> Dist(x, tx) == Dist(y, ty)
  {
    HasAddTargets(0, XTargets(x, y), SquareOf(tx, ty));
    HasZero(SquareOf(tx, ty));
    XTargetsDiagonal(x, y, tx, ty);
  }

  // ---------------------------------------------------------------------------
  // The generators
  // ---------------------------------------------------------------------------

  /**
   * The outer loop shared by the generators: slot `sq` of the table gets the
   * pattern of file `sq % 8` and rank `sq / 8`, for every square.
   */
  method Tabulate(pattern: (bv8, bv8) --> Bitboard) returns (table: array<Bitboard>)
    requires forall x: bv8, y: bv8 :: x < 8 && y < 8 ==> pattern.requires(x, y)
    ensures table.Length == 64
    ensures forall sq: Square :: table[sq] == pattern(File(sq), Rank(sq))
  {
    table := new Bitboard[64];
    var sq: bv8 := 0;
    while sq < 64
      invariant sq <= 64
      invariant forall s: Square :: s < sq ==> table[s] == pattern(File(s), Rank(s))
      decreases 64 - sq
    {
      table[sq] := pattern(sq % 8, sq / 8);
      sq := sq + 1;
    }
  }

  /** WHITE_PAWN_KING_ATTACKS. */
  method BuildWhitePawnKingAttacks() returns (table: array<Bitboard>)
    ensures table.Length == 64
    ensures forall sq: Square :: table[sq] == WhitePawnKingAttacks(File(sq), Rank(sq))
  {
    table := Tabulate((x, y) requires x < 8 && y < 8 => WhitePawnKingAttacks(x, y));
  }

  /** BLACK_PAWN_KING_ATTACKS. */
  method BuildBlackPawnKingAttacks() returns (table: array<Bitboard>)
    ensures table.Length == 64
    ensures forall sq: Square :: table[sq] == BlackPawnKingAttacks(File(sq), Rank(sq))
  {
    table := Tabulate((x, y) requires x < 8 && y < 8 => BlackPawnKingAttacks(x, y));
  }

  /** KNIGHT_MASK. */
  method BuildKnightMask() returns (table: array<Bitboard>)
    ensures table.Length == 64
    ensures forall sq: Square :: table[sq] == KnightMask(File(sq), Rank(sq))
  {
    table := Tabulate((x, y) requires x < 8 && y < 8 => KnightMask(x, y));
  }

  /** PLUS_MASK. */
  method BuildPlusMask() returns (table: array<Bitboard>)
    ensures table.Length == 64
    ensures forall sq: Square :: table[sq] == PlusMask(File(sq), Rank(sq))
  {
    table := Tabulate((x, y) requires x < 8 && y < 8 => PlusMask(x, y));
  }

  /** X_MASK. */
  method BuildXMask() returns (table: array<Bitboard>)
    ensures table.Length == 64
    ensures forall sq: Square :: table[sq] == XMask(File(sq), Rank(sq))
  {
    table := Tabulate((x, y) requires x < 8 && y < 8 => XMask(x, y));
  }
}
