/**
 * The selectors of the move generator (`MoveGenInfo` in src/movegen.rs).
 *
 * The side to move is a const generic parameter of the source type; here it
 * is a field of the record.  Everything else the generator computes before
 * reaching an unfinished body is a bitwise expression over the twelve piece
 * boards and two colour masks, so each becomes a function.
 */
module MoveGen {
  import opened Bitboards
  import opened Geometry
  import opened AttackTables
  import opened Outcomes

  datatype MoveGenInfo = MoveGenInfo(
    currentPlayerIsWhite: bool,
    wPawns: Bitboard, bPawns: Bitboard,
    wKnights: Bitboard, bKnights: Bitboard,
    wBishops: Bitboard, bBishops: Bitboard,
    wRooks: Bitboard, bRooks: Bitboard,
    wQueens: Bitboard, bQueens: Bitboard,
    wKings: Bitboard, bKings: Bitboard,
    whiteMask: Bitboard, blackMask: Bitboard,
    occupied: Bitboard)

  // ---------------------------------------------------------------------------
  // Boards of a colour
  // ---------------------------------------------------------------------------

  /** The colour mask of the given colour. */
  function ColourMask(m: MoveGenInfo, white: bool): Bitboard {
    if white then m.whiteMask else m.blackMask
  }

  /** The same position with the other side to move. */
  function OtherSide(m: MoveGenInfo): (m': MoveGenInfo)
    ensures m'.currentPlayerIsWhite != m.currentPlayerIsWhite
    ensures m'.(currentPlayerIsWhite := m.currentPlayerIsWhite) == m
  {
    m.(currentPlayerIsWhite := !m.currentPlayerIsWhite)
  }

  // ---------------------------------------------------------------------------
  // The accessors
  // ---------------------------------------------------------------------------

  /** `own_pawns`: the pawns of the side to move. */
  function OwnPawns(m: MoveGenInfo): Bitboard {
    if m.currentPlayerIsWhite then m.wPawns else m.bPawns
  }

  /** `enemy_pawns`: the pawns of the side not to move. */
  function EnemyPawns(m: MoveGenInfo): Bitboard {
    if m.currentPlayerIsWhite then m.bPawns else m.wPawns
  }

  /** `own_knights`. */
  function OwnKnights(m: MoveGenInfo): Bitboard {
    if m.currentPlayerIsWhite then m.wKnights else m.bKnights
  }

  /** `enemy_knights`. */
  function EnemyKnights(m: MoveGenInfo): Bitboard {
    if m.currentPlayerIsWhite then m.bKnights else m.wKnights
  }

  /** `own_king`. */
  function OwnKing(m: MoveGenInfo): Bitboard {
    if m.currentPlayerIsWhite then m.wKings else m.bKings
  }

  /** `enemy_or_empty`: every square not holding a piece of the side to move. */
  function EnemyOrEmpty(m: MoveGenInfo): Bitboard {
    if m.currentPlayerIsWhite then !m.whiteMask else !m.blackMask
  }

  /** `enemy_or_empty` is the complement of the colour mask of the side to move. */
  lemma EnemyOrEmptyMembers(m: MoveGenInfo, t: Square)
    ensures Has(EnemyOrEmpty(m), t) <==> !Has(ColourMask(m, m.currentPlayerIsWhite), t)
  {
    EnemyOrEmptyIs(m);
    HasNeg(ColourMask(m, m.currentPlayerIsWhite), t);
  }

  lemma EnemyOrEmptyIs(m: MoveGenInfo)
    ensures EnemyOrEmpty(m) == !ColourMask(m, m.currentPlayerIsWhite)
  {
  }

  /**
   * The own accessors read the boards of the side to move and the enemy
   * accessors those of the other side.
   */
  lemma OwnAccessors(m: MoveGenInfo)
    ensures OwnPawns(m) == (if m.currentPlayerIsWhite then m.wPawns else m.bPawns)
    ensures EnemyPawns(m) == (if m.currentPlayerIsWhite then m.bPawns else m.wPawns)
    ensures OwnKnights(m) == (if m.currentPlayerIsWhite then m.wKnights else m.bKnights)
    ensures EnemyKnights(m) == (if m.currentPlayerIsWhite then m.bKnights else m.wKnights)
    ensures OwnKing(m) == (if m.currentPlayerIsWhite then m.wKings else m.bKings)
  {
  }

  /**
   * Handing the move to the other side exchanges every own accessor with its
   * enemy counterpart, so own and enemy boards always have opposite colours.
   */
  lemma OwnEnemyExchange(m: MoveGenInfo)
    ensures EnemyPawns(m) == OwnPawns(OtherSide(m)) && EnemyPawns(OtherSide(m)) == OwnPawns(m)
    ensures EnemyKnights(m) == OwnKnights(OtherSide(m)) && EnemyKnights(OtherSide(m)) == OwnKnights(m)
    ensures OwnKing(OtherSide(m)) == (if m.currentPlayerIsWhite then m.bKings else m.wKings)
  {
    var o := OtherSide(m);
    assert o.wPawns == m.wPawns && o.bPawns == m.bPawns && o.wKnights == m.wKnights && o.bKnights == m.bKnights;
    assert o.wKings == m.wKings && o.bKings == m.bKings;
  }

  // ---------------------------------------------------------------------------
  // ENEMY_PAWNS_KING_ATTACKS
  // ---------------------------------------------------------------------------

  /**
   * `ENEMY_PAWNS_KING_ATTACKS[sq]` for the king square on (x, y): the black
   * table when White is to move, the white table otherwise.
   */
  function EnemyPawnsKingAttacks(currentPlayerIsWhite: bool, x: bv8, y: bv8): Bitboard
    requires x < 8 && y < 8
  {
    if currentPlayerIsWhite then BlackPawnKingAttacks(x, y) else WhitePawnKingAttacks(x, y)
  }

  /**
   * The entry holds exactly the squares from which a pawn of the side not to
   * move would attack the king: one rank ahead of the king from White's
   * point of view when White is to move, one rank behind otherwise, on a
   * neighbouring file.
   */
  lemma EnemyPawnsKingAttacksMembers(currentPlayerIsWhite: bool, x: bv8, y: bv8, tx: bv8, ty: bv8)
    requires x < 8 && y < 8 && tx < 8 && ty < 8
    ensures Has(EnemyPawnsKingAttacks(currentPlayerIsWhite, x, y), SquareOf(tx, ty))
      <==> Dist(x, tx) == 1 && (if currentPlayerIsWhite then y < 7 && ty == y + 1 else y > 1 && ty == y - 1)
  {
    if currentPlayerIsWhite {
      BlackPawnKingAttacksMembers(x, y, tx, ty);
    } else {
      WhitePawnKingAttacksMembers(x, y, tx, ty);
    }
  }

  // ---------------------------------------------------------------------------
  // The knight filter of `get_legal_moves`
  // ---------------------------------------------------------------------------

  /** A square is in `a & b & q & e` when it is in all four. */
  lemma HasAnd4(a: Bitboard, b: Bitboard, q: Bitboard, e: Bitboard, t: Square)
    ensures Has(a & b & q & e, t) <==> Has(a, t) && Has(b, t) && Has(q, t) && Has(e, t)
  {
  }

  /** The same, for a value `r` known to equal `a & b & q & e`. */
  lemma HasAnd4Of(a: Bitboard, b: Bitboard, q: Bitboard, e: Bitboard, r: Bitboard, t: Square)
    requires r == a & b & q & e
    ensures Has(r, t) <==> Has(a, t) && Has(b, t) && Has(q, t) && Has(e, t)
  {
    HasAnd4(a, b, q, e, t);
  }

  /** A square is in `!(c | d)` when it is in neither. */
  lemma HasNor(c: Bitboard, d: Bitboard, r: Bitboard, t: Square)
    requires r == !(c | d)
    ensures Has(r, t) <==> !Has(c, t) && !Has(d, t)
  {
    HasNeg(c | d, t);
    HasOr(c, d, t);
  }

  /**
   * The knight filter of `get_legal_moves` on its operands:
   * `KNIGHT_MASK[sq] & enemy_or_empty & !(x_pin | plus_pin) & check_mask`.
   */
  function KnightFilter(entry: Bitboard, enemyOrEmpty: Bitboard, xPin: Bitboard, plusPin: Bitboard, checkMask: Bitboard): Bitboard {
    entry & enemyOrEmpty & !(xPin | plusPin) & checkMask
  }

  /** The legal-move set of a knight on (x, y). */
  function KnightMoves(m: MoveGenInfo, x: bv8, y: bv8, xPin: Bitboard, plusPin: Bitboard, checkMask: Bitboard): Bitboard
    requires x < 8 && y < 8
  {
    KnightFilter(KnightMask(x, y), EnemyOrEmpty(m), xPin, plusPin, checkMask)
  }

  /** A square passes the filter when it is in every operand and on neither pin mask. */
  lemma KnightFilterMembers(entry: Bitboard, enemyOrEmpty: Bitboard, xPin: Bitboard, plusPin: Bitboard, checkMask: Bitboard, t: Square)
    ensures Has(KnightFilter(entry, enemyOrEmpty, xPin, plusPin, checkMask), t) <==>
      Has(entry, t) && Has(enemyOrEmpty, t) && !Has(xPin, t) && !Has(plusPin, t) && Has(checkMask, t)
  {
    HasAnd4Of(entry, enemyOrEmpty, !(xPin | plusPin), checkMask, KnightFilter(entry, enemyOrEmpty, xPin, plusPin, checkMask), t);
    HasNor(xPin, plusPin, !(xPin | plusPin), t);
  }

  /**
   * A square survives the filter exactly when it is a knight's target, holds
   * no piece of the side to move, lies on neither pin mask and lies on the
   * check mask.
   */
  lemma KnightMovesMembers(m: MoveGenInfo, x: bv8, y: bv8, xPin: Bitboard, plusPin: Bitboard, checkMask: Bitboard, t: Square)
    requires x < 8 && y < 8
    ensures Has(KnightMoves(m, x, y, xPin, plusPin, checkMask), t) <==>
      Has(KnightMask(x, y), t) && !Has(ColourMask(m, m.currentPlayerIsWhite), t)
      && !Has(xPin, t) && !Has(plusPin, t) && Has(checkMask, t)
  {
    KnightFilterMembers(KnightMask(x, y), EnemyOrEmpty(m), xPin, plusPin, checkMask, t);
    EnemyOrEmptyMembers(m, t);
  }

  /** With both pin masks empty, as the source sets them, the pin term is all ones and removes nothing. */
  lemma KnightFilterUnpinned(entry: Bitboard, enemyOrEmpty: Bitboard, checkMask: Bitboard)
    ensures !(0 as Bitboard | 0) == 0xFFFF_FFFF_FFFF_FFFF
    ensures KnightFilter(entry, enemyOrEmpty, 0, 0, checkMask) == entry & enemyOrEmpty & checkMask
  {
  }

  /** Every square the filter lets through is a knight's move away and is not the knight's own square. */
  lemma KnightMovesJump(m: MoveGenInfo, x: bv8, y: bv8, xPin: Bitboard, plusPin: Bitboard, checkMask: Bitboard, tx: bv8, ty: bv8)
    requires x < 8 && y < 8 && tx < 8 && ty < 8
    ensures Has(KnightMoves(m, x, y, xPin, plusPin, checkMask), SquareOf(tx, ty)) ==>
      KnightJump(x, y, tx, ty) && Has(checkMask, SquareOf(tx, ty))
      && !Has(ColourMask(m, m.currentPlayerIsWhite), SquareOf(tx, ty))
  {
    KnightMovesMembers(m, x, y, xPin, plusPin, checkMask, SquareOf(tx, ty));
    KnightMaskMembers(x, y, tx, ty);
  }

  // ---------------------------------------------------------------------------
  // The computed part of `get_checkmask`
  // ---------------------------------------------------------------------------

  /** The king square `own_king().tzcnt()`: 64 when the side to move has no king. */
  function KingSquare(m: MoveGenInfo): (k: BitCount)
    ensures k < 64 <==> OwnKing(m) != 0
    ensures k < 64 ==> Has(OwnKing(m), k as Square)
  {
    TzcntLowest(OwnKing(m));
    Tzcnt(OwnKing(m))
  }

  /** The mask OR-ed together from the pawn term and the knight-table entry met with the enemy knights. */
  function KingChecks(pawnTerm: Bitboard, knightEntry: Bitboard, enemyKnights: Bitboard): Bitboard {
    0 | pawnTerm | (knightEntry & enemyKnights)
  }

  /** The all-ones fallback of an empty check mask. */
  function NoCheckFallback(checkMask: Bitboard): (b: Bitboard)
    ensures b != 0
    ensures checkMask != 0 ==> b == checkMask
    ensures checkMask == 0 ==> b == 0xFFFF_FFFF_FFFF_FFFF
  {
    if !HasBits(checkMask) then 0xFFFF_FFFF_FFFF_FFFF else checkMask
  }

  /**
   * The check mask as far as `get_checkmask` computes it, AS WRITTEN: the
   * whole pawn-table entry at the king square, OR the knight-table entry
   * met with the enemy knights, replaced by all ones when empty.  Indexing
   * the 64-entry tables with `tzcnt` of an empty king board (64) panics.
   */
  function CheckMaskAsWritten(m: MoveGenInfo): (r: Outcome<Bitboard>)
    ensures r.Panicked? <==> OwnKing(m) == 0
    ensures r.Value? ==> r.value != 0
  {
    var k := KingSquare(m);
    if k == 64 then Panicked
    else
      var x, y := File(k as Square), Rank(k as Square);
      Value(NoCheckFallback(KingChecks(EnemyPawnsKingAttacks(m.currentPlayerIsWhite, x, y), KnightMask(x, y), EnemyKnights(m))))
  }

  /** The mask of checking pawns and knights: the table entries met with the enemy boards, all ones when empty. */
  function CheckersMask(pawnEntry: Bitboard, enemyPawns: Bitboard, knightEntry: Bitboard, enemyKnights: Bitboard): Bitboard {
    NoCheckFallback(KingChecks(pawnEntry & enemyPawns, knightEntry, enemyKnights))
  }

  /**
   * The check mask with the pawn-table entry met with the enemy pawns, as the
   * knight term is: only squares holding a checking piece.
   */
  function CheckMask(m: MoveGenInfo): (r: Outcome<Bitboard>)
    ensures r.Panicked? <==> OwnKing(m) == 0
    ensures r.Value? ==> r.value != 0
  {
    var k := KingSquare(m);
    if k == 64 then Panicked
    else
      var x, y := File(k as Square), Rank(k as Square);
      Value(CheckersMask(EnemyPawnsKingAttacks(m.currentPlayerIsWhite, x, y), EnemyPawns(m), KnightMask(x, y), EnemyKnights(m)))
  }

  /** A square is in `c = 0 | p | (ke & ek)` exactly when p holds it or both ke and ek hold it. */
  lemma HasChecks(p: Bitboard, ke: Bitboard, ek: Bitboard, c: Bitboard, t: Square)
    requires c == 0 | p | (ke & ek)
    ensures Has(c, t) <==> Has(p, t) || (Has(ke, t) && Has(ek, t))
  {
    HasOr(0 | p, ke & ek, t);
    HasOr(0, p, t);
    HasAnd(ke, ek, t);
    HasZero(t);
  }

  /** A square is in the OR-ed checks exactly when the pawn term or the knight term holds it. */
  lemma KingChecksMembers(pawnTerm: Bitboard, knightEntry: Bitboard, enemyKnights: Bitboard, t: Square)
    ensures Has(KingChecks(pawnTerm, knightEntry, enemyKnights), t)
      <==> Has(pawnTerm, t) || (Has(knightEntry, t) && Has(enemyKnights, t))
  {
    HasChecks(pawnTerm, knightEntry, enemyKnights, KingChecks(pawnTerm, knightEntry, enemyKnights), t);
  }

  /**
   * With the pawn entry met with the enemy pawns, every square holding a
   * checking pawn or knight is on the mask; a mask that is not the fallback
   * holds exactly those squares; with no enemy pawn or knight the mask is
   * the fallback.
   */
  lemma CheckersOnly(pawnEntry: Bitboard, enemyPawns: Bitboard, knightEntry: Bitboard, enemyKnights: Bitboard, t: Square)
    ensures enemyPawns == 0 && enemyKnights == 0 ==> CheckersMask(pawnEntry, enemyPawns, knightEntry, enemyKnights) == 0xFFFF_FFFF_FFFF_FFFF
    ensures var c := CheckersMask(pawnEntry, enemyPawns, knightEntry, enemyKnights);
      (Has(pawnEntry, t) && Has(enemyPawns, t)) || (Has(knightEntry, t) && Has(enemyKnights, t)) ==> Has(c, t)
    ensures var c := CheckersMask(pawnEntry, enemyPawns, knightEntry, enemyKnights);
      c != 0xFFFF_FFFF_FFFF_FFFF ==>
        (Has(c, t) <==> (Has(pawnEntry, t) && Has(enemyPawns, t)) || (Has(knightEntry, t) && Has(enemyKnights, t)))
  {
    KingChecksMembers(pawnEntry & enemyPawns, knightEntry, enemyKnights, t);
    HasAnd(pawnEntry, enemyPawns, t);
    HasZero(t);
    HasNeg(0, t);
  }

  /** The intended check mask at a king square, spelled out. */
  lemma CheckMaskIs(m: MoveGenInfo)
    requires OwnKing(m) != 0
    ensures var k := KingSquare(m) as Square;
      var x, y := File(k), Rank(k);
      CheckMask(m).value == CheckersMask(EnemyPawnsKingAttacks(m.currentPlayerIsWhite, x, y), EnemyPawns(m), KnightMask(x, y), EnemyKnights(m))
  {
  }

  /** `CheckersOnly` for a mask `c` already computed. */
  lemma CheckersOf(pawnEntry: Bitboard, enemyPawns: Bitboard, knightEntry: Bitboard, enemyKnights: Bitboard, c: Bitboard, t: Square)
    requires c == CheckersMask(pawnEntry, enemyPawns, knightEntry, enemyKnights)
    ensures enemyPawns == 0 && enemyKnights == 0 ==> c == 0xFFFF_FFFF_FFFF_FFFF
    ensures (Has(pawnEntry, t) && Has(enemyPawns, t)) || (Has(knightEntry, t) && Has(enemyKnights, t)) ==> Has(c, t)
    ensures c != 0xFFFF_FFFF_FFFF_FFFF ==>
      (Has(c, t) <==> (Has(pawnEntry, t) && Has(enemyPawns, t)) || (Has(knightEntry, t) && Has(enemyKnights, t)))
  {
    CheckersOnly(pawnEntry, enemyPawns, knightEntry, enemyKnights, t);
  }

  /** The intended check mask is the all-ones "no check" mask whenever the enemy has no pawn and no knight. */
  lemma CheckMaskNoEnemies(m: MoveGenInfo)
    requires OwnKing(m) != 0
    ensures EnemyPawns(m) == 0 && EnemyKnights(m) == 0 ==> CheckMask(m).value == 0xFFFF_FFFF_FFFF_FFFF
  {
    var k := KingSquare(m) as Square;
    var x, y := File(k), Rank(k);
    CheckMaskIs(m);
    CheckersOf(EnemyPawnsKingAttacks(m.currentPlayerIsWhite, x, y), EnemyPawns(m), KnightMask(x, y), EnemyKnights(m), CheckMask(m).value, 0);
  }

  /**
   * Square t holds a piece that checks the king of the side to move: an
   * enemy pawn attacking the king square or an enemy knight a knight's
   * jump from it.
   */
  predicate ChecksKing(m: MoveGenInfo, t: Square)
    requires OwnKing(m) != 0
  {
    var k := KingSquare(m) as Square;
    var x, y := File(k), Rank(k);
    || (Has(EnemyPawnsKingAttacks(m.currentPlayerIsWhite, x, y), t) && Has(EnemyPawns(m), t))
    || (Has(KnightMask(x, y), t) && Has(EnemyKnights(m), t))
  }

  /**
   * The intended check mask: every square holding a checking piece is on
   * the mask, and unless the mask is the all-ones "no check" mask it holds
   * exactly those squares.
   */
  lemma CheckMaskOnlyCheckers(m: MoveGenInfo, t: Square)
    requires OwnKing(m) != 0
    ensures ChecksKing(m, t) ==> Has(CheckMask(m).value, t)
    ensures CheckMask(m).value != 0xFFFF_FFFF_FFFF_FFFF ==> (Has(CheckMask(m).value, t) <==> ChecksKing(m, t))
  {
    var k := KingSquare(m) as Square;
    var x, y := File(k), Rank(k);
    CheckMaskIs(m);
    CheckersOf(EnemyPawnsKingAttacks(m.currentPlayerIsWhite, x, y), EnemyPawns(m), KnightMask(x, y), EnemyKnights(m), CheckMask(m).value, t);
  }

  /** A lone White king on e4 (square 28), White to move. */
  const LoneWhiteKing: MoveGenInfo := MoveGenInfo(true, 0, 0, 0, 0, 0, 0, 0, 0, 0, 0, Bit(28), 0, Bit(28), 0, Bit(28))

  /** The king square of the lone White king is e4: file 4, rank 3. */
  lemma LoneWhiteKingSquare()
    ensures EnemyPawns(LoneWhiteKing) == 0 && EnemyKnights(LoneWhiteKing) == 0
    ensures KingSquare(LoneWhiteKing) == 28 && File(28) == 4 && Rank(28) == 3
  {
    TzcntBit(28);
  }

  /**
   * As written, the lone White king gets a check mask that is not the
   * all-ones "no check" mask although no enemy piece is on the board: the
   * pawn-table entry holds d5 and f5 whatever stands there.
   */
  lemma CheckMaskAsWrittenWithoutEnemies()
    ensures CheckMaskAsWritten(LoneWhiteKing) == Value(BlackPawnKingAttacks(4, 3))
    ensures BlackPawnKingAttacks(4, 3) != 0xFFFF_FFFF_FFFF_FFFF
  {
    LoneWhiteKingSquare();
    var entry := BlackPawnKingAttacks(4, 3);
    BlackPawnKingAttacksMembers(4, 3, 3, 4);
    BlackPawnKingAttacksMembers(4, 3, 0, 0);
    HasZero(SquareOf(3, 4));
    assert KingChecks(entry, KnightMask(4, 3), 0) == entry;
  }

  /** The intended mask of the lone White king is the "no check" mask. */
  lemma CheckMaskWithoutEnemies()
    ensures CheckMask(LoneWhiteKing) == Value(0xFFFF_FFFF_FFFF_FFFF)
  {
    LoneWhiteKingSquare();
    CheckersOnly(BlackPawnKingAttacks(4, 3), 0, KnightMask(4, 3), 0, 0);
  }
}
