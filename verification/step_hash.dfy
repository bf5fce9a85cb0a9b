/**
 * How `Chess::step` (src/chess.rs) changes the Zobrist hash: every stage
 * XORs keys into it that are chosen by the move and the boards alone, so
 * the hash `step` leaves is the hash it found, XOR the side key, XOR what
 * the same move produces from the hash zero with a zero side key.
 */
module StepHashing {
  import opened Bitboards
  import opened Actions
  import opened Zobrist
  import opened Players
  import opened Outcomes
  import opened Positions
  import opened Steps

  /** Key tables that agree everywhere except, perhaps, on the side key. */
  predicate SameBoardKeys(k1: KeyTables, k2: KeyTables) {
    k1.pieceKeys == k2.pieceKeys && k1.castlingKeys == k2.castlingKeys && k1.enPassantKeys == k2.enPassantKeys
  }

  /** `p` with `d` XORed into its hash and its history replaced by `hist`. */
  function Shift(p: Position, d: bv64, hist: seq<ZobristHash>): Position {
    p.(hash := Toggle(p.hash, d), history := hist)
  }

  /** `Shift` applied to a stage's outcome; a panic stays a panic. */
  function ShiftOutcome(o: Outcome<Position>, d: bv64, hist: seq<ZobristHash>): Outcome<Position> {
    if o.Panicked? then Panicked else Value(Shift(o.value, d, hist))
  }

  /** Writing a piece commutes with a shifted hash when the new hash is shifted alike. */
  lemma ShiftTouch(p: Position, piece: Piece, h: ZobristHash, board: Bitboard, mask: Bitboard, d: bv64, hist: seq<ZobristHash>)
    requires piece != NoPiece
    ensures Touch(Shift(p, d, hist), piece, Toggle(h, d), board, mask) == Shift(Touch(p, piece, h, board, mask), d, hist)
  {
  }

  /** A piece key toggled after the shift is the shift after the piece key. */
  lemma ShiftPieceKey(p: Position, k1: KeyTables, k2: KeyTables, piece: Piece, sq: Square, d: bv64, hist: seq<ZobristHash>)
    requires SameBoardKeys(k1, k2) && piece != NoPiece
    ensures HashPiece(Shift(p, d, hist).hash, k2, piece, sq) == Toggle(HashPiece(p.hash, k1, piece, sq), d)
  {
    ToggleCommute(p.hash, d, k1.pieceKeys[sq][KeyIndex(piece)]);
  }

  /** `add_piece` toggles one key whatever the hash and the side key were. */
  lemma ShiftAdd(p: Position, k1: KeyTables, k2: KeyTables, piece: Piece, sq: Square, d: bv64, hist: seq<ZobristHash>)
    requires SameBoardKeys(k1, k2) && piece != NoPiece
    ensures AddSpec(Shift(p, d, hist), k2, piece, sq) == Shift(AddSpec(p, k1, piece, sq), d, hist)
  {
    var q := Shift(p, d, hist);
    assert q.boards == p.boards && ColourMask(q, IsWhite(piece)) == ColourMask(p, IsWhite(piece));
    ShiftPieceKey(p, k1, k2, piece, sq, d, hist);
    ShiftTouch(p, piece, HashPiece(p.hash, k1, piece, sq),
      SetBit(p.boards[Slot(piece)], sq), SetBit(ColourMask(p, IsWhite(piece)), sq), d, hist);
  }

  /** `clear_piece` toggles one key whatever the hash and the side key were. */
  lemma ShiftClear(p: Position, k1: KeyTables, k2: KeyTables, piece: Piece, sq: Square, d: bv64, hist: seq<ZobristHash>)
    requires SameBoardKeys(k1, k2) && piece != NoPiece
    ensures ClearSpec(Shift(p, d, hist), k2, piece, sq) == Shift(ClearSpec(p, k1, piece, sq), d, hist)
  {
    var q := Shift(p, d, hist);
    assert q.boards == p.boards && ColourMask(q, IsWhite(piece)) == ColourMask(p, IsWhite(piece));
    ShiftPieceKey(p, k1, k2, piece, sq, d, hist);
    ShiftTouch(p, piece, HashPiece(p.hash, k1, piece, sq),
      ClearBit(p.boards[Slot(piece)], sq), ClearBit(ColourMask(p, IsWhite(piece)), sq), d, hist);
  }

  /** `move_piece` toggles two keys whatever the hash and the side key were. */
  lemma ShiftMove(p: Position, k1: KeyTables, k2: KeyTables, piece: Piece, f: Square, t: Square, d: bv64, hist: seq<ZobristHash>)
    requires SameBoardKeys(k1, k2) && piece != NoPiece
    ensures MoveSpec(Shift(p, d, hist), k2, piece, f, t) == Shift(MoveSpec(p, k1, piece, f, t), d, hist)
  {
    var q := Shift(p, d, hist);
    assert q.boards == p.boards && ColourMask(q, IsWhite(piece)) == ColourMask(p, IsWhite(piece));
    var once := HashPiece(p.hash, k1, piece, f);
    ShiftPieceKey(p, k1, k2, piece, f, d, hist);
    ShiftPieceKey(p.(hash := once), k1, k2, piece, t, d, hist);
    ShiftTouch(p, piece, HashPiece(once, k1, piece, t),
      SetBit(ClearBit(p.boards[Slot(piece)], f), t), SetBit(ClearBit(ColourMask(p, IsWhite(piece)), f), t), d, hist);
  }

  /** One castling commutes with a shifted hash. */
  lemma ShiftCastleMoves(p: Position, k1: KeyTables, k2: KeyTables, king: Piece, f: Square, kt: Square,
                         rook: Piece, rf: Square, rt: Square, right: bv8, d: bv64, hist: seq<ZobristHash>)
    requires SameBoardKeys(k1, k2) && king != NoPiece && rook != NoPiece
    ensures CastleMoves(Shift(p, d, hist), k2, king, f, kt, rook, rf, rt, right)
         == Shift(CastleMoves(p, k1, king, f, kt, rook, rf, rt, right), d, hist)
  {
    ShiftMove(p, k1, k2, king, f, kt, d, hist);
    ShiftMove(MoveSpec(p, k1, king, f, kt), k1, k2, rook, rf, rt, d, hist);
  }

  /** The castling stage commutes with a shifted hash. */
  lemma ShiftCastle(p: Position, k1: KeyTables, k2: KeyTables, a: Action, d: bv64, hist: seq<ZobristHash>)
    requires SameBoardKeys(k1, k2)
    ensures CastleStage(Shift(p, d, hist), k2, a) == ShiftOutcome(CastleStage(p, k1, a), d, hist)
  {
    if a.from < 64 {
      var f := AsSquare(a.from);
      if a.to == 6 {
        ShiftCastleMoves(p, k1, k2, Wk, f, 6, Wr, 7, 5, 1, d, hist);
      } else if a.to == 2 {
        ShiftCastleMoves(p, k1, k2, Wk, f, 2, Wr, 0, 3, 2, d, hist);
      } else if a.to == 62 {
        ShiftCastleMoves(p, k1, k2, Bk, f, 62, Br, 63, 61, 4, d, hist);
      } else if a.to == 58 {
        ShiftCastleMoves(p, k1, k2, Bk, f, 58, Br, 56, 59, 8, d, hist);
      }
    }
  }

  /** Toggling a key after the shift is the shift after toggling the key. */
  lemma ShiftToggle(p: Position, k: bv64, d: bv64, hist: seq<ZobristHash>)
    ensures Shift(p, d, hist).(hash := Toggle(Shift(p, d, hist).hash, k)) == Shift(p.(hash := Toggle(p.hash, k)), d, hist)
  {
    ToggleCommute(p.hash, d, k);
  }

  /** Dropping rights and toggling a key commute with a shifted hash. */
  lemma ShiftRevoke(p: Position, r: bv8, k: bv64, d: bv64, hist: seq<ZobristHash>)
    ensures var q := Shift(p, d, hist);
      q.(castlePermissions := Revoke(q.castlePermissions, r), hash := Toggle(q.hash, k))
      == Shift(p.(castlePermissions := Revoke(p.castlePermissions, r), hash := Toggle(p.hash, k)), d, hist)
  {
    ToggleCommute(p.hash, d, k);
  }

  /** Dropping rights and toggling two keys commute with a shifted hash. */
  lemma ShiftRevokeTwo(p: Position, r: bv8, k: bv64, j: bv64, d: bv64, hist: seq<ZobristHash>)
    ensures var q := Shift(p, d, hist);
      q.(castlePermissions := Revoke(q.castlePermissions, r), hash := Toggle(Toggle(q.hash, k), j))
      == Shift(p.(castlePermissions := Revoke(p.castlePermissions, r), hash := Toggle(Toggle(p.hash, k), j)), d, hist)
  {
    ToggleCommute(p.hash, d, k);
    ToggleCommute(Toggle(p.hash, k), d, j);
  }

  /** The castling-rights stage commutes with a shifted hash. */
  lemma ShiftRights(p: Position, k1: KeyTables, k2: KeyTables, from: Word, d: bv64, hist: seq<ZobristHash>)
    requires SameBoardKeys(k1, k2)
    ensures RightsStage(Shift(p, d, hist), k2, from) == Shift(RightsStage(p, k1, from), d, hist)
  {
    var ck := k1.castlingKeys;
    if from == 4 {
      ShiftRevokeTwo(p, 1 | 2, ck[1], ck[2], d, hist);
    } else if from == 60 {
      ShiftRevokeTwo(p, 4 | 8, ck[4], ck[8], d, hist);
    } else if from == 0 {
      ShiftRevoke(p, 2, ck[2], d, hist);
    } else if from == 7 {
      ShiftRevoke(p, 1, ck[1], d, hist);
    } else if from == 56 {
      ShiftRevoke(p, 8, ck[8], d, hist);
    } else if from == 63 {
      ShiftRevoke(p, 4, ck[4], d, hist);
    }
  }

  /** Setting or clearing the en-passant square and toggling a key commute with a shifted hash. */
  lemma ShiftPassant(p: Position, e: Option<Square>, k: bv64, d: bv64, hist: seq<ZobristHash>)
    ensures var q := Shift(p, d, hist);
      q.(enPassantSquare := e, hash := Toggle(q.hash, k))
      == Shift(p.(enPassantSquare := e, hash := Toggle(p.hash, k)), d, hist)
  {
    ToggleCommute(p.hash, d, k);
  }

  /** An en-passant capture commutes with a shifted hash. */
  lemma ShiftTaken(p: Position, k1: KeyTables, k2: KeyTables, a: Action, player: Player, d: bv64, hist: seq<ZobristHash>)
    requires SameBoardKeys(k1, k2) && Packable(a)
    ensures EnPassantTaken(Shift(p, d, hist), k2, a, player) == ShiftOutcome(EnPassantTaken(p, k1, a, player), d, hist)
  {
    var ek := k1.enPassantKeys;
    if player.White? && !(a.to < 8 || a.to >= 72) {
      ShiftPassant(p, None, ek[AsSquare(a.to - 8)], d, hist);
    } else if player.Black? && a.to < 56 {
      ShiftPassant(p, None, ek[AsSquare(a.to + 8)], d, hist);
    }
  }

  /** The en-passant square of any other move commutes with a shifted hash. */
  lemma ShiftPawnStart(p: Position, k1: KeyTables, k2: KeyTables, a: Action, d: bv64, hist: seq<ZobristHash>)
    requires SameBoardKeys(k1, k2) && Packable(a)
    ensures PawnStartSquare(Shift(p, d, hist), k2, a) == ShiftOutcome(PawnStartSquare(p, k1, a), d, hist)
  {
    var ek := k1.enPassantKeys;
    if WhitePawnStart(a) {
      if a.from < 56 {
        var sq := AsSquare(a.from + 8);
        ShiftPassant(p, Some(sq), ek[sq], d, hist);
      }
    } else if BlackPawnStart(a) {
      if a.to < 56 {
        var sq := AsSquare(a.to + 8);
        ShiftPassant(p, Some(sq), ek[sq], d, hist);
      }
    }
  }

  /** The en-passant stage commutes with a shifted hash. */
  lemma ShiftEnPassant(p: Position, k1: KeyTables, k2: KeyTables, a: Action, player: Player, d: bv64, hist: seq<ZobristHash>)
    requires SameBoardKeys(k1, k2) && Packable(a)
    ensures EnPassantStage(Shift(p, d, hist), k2, a, player) == ShiftOutcome(EnPassantStage(p, k1, a, player), d, hist)
  {
    if a.isEnPassant {
      ShiftTaken(p, k1, k2, a, player, d, hist);
    } else {
      ShiftPawnStart(p, k1, k2, a, d, hist);
    }
  }

  /** The fifty-move counter commutes with a shifted hash. */
  lemma ShiftHundred(p: Position, a: Action, d: bv64, hist: seq<ZobristHash>)
    ensures HundredStage(Shift(p, d, hist), a) == Shift(HundredStage(p, a), d, hist)
  {
  }

  /** The rights, the en-passant square and the counter commute with a shifted hash. */
  lemma ShiftAfterCastle(p: Position, k1: KeyTables, k2: KeyTables, a: Action, player: Player, d: bv64, hist: seq<ZobristHash>)
    requires SameBoardKeys(k1, k2) && Packable(a)
    ensures var passant := EnPassantStage(RightsStage(p, k1, a.from), k1, a, player);
      && EnPassantStage(RightsStage(Shift(p, d, hist), k2, a.from), k2, a, player) == ShiftOutcome(passant, d, hist)
      && (passant.Value? ==> HundredStage(Shift(passant.value, d, hist), a) == Shift(HundredStage(passant.value, a), d, hist))
  {
    var rights := RightsStage(p, k1, a.from);
    ShiftRights(p, k1, k2, a.from, d, hist);
    ShiftEnPassant(rights, k1, k2, a, player, d, hist);
    var passant := EnPassantStage(rights, k1, a, player);
    if passant.Value? {
      ShiftHundred(passant.value, a, d, hist);
    }
  }

  /** The stages before the capture commute with a shifted hash. */
  lemma ShiftPrepare(p: Position, k1: KeyTables, k2: KeyTables, a: Action, player: Player, d: bv64, hist: seq<ZobristHash>)
    requires SameBoardKeys(k1, k2) && Packable(a)
    ensures Prepare(Shift(p, d, hist), k2, a, player) == ShiftOutcome(Prepare(p, k1, a, player), d, hist)
  {
    if a.isCastling {
      ShiftCastle(p, k1, k2, a, d, hist);
      var castled := CastleStage(p, k1, a);
      if castled.Value? {
        ShiftAfterCastle(castled.value, k1, k2, a, player, d, hist);
      }
    } else {
      ShiftAfterCastle(p, k1, k2, a, player, d, hist);
    }
  }

  /** The capture stage commutes with a shifted hash. */
  lemma ShiftCapture(p: Position, k1: KeyTables, k2: KeyTables, a: Action, player: Player, d: bv64, hist: seq<ZobristHash>)
    requires SameBoardKeys(k1, k2) && Packable(a)
    ensures CaptureStage(Shift(p, d, hist), k2, a, player) == ShiftOutcome(CaptureStage(p, k1, a, player), d, hist)
  {
    if a.isCapture {
      if a.isEnPassant {
        if player.White? && !(a.to < 8 || a.to >= 72) {
          ShiftClear(p, k1, k2, Bp, AsSquare(a.to - 8), d, hist);
        } else if player.Black? && a.to < 56 {
          ShiftClear(p, k1, k2, Wp, AsSquare(a.to + 8), d, hist);
        }
      } else if a.capturedPiece != NoPiece && a.to < 64 {
        ShiftClear(p, k1, k2, a.capturedPiece, AsSquare(a.to), d, hist);
      }
    }
  }

  /** The promotion stage commutes with a shifted hash. */
  lemma ShiftPromotion(p: Position, k1: KeyTables, k2: KeyTables, a: Action, d: bv64, hist: seq<ZobristHash>)
    requires SameBoardKeys(k1, k2)
    ensures PromotionStage(Shift(p, d, hist), k2, a) == ShiftOutcome(PromotionStage(p, k1, a), d, hist)
  {
    if a.isPromotion && a.movingPiece != NoPiece && a.to < 64 && a.promotedTo != NoPiece {
      var t := AsSquare(a.to);
      ShiftClear(p, k1, k2, a.movingPiece, t, d, hist);
      ShiftAdd(ClearSpec(p, k1, a.movingPiece, t), k1, k2, a.promotedTo, t, d, hist);
    }
  }

  /** The move stage commutes with a shifted hash. */
  lemma ShiftMoveStage(p: Position, k1: KeyTables, k2: KeyTables, a: Action, d: bv64, hist: seq<ZobristHash>)
    requires SameBoardKeys(k1, k2)
    ensures MoveStage(Shift(p, d, hist), k2, a) == ShiftOutcome(MoveStage(p, k1, a), d, hist)
  {
    if a.movingPiece != NoPiece && a.from < 64 && a.to < 64 {
      ShiftMove(p, k1, k2, a.movingPiece, AsSquare(a.from), AsSquare(a.to), d, hist);
    }
  }

  /** The capture, the move and the promotion commute with a shifted hash. */
  lemma ShiftFinish(p: Position, k1: KeyTables, k2: KeyTables, a: Action, player: Player, d: bv64, hist: seq<ZobristHash>)
    requires SameBoardKeys(k1, k2) && Packable(a)
    ensures Finish(Shift(p, d, hist), k2, a, player) == ShiftOutcome(Finish(p, k1, a, player), d, hist)
  {
    var captured := CaptureStage(p, k1, a, player);
    ShiftCapture(p, k1, k2, a, player, d, hist);
    if captured.Value? {
      var moved := MoveStage(captured.value, k1, a);
      ShiftMoveStage(captured.value, k1, k2, a, d, hist);
      if moved.Value? {
        ShiftPromotion(moved.value, k1, k2, a, d, hist);
      }
    }
  }

  /** Everything `step` does after decoding the move commutes with a shifted hash. */
  lemma ShiftPlay(p: Position, k1: KeyTables, k2: KeyTables, a: Action, player: Player, d: bv64, hist: seq<ZobristHash>)
    requires SameBoardKeys(k1, k2) && Packable(a)
    ensures Play(Shift(p, d, hist), k2, a, player) == ShiftOutcome(Play(p, k1, a, player), d, hist)
  {
    ShiftPrepare(p, k1, k2, a, player, d, hist);
    var prepared := Prepare(p, k1, a, player);
    if prepared.Value? {
      ShiftFinish(prepared.value, k1, k2, a, player, d, hist);
    }
  }

  /** The key tables with the side key zeroed. */
  function NoSideKey(keys: KeyTables): (r: KeyTables)
    ensures SameBoardKeys(r, keys) && r.sideKey == 0
  {
    keys.(sideKey := 0)
  }

  /**
   * The book-keeping of `step` is the book-keeping from the hash zero with
   * a zero side key, shifted by the hash found and the side key, with the
   * hash found pushed onto the history.
   */
  lemma BookKeepingFromZero(pos: Position, keys: KeyTables)
    ensures BookKeeping(pos, keys)
         == Shift(BookKeeping(pos.(hash := ZobristHash(0)), NoSideKey(keys)), pos.hash.key ^ keys.sideKey, pos.history + [pos.hash])
  {
  }

  /**
   * `step` leaves the position it leaves from the hash zero with a zero
   * side key, except that the hash found and the side key are XORed into
   * the hash and the history ends in the hash found: the side key is
   * toggled exactly once and every other key toggled is chosen without
   * looking at the hash.
   */
  lemma StepFromZero(pos: Position, keys: KeyTables, w: Word)
    ensures StepSpec(pos, keys, w)
         == ShiftOutcome(StepSpec(pos.(hash := ZobristHash(0)), NoSideKey(keys), w),
                         pos.hash.key ^ keys.sideKey, pos.history + [pos.hash])
  {
    DecodedPackable(w);
    var zero := pos.(hash := ZobristHash(0));
    var k0 := NoSideKey(keys);
    BookKeepingFromZero(pos, keys);
    var decoded := FromUsize(w);
    if decoded.Value? {
      ShiftPlay(BookKeeping(zero, k0), k0, keys, decoded.value, pos.currentPlayer,
        pos.hash.key ^ keys.sideKey, pos.history + [pos.hash]);
    }
  }

  /**
   * The hash `step` leaves is the hash found, XOR the side key, XOR the
   * hash the same move leaves from the hash zero with a zero side key;
   * one panics exactly when the other does.
   */
  lemma StepHash(pos: Position, keys: KeyTables, w: Word)
    ensures var z := StepSpec(pos.(hash := ZobristHash(0)), NoSideKey(keys), w);
      && z.Value? == StepSpec(pos, keys, w).Value?
      && (z.Value? ==> StepSpec(pos, keys, w).value.hash == Toggle(z.value.hash, pos.hash.key ^ keys.sideKey))
  {
    StepFromZero(pos, keys, w);
  }
}
