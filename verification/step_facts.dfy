/**
 * What `Chess::step` (src/chess.rs) promises about the fields it does not
 * compute from the boards: the history, the side to move, the fifty-move
 * counter, the en-passant square and the castling rights, together with
 * the quirks of its castling and castling-rights branches.
 */
module StepFacts {
  import opened Bitboards
  import opened Actions
  import opened Zobrist
  import opened Players
  import opened Outcomes
  import opened Positions
  import opened Steps
  import opened StepHashing

  /** The fields only the book-keeping of `step` touches. */
  predicate SameTurn(a: Position, b: Position) {
    a.currentPlayer == b.currentPlayer && a.history == b.history
  }

  /** One castling keeps the turn, the counter and the en-passant square. */
  lemma CastleMovesKeeps(pos: Position, keys: KeyTables, king: Piece, f: Square, kt: Square,
                         rook: Piece, rf: Square, rt: Square, right: bv8)
    requires king != NoPiece && rook != NoPiece
    ensures var r := CastleMoves(pos, keys, king, f, kt, rook, rf, rt, right);
      SameTurn(r, pos) && r.hundredCount == pos.hundredCount && r.enPassantSquare == pos.enPassantSquare
  {
    var once := MoveSpec(pos, keys, king, f, kt);
    MoveFrame(pos, keys, king, f, kt);
    MoveFrame(once, keys, rook, rf, rt);
  }

  /** The castling stage keeps the turn, the counter and the en-passant square. */
  lemma CastleStageKeeps(pos: Position, keys: KeyTables, a: Action)
    requires CastleStage(pos, keys, a).Value?
    ensures var r := CastleStage(pos, keys, a).value;
      SameTurn(r, pos) && r.hundredCount == pos.hundredCount && r.enPassantSquare == pos.enPassantSquare
  {
    var f := AsSquare(a.from);
    if a.to == 6 {
      CastleMovesKeeps(pos, keys, Wk, f, 6, Wr, 7, 5, 1);
    } else if a.to == 2 {
      CastleMovesKeeps(pos, keys, Wk, f, 2, Wr, 0, 3, 2);
    } else if a.to == 62 {
      CastleMovesKeeps(pos, keys, Bk, f, 62, Br, 63, 61, 4);
    } else {
      CastleMovesKeeps(pos, keys, Bk, f, 58, Br, 56, 59, 8);
    }
  }

  /** The castling-rights stage keeps the turn, the counter and the en-passant square. */
  lemma RightsStageKeeps(pos: Position, keys: KeyTables, from: Word)
    ensures var r := RightsStage(pos, keys, from);
      SameTurn(r, pos) && r.hundredCount == pos.hundredCount && r.enPassantSquare == pos.enPassantSquare
  {
  }

  /** An en-passant capture removes the en-passant square and keeps the turn and the counter. */
  lemma EnPassantTakenFacts(pos: Position, keys: KeyTables, a: Action, player: Player)
    requires Packable(a)
    requires EnPassantTaken(pos, keys, a, player).Value?
    ensures var r := EnPassantTaken(pos, keys, a, player).value;
      SameTurn(r, pos) && r.hundredCount == pos.hundredCount && r.enPassantSquare == None
  {
  }

  /**
   * Any other move keeps the turn and the counter, and leaves the square a
   * pawn's double step passed over, or none.
   */
  lemma PawnStartFacts(pos: Position, keys: KeyTables, a: Action)
    requires Packable(a)
    requires PawnStartSquare(pos, keys, a).Value?
    ensures var r := PawnStartSquare(pos, keys, a).value;
      && SameTurn(r, pos) && r.hundredCount == pos.hundredCount
      && (WhitePawnStart(a) ==> a.from < 56 && r.enPassantSquare == Some(AsSquare(a.from + 8)))
      && (BlackPawnStart(a) ==> a.to < 56 && r.enPassantSquare == Some(AsSquare(a.to + 8)))
      && (!WhitePawnStart(a) && !BlackPawnStart(a) ==> r.enPassantSquare == None)
  {
    if WhitePawnStart(a) {
      assert !BlackPawnStart(a);
    }
  }

  /** The en-passant square after the stages before the capture. */
  predicate EnPassantRule(a: Action, ep: Option<Square>)
    requires Packable(a)
  {
    && (a.isEnPassant ==> ep == None)
    && (!a.isEnPassant && WhitePawnStart(a) ==> a.from < 56 && ep == Some(AsSquare(a.from + 8)))
    && (!a.isEnPassant && BlackPawnStart(a) ==> a.to < 56 && ep == Some(AsSquare(a.to + 8)))
    && (!a.isEnPassant && !WhitePawnStart(a) && !BlackPawnStart(a) ==> ep == None)
  }

  /** The en-passant stage keeps the turn and the counter and follows `EnPassantRule`. */
  lemma EnPassantStageFacts(pos: Position, keys: KeyTables, a: Action, player: Player)
    requires Packable(a)
    requires EnPassantStage(pos, keys, a, player).Value?
    ensures var r := EnPassantStage(pos, keys, a, player).value;
      SameTurn(r, pos) && r.hundredCount == pos.hundredCount && EnPassantRule(a, r.enPassantSquare)
  {
    if a.isEnPassant {
      EnPassantTakenFacts(pos, keys, a, player);
    } else {
      PawnStartFacts(pos, keys, a);
    }
  }

  /**
   * The stages before the capture keep the turn; the counter restarts on a
   * capture or a pawn move and counts up otherwise; the en-passant square
   * follows `EnPassantRule`.
   */
  lemma PrepareFacts(pos: Position, keys: KeyTables, a: Action, player: Player)
    requires Packable(a)
    requires Prepare(pos, keys, a, player).Value?
    ensures var r := Prepare(pos, keys, a, player).value;
      && SameTurn(r, pos)
      && r.hundredCount == (if a.isCapture || a.movingPiece == Wp || a.movingPiece == Bp then 0 else pos.hundredCount + 1)
      && EnPassantRule(a, r.enPassantSquare)
  {
    var castled := if a.isCastling then CastleStage(pos, keys, a) else Value(pos);
    if a.isCastling {
      CastleStageKeeps(pos, keys, a);
    }
    var rights := RightsStage(castled.value, keys, a.from);
    RightsStageKeeps(castled.value, keys, a.from);
    EnPassantStageFacts(rights, keys, a, player);
  }

  /** The capture stage changes only boards, masks and the hash. */
  lemma CaptureStageKeeps(pos: Position, keys: KeyTables, a: Action, player: Player)
    requires Packable(a)
    requires CaptureStage(pos, keys, a, player).Value?
    ensures SameSetting(CaptureStage(pos, keys, a, player).value, pos)
  {
    if a.isCapture {
      if a.isEnPassant {
        match player {
          case White => ClearFrame(pos, keys, Bp, AsSquare(a.to - 8));
          case Black => ClearFrame(pos, keys, Wp, AsSquare(a.to + 8));
        }
      } else {
        ClearFrame(pos, keys, a.capturedPiece, AsSquare(a.to));
      }
    }
  }

  /** The promotion stage changes only boards, masks and the hash. */
  lemma PromotionStageKeeps(pos: Position, keys: KeyTables, a: Action)
    requires PromotionStage(pos, keys, a).Value?
    ensures SameSetting(PromotionStage(pos, keys, a).value, pos)
  {
    if a.isPromotion {
      var cleared := ClearSpec(pos, keys, a.movingPiece, AsSquare(a.to));
      ClearFrame(pos, keys, a.movingPiece, AsSquare(a.to));
      AddFrame(cleared, keys, a.promotedTo, AsSquare(a.to));
    }
  }

  /** The stages from the capture on change only boards, masks and the hash. */
  lemma FinishKeeps(pos: Position, keys: KeyTables, a: Action, player: Player)
    requires Packable(a)
    requires Finish(pos, keys, a, player).Value?
    ensures SameSetting(Finish(pos, keys, a, player).value, pos)
  {
    var captured := CaptureStage(pos, keys, a, player).value;
    CaptureStageKeeps(pos, keys, a, player);
    var moved := MoveStage(captured, keys, a).value;
    MoveFrame(captured, keys, a.movingPiece, AsSquare(a.from), AsSquare(a.to));
    PromotionStageKeeps(moved, keys, a);
  }

  /**
   * `step` pushes the pre-move hash onto the history and hands the move to
   * the other side; the fifty-move counter restarts on a capture or a pawn
   * move and counts up otherwise; the hash is the pre-move hash XOR the
   * side key XOR the keys the move toggles from the hash zero.
   */
  lemma StepBookKeeping(pos: Position, keys: KeyTables, w: Word)
    requires StepSpec(pos, keys, w).Value?
    ensures FromUsize(w).Value?
    ensures StepSpec(pos.(hash := ZobristHash(0)), NoSideKey(keys), w).Value?
    ensures var r := StepSpec(pos, keys, w).value;
      var a := FromUsize(w).value;
      && r.history == pos.history + [pos.hash]
      && r.currentPlayer == Swap(pos.currentPlayer)
      && r.hundredCount == (if a.isCapture || a.movingPiece == Wp || a.movingPiece == Bp then 0 else pos.hundredCount + 1)
      && r.hash == Toggle(StepSpec(pos.(hash := ZobristHash(0)), NoSideKey(keys), w).value.hash, pos.hash.key ^ keys.sideKey)
  {
    StepHash(pos, keys, w);
    DecodedPackable(w);
    var a := FromUsize(w).value;
    var booked := BookKeeping(pos, keys);
    PrepareFacts(booked, keys, a, pos.currentPlayer);
    FinishKeeps(Prepare(booked, keys, a, pos.currentPlayer).value, keys, a, pos.currentPlayer);
  }

  /** The en-passant square `step` leaves follows `EnPassantRule` for the decoded move. */
  lemma StepEnPassant(pos: Position, keys: KeyTables, w: Word)
    requires StepSpec(pos, keys, w).Value?
    ensures FromUsize(w).Value?
    ensures Packable(FromUsize(w).value)
    ensures EnPassantRule(FromUsize(w).value, StepSpec(pos, keys, w).value.enPassantSquare)
  {
    DecodedPackable(w);
    var a := FromUsize(w).value;
    var booked := BookKeeping(pos, keys);
    PrepareFacts(booked, keys, a, pos.currentPlayer);
    FinishKeeps(Prepare(booked, keys, a, pos.currentPlayer).value, keys, a, pos.currentPlayer);
  }

  /** A castling move to any square but 2, 6, 58 or 62 makes `step` panic. */
  lemma CastlingElsewherePanics(pos: Position, keys: KeyTables, w: Word)
    requires FromUsize(w).Value?
    requires var a := FromUsize(w).value; a.isCastling && a.to != 2 && a.to != 6 && a.to != 58 && a.to != 62
    ensures StepSpec(pos, keys, w) == Panicked
  {
    DecodedPackable(w);
    var a := FromUsize(w).value;
    assert CastleStage(BookKeeping(pos, keys), keys, a) == Panicked;
  }

  /** On a mask, the king's move repeated after the rook's changes nothing. */
  lemma MaskMovedAgain(m0: Bitboard, f: Square, kt: Square, rf: Square, rt: Square, m1: Bitboard, m2: Bitboard)
    requires f != kt && f != rt && kt != rf
    requires m1 == SetBit(ClearBit(m0, f), kt) && m2 == SetBit(ClearBit(m1, rf), rt)
    ensures SetBit(ClearBit(m2, f), kt) == m2
  {
    HasClearBitOf(m0, f, f, ClearBit(m0, f));
    HasSetBitOf(ClearBit(m0, f), kt, f, m1);
    HasSetBitOf(ClearBit(m0, f), kt, kt, m1);
    HasClearBitOf(m1, rf, f, ClearBit(m1, rf));
    HasSetBitOf(ClearBit(m1, rf), rt, f, m2);
    HasClearBitOf(m1, rf, kt, ClearBit(m1, rf));
    HasSetBitOf(ClearBit(m1, rf), rt, kt, m2);
    MoveBitKept(m2, f, kt);
  }

  /**
   * The king of a castling is moved again by the move stage of `step`.
   * When the castling's squares are apart, that second move leaves boards
   * and masks as the castling left them, and its hash toggles cancel the
   * king's: only the rook's two keys stay toggled.
   */
  lemma KingMovedAgain(pos: Position, keys: KeyTables, king: Piece, f: Square, kt: Square,
                       rook: Piece, rf: Square, rt: Square, right: bv8)
    requires king != NoPiece && rook != NoPiece
    requires Slot(king) != Slot(rook) && IsWhite(king) == IsWhite(rook)
    requires f != kt && f != rt && kt != rf
    ensures var c := CastleMoves(pos, keys, king, f, kt, rook, rf, rt, right);
      MoveSpec(c, keys, king, f, kt) == c.(hash := MoveSpec(pos, keys, rook, rf, rt).hash)
  {
    var once := MoveSpec(pos, keys, king, f, kt);
    var twice := MoveSpec(once, keys, rook, rf, rt);
    var c := twice.(castlePermissions := Revoke(twice.castlePermissions, right));
    var again := MoveSpec(c, keys, king, f, kt);
    var s := Slot(king);
    var w := IsWhite(king);
    MoveFrame(pos, keys, king, f, kt);
    MoveFrame(once, keys, rook, rf, rt);
    MoveFrame(c, keys, king, f, kt);
    // the king's board
    MoveBitAgain(pos.boards[s], f, kt, c.boards[s]);
    // its colour's mask
    MaskMovedAgain(ColourMask(pos, w), f, kt, rf, rt, ColourMask(once, w), ColourMask(c, w));
    SameMasks(again, c, w);
    // the hash
    ToggleRepeatedPair(pos.hash, keys.pieceKeys[f][KeyIndex(king)], keys.pieceKeys[kt][KeyIndex(king)],
      keys.pieceKeys[rf][KeyIndex(rook)], keys.pieceKeys[rt][KeyIndex(rook)]);
    MoveFrame(pos, keys, rook, rf, rt);
    SamePosition(again, c.(hash := MoveSpec(pos, keys, rook, rf, rt).hash));
  }

  /** Dropping one right and toggling its key, done twice, leaves the hash it started from. */
  lemma RetoggleOne(pos: Position, keys: KeyTables, r: bv8, i: nat)
    requires i < 16
    ensures var once := pos.(castlePermissions := Revoke(pos.castlePermissions, r), hash := HashCast(pos.hash, keys, i));
      once.(castlePermissions := Revoke(once.castlePermissions, r), hash := HashCast(once.hash, keys, i))
        == once.(hash := pos.hash)
  {
    RevokeTwice(pos.castlePermissions, r);
    ToggleTwice(pos.hash, keys.castlingKeys[i]);
  }

  /** Dropping two rights and toggling both keys, done twice, leaves the hash it started from. */
  lemma RetoggleTwo(pos: Position, keys: KeyTables, r: bv8, i: nat, j: nat)
    requires i < 16 && j < 16
    ensures var once := pos.(castlePermissions := Revoke(pos.castlePermissions, r),
                             hash := HashCast(HashCast(pos.hash, keys, i), keys, j));
      once.(castlePermissions := Revoke(once.castlePermissions, r), hash := HashCast(HashCast(once.hash, keys, i), keys, j))
        == once.(hash := pos.hash)
  {
    RevokeTwice(pos.castlePermissions, r);
    TogglePairTwice(pos.hash, keys.castlingKeys[i], keys.castlingKeys[j]);
  }

  /**
   * Leaving a king's or rook's home square a second time toggles the same
   * castling keys back while the rights stay dropped: the rights stage
   * applied twice is applied once with the hash it started from.
   */
  lemma RightsRetoggle(pos: Position, keys: KeyTables, from: Word)
    ensures var once := RightsStage(pos, keys, from);
      RightsStage(once, keys, from) == once.(hash := pos.hash)
  {
    if from == 4 {
      RetoggleTwo(pos, keys, 1 | 2, 1, 2);
    } else if from == 60 {
      RetoggleTwo(pos, keys, 4 | 8, 4, 8);
    } else if from == 0 {
      RetoggleOne(pos, keys, 2, 2);
    } else if from == 7 {
      RetoggleOne(pos, keys, 1, 1);
    } else if from == 56 {
      RetoggleOne(pos, keys, 8, 8);
    } else if from == 63 {
      RetoggleOne(pos, keys, 4, 4);
    }
  }
}
