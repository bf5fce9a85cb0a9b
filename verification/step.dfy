/**
 * What `Chess::step` (src/chess.rs) does to a position, stage by stage, in
 * the order of the source: book-keeping, castling, castling rights, the
 * en-passant square, the fifty-move counter, the capture, the move itself
 * and the promotion.  Every stage that can panic returns an `Outcome`.
 */
module Steps {
  import opened Bitboards
  import opened Actions
  import opened Zobrist
  import opened Players
  import opened Outcomes
  import opened Positions

  /** Push the pre-move hash, hand the move to the other side, toggle the side key. */
  function BookKeeping(pos: Position, keys: KeyTables): Position {
    pos.(history := pos.history + [pos.hash],
         currentPlayer := Swap(pos.currentPlayer),
         hash := HashSide(pos.hash, keys))
  }

  /**
   * One castling: the king moves from `f` to `kt`, the rook from `rf` to
   * `rt`, and the rights in `right` are dropped.
   */
  function CastleMoves(pos: Position, keys: KeyTables, king: Piece, f: Square, kt: Square,
                       rook: Piece, rf: Square, rt: Square, right: bv8): Position
    requires king != NoPiece && rook != NoPiece
  {
    var moved := MoveSpec(MoveSpec(pos, keys, king, f, kt), keys, rook, rf, rt);
    moved.(castlePermissions := Revoke(moved.castlePermissions, right))
  }

  /**
   * The castling branch: the king moves from `from` to the castling
   * square, the rook jumps over it and the castling side's right is
   * dropped.  A castling square other than 6, 2, 62, 58 panics; so does an
   * origin off the board, through the key table index.
   */
  function CastleStage(pos: Position, keys: KeyTables, a: Action): Outcome<Position> {
    if a.to != 6 && a.to != 2 && a.to != 62 && a.to != 58 then Panicked
    else if a.from >= 64 then Panicked
    else
      var f := AsSquare(a.from);
      if a.to == 6 then Value(CastleMoves(pos, keys, Wk, f, 6, Wr, 7, 5, 1))
      else if a.to == 2 then Value(CastleMoves(pos, keys, Wk, f, 2, Wr, 0, 3, 2))
      else if a.to == 62 then Value(CastleMoves(pos, keys, Bk, f, 62, Br, 63, 61, 4))
      else Value(CastleMoves(pos, keys, Bk, f, 58, Br, 56, 59, 8))
  }

  /** The castling rights `c` without the rights in `r`: `c & !r`. */
  function Revoke(c: bv8, r: bv8): bv8 {
    c & !r
  }

  /** Dropping the same rights twice drops them once. */
  lemma RevokeTwice(c: bv8, r: bv8)
    ensures Revoke(Revoke(c, r), r) == Revoke(c, r)
  {
  }

  /**
   * A move from a king's or rook's home square drops the matching rights
   * and toggles their castling keys, whether or not the rights were still
   * held.
   */
  function RightsStage(pos: Position, keys: KeyTables, from: Word): Position {
    var c := pos.castlePermissions;
    var h := pos.hash;
    if from == 4 then pos.(castlePermissions := Revoke(c, 1 | 2), hash := HashCast(HashCast(h, keys, 1), keys, 2))
    else if from == 60 then pos.(castlePermissions := Revoke(c, 4 | 8), hash := HashCast(HashCast(h, keys, 4), keys, 8))
    else if from == 0 then pos.(castlePermissions := Revoke(c, 2), hash := HashCast(h, keys, 2))
    else if from == 7 then pos.(castlePermissions := Revoke(c, 1), hash := HashCast(h, keys, 1))
    else if from == 56 then pos.(castlePermissions := Revoke(c, 8), hash := HashCast(h, keys, 8))
    else if from == 63 then pos.(castlePermissions := Revoke(c, 4), hash := HashCast(h, keys, 4))
    else pos
  }

  /** A white pawn's double step from its origin. */
  predicate WhitePawnStart(a: Action) {
    a.movingPiece == Wp && a.from + 16 == a.to
  }

  /** A black pawn's double step from its origin. */
  predicate BlackPawnStart(a: Action) {
    a.movingPiece == Bp && a.to + 16 == a.from
  }

  /**
   * The en-passant square.  An en-passant capture removes it and toggles
   * the key of the captured pawn's square, below the target for White and
   * above it for Black; a pawn's double step sets it to the square passed
   * over and toggles that key; every other move removes it without
   * toggling any key.  `player` is the side that made the move.
   */
  function EnPassantStage(pos: Position, keys: KeyTables, a: Action, player: Player): Outcome<Position>
    requires Packable(a)
  {
    if a.isEnPassant then EnPassantTaken(pos, keys, a, player) else PawnStartSquare(pos, keys, a)
  }

  /** An en-passant capture: the square is removed and the captured pawn's square key toggled. */
  function EnPassantTaken(pos: Position, keys: KeyTables, a: Action, player: Player): Outcome<Position>
    requires Packable(a)
  {
    var cleared := pos.(enPassantSquare := None);
    match player
    case White =>
      if a.to < 8 || a.to >= 72 then Panicked
      else Value(cleared.(hash := HashEnPassant(pos.hash, keys, AsSquare(a.to - 8))))
    case Black =>
      if a.to >= 56 then Panicked
      else Value(cleared.(hash := HashEnPassant(pos.hash, keys, AsSquare(a.to + 8))))
    case NoPlayer => Panicked
  }

  /** The en-passant square set to `sq`, its key toggled in. */
  function PassedOver(pos: Position, keys: KeyTables, sq: Square): Position {
    pos.(enPassantSquare := Some(sq), hash := HashEnPassant(pos.hash, keys, sq))
  }

  /** Any other move: a pawn's double step sets the square passed over, every other move removes it. */
  function PawnStartSquare(pos: Position, keys: KeyTables, a: Action): Outcome<Position>
    requires Packable(a)
  {
    if WhitePawnStart(a) then
      if a.from >= 56 then Panicked
      else
        Value(PassedOver(pos, keys, AsSquare(a.from + 8)))
    else if BlackPawnStart(a) then
      if a.to >= 56 then Panicked
      else
        Value(PassedOver(pos, keys, AsSquare(a.to + 8)))
    else
      Value(pos.(enPassantSquare := None))
  }

  /** The fifty-move counter restarts on a capture or a pawn move and counts up otherwise. */
  function HundredStage(pos: Position, a: Action): Position {
    if a.isCapture || a.movingPiece == Wp || a.movingPiece == Bp then pos.(hundredCount := 0)
    else pos.(hundredCount := pos.hundredCount + 1)
  }

  /**
   * The capture: an en-passant capture removes the enemy pawn behind the
   * target square, any other capture removes the captured piece from the
   * target square.
   */
  function CaptureStage(pos: Position, keys: KeyTables, a: Action, player: Player): Outcome<Position>
    requires Packable(a)
  {
    if !a.isCapture then Value(pos)
    else if a.isEnPassant then
      match player
      case White =>
        if a.to < 8 || a.to >= 72 then Panicked else Value(ClearSpec(pos, keys, Bp, AsSquare(a.to - 8)))
      case Black =>
        if a.to >= 56 then Panicked else Value(ClearSpec(pos, keys, Wp, AsSquare(a.to + 8)))
      case NoPlayer => Panicked
    else if a.capturedPiece == NoPiece || a.to >= 64 then Panicked
    else Value(ClearSpec(pos, keys, a.capturedPiece, AsSquare(a.to)))
  }

  /** The move of the moving piece, which must be a piece, between two board squares. */
  function MoveStage(pos: Position, keys: KeyTables, a: Action): Outcome<Position> {
    if a.movingPiece == NoPiece || a.from >= 64 || a.to >= 64 then Panicked
    else Value(MoveSpec(pos, keys, a.movingPiece, AsSquare(a.from), AsSquare(a.to)))
  }

  /** A promotion replaces the moved piece on the target square by the promoted-to piece. */
  function PromotionStage(pos: Position, keys: KeyTables, a: Action): Outcome<Position> {
    if !a.isPromotion then Value(pos)
    else if a.movingPiece == NoPiece || a.to >= 64 || a.promotedTo == NoPiece then Panicked
    else Value(AddSpec(ClearSpec(pos, keys, a.movingPiece, AsSquare(a.to)), keys, a.promotedTo, AsSquare(a.to)))
  }

  /** The stages before the capture: castling, rights, the en-passant square and the counter. */
  function Prepare(pos: Position, keys: KeyTables, a: Action, player: Player): Outcome<Position>
    requires Packable(a)
  {
    var castled := if a.isCastling then CastleStage(pos, keys, a) else Value(pos);
    if castled.Panicked? then Panicked
    else
      var passant := EnPassantStage(RightsStage(castled.value, keys, a.from), keys, a, player);
      if passant.Panicked? then Panicked
      else Value(HundredStage(passant.value, a))
  }

  /** The stages from the capture on: the capture, the move and the promotion. */
  function Finish(pos: Position, keys: KeyTables, a: Action, player: Player): Outcome<Position>
    requires Packable(a)
  {
    var captured := CaptureStage(pos, keys, a, player);
    if captured.Panicked? then Panicked
    else
      var moved := MoveStage(captured.value, keys, a);
      if moved.Panicked? then Panicked
      else PromotionStage(moved.value, keys, a)
  }

  /** Everything `step` does after decoding the move; `player` is the side that moves. */
  function Play(pos: Position, keys: KeyTables, a: Action, player: Player): Outcome<Position>
    requires Packable(a)
  {
    var prepared := Prepare(pos, keys, a, player);
    if prepared.Panicked? then Panicked else Finish(prepared.value, keys, a, player)
  }

  /** A decoded move always has squares that fit their fields. */
  lemma DecodedPackable(w: Word)
    ensures FromUsize(w).Value? ==> Packable(FromUsize(w).value)
  {
  }

  /** `Chess::step` on a move word: the position it leaves, or a panic. */
  function StepSpec(pos: Position, keys: KeyTables, w: Word): Outcome<Position> {
    DecodedPackable(w);
    match FromUsize(w)
    case Panicked => Panicked
    case Value(a) => Play(BookKeeping(pos, keys), keys, a, pos.currentPlayer)
  }
}
