/**
 * The incremental position state of `Chess` in src/chess.rs, as a value,
 * and what each of its updating methods does to it.
 *
 * `add_piece`, `clear_piece`, `move_piece` and `step` change the fields of
 * a `Chess` in place; the class in chess.dfy performs those updates and is
 * proved to end in the state the functions here compute from the state it
 * started in.  A call that panics in the source is a `Panicked` outcome
 * here.
 */
module Positions {
  import opened Bitboards
  import opened Actions
  import opened Zobrist
  import opened Players
  import opened Outcomes

  /** The twelve piece boards `w_pawns`, `b_pawns`, ..., `w_kings`, `b_kings`, in that order. */
  type Boards = s: seq<Bitboard> | |s| == 12 witness [0, 0, 0, 0, 0, 0, 0, 0, 0, 0, 0, 0]

  datatype Position = Position(
    currentPlayer: Player,
    boards: Boards,
    whiteMask: Bitboard,
    blackMask: Bitboard,
    castlePermissions: bv8,
    enPassantSquare: Option<Square>,
    hash: ZobristHash,
    history: seq<ZobristHash>,
    hundredCount: nat)

  /** The pieces of White. */
  predicate IsWhite(p: Piece) {
    p.Wp? || p.Wkn? || p.Wb? || p.Wr? || p.Wq? || p.Wk?
  }

  /**
   * The board `add_piece`, `clear_piece` and `move_piece` select for a
   * piece.  A king selects its colour's KNIGHT board (slot 2 or 3), not
   * the king board (slot 10 or 11).
   */
  function Slot(p: Piece): (i: nat)
    requires p != NoPiece
    ensures i < 10
  {
    match p
    case Wp => 0 case Bp => 1 case Wkn => 2 case Bkn => 3
    case Wb => 4 case Bb => 5 case Wr => 6 case Br => 7
    case Wq => 8 case Bq => 9 case Wk => 2 case Bk => 3
  }

  /** The colour mask of one side. */
  function ColourMask(pos: Position, white: bool): Bitboard {
    if white then pos.whiteMask else pos.blackMask
  }

  /** The position with one side's colour mask replaced. */
  function WithColourMask(pos: Position, white: bool, m: Bitboard): (r: Position)
    ensures ColourMask(r, white) == m && ColourMask(r, !white) == ColourMask(pos, !white)
  {
    if white then pos.(whiteMask := m) else pos.(blackMask := m)
  }

  /** A square as an index: `usize` squares below 64. */
  function AsSquare(w: Word): Square
    requires w < 64
  {
    w as bv8
  }

  // ---------------------------------------------------------------------------
  // add_piece, clear_piece, move_piece
  // ---------------------------------------------------------------------------

  /** A position with a new hash, a new word on the piece's board and a new mask for its colour. */
  function Touch(pos: Position, p: Piece, h: ZobristHash, board: Bitboard, mask: Bitboard): Position
    requires p != NoPiece
  {
    WithColourMask(pos.(hash := h, boards := pos.boards[Slot(p) := board]), IsWhite(p), mask)
  }

  /** `add_piece`: hash the piece in, set the square on its board and colour mask. */
  function AddSpec(pos: Position, keys: KeyTables, p: Piece, sq: Square): Position
    requires p != NoPiece
  {
    Touch(pos, p, HashPiece(pos.hash, keys, p, sq),
      SetBit(pos.boards[Slot(p)], sq), SetBit(ColourMask(pos, IsWhite(p)), sq))
  }

  /** `clear_piece`: hash the piece out, clear the square on its board and colour mask. */
  function ClearSpec(pos: Position, keys: KeyTables, p: Piece, sq: Square): Position
    requires p != NoPiece
  {
    Touch(pos, p, HashPiece(pos.hash, keys, p, sq),
      ClearBit(pos.boards[Slot(p)], sq), ClearBit(ColourMask(pos, IsWhite(p)), sq))
  }

  /** `move_piece`: hash out at `f` and in at `t`, then clear `f` and set `t` on the board and mask. */
  function MoveSpec(pos: Position, keys: KeyTables, p: Piece, f: Square, t: Square): Position
    requires p != NoPiece
  {
    Touch(pos, p, HashPiece(HashPiece(pos.hash, keys, p, f), keys, p, t),
      SetBit(ClearBit(pos.boards[Slot(p)], f), t), SetBit(ClearBit(ColourMask(pos, IsWhite(p)), f), t))
  }

  /** The fields the piece methods never touch. */
  predicate SameSetting(a: Position, b: Position) {
    && a.currentPlayer == b.currentPlayer
    && a.castlePermissions == b.castlePermissions
    && a.enPassantSquare == b.enPassantSquare
    && a.history == b.history
    && a.hundredCount == b.hundredCount
  }

  /** `Touch` writes exactly the hash, the piece's board and its colour's mask. */
  lemma TouchFacts(pos: Position, p: Piece, h: ZobristHash, board: Bitboard, mask: Bitboard)
    requires p != NoPiece
    ensures var r := Touch(pos, p, h, board, mask);
      && SameSetting(r, pos) && r.hash == h
      && r.boards[Slot(p)] == board
      && (forall i :: 0 <= i < 12 && i != Slot(p) ==> r.boards[i] == pos.boards[i])
      && ColourMask(r, IsWhite(p)) == mask
      && ColourMask(r, !IsWhite(p)) == ColourMask(pos, !IsWhite(p))
  {
  }

  /** A second `Touch` of the same piece overwrites everything the first wrote. */
  lemma TouchTwice(pos: Position, p: Piece, h1: ZobristHash, b1: Bitboard, m1: Bitboard,
                   h2: ZobristHash, b2: Bitboard, m2: Bitboard)
    requires p != NoPiece
    ensures Touch(Touch(pos, p, h1, b1, m1), p, h2, b2, m2) == Touch(pos, p, h2, b2, m2)
  {
    assert pos.boards[Slot(p) := b1][Slot(p) := b2] == pos.boards[Slot(p) := b2];
  }

  /**
   * `add_piece` changes only the piece's board, its colour's mask and the
   * hash, by the one key of (piece, square).
   */
  lemma AddFrame(pos: Position, keys: KeyTables, p: Piece, sq: Square)
    requires p != NoPiece
    ensures var r := AddSpec(pos, keys, p, sq);
      && SameSetting(r, pos)
      && (forall i :: 0 <= i < 12 && i != Slot(p) ==> r.boards[i] == pos.boards[i])
      && ColourMask(r, !IsWhite(p)) == ColourMask(pos, !IsWhite(p))
      && r.hash == Toggle(pos.hash, keys.pieceKeys[sq][KeyIndex(p)])
      && r.boards[Slot(p)] == SetBit(pos.boards[Slot(p)], sq)
      && ColourMask(r, IsWhite(p)) == SetBit(ColourMask(pos, IsWhite(p)), sq)
  {
    TouchFacts(pos, p, HashPiece(pos.hash, keys, p, sq),
      SetBit(pos.boards[Slot(p)], sq), SetBit(ColourMask(pos, IsWhite(p)), sq));
  }

  /** On the piece's board and colour mask, `add_piece` adds exactly its square. */
  lemma AddSquares(pos: Position, keys: KeyTables, p: Piece, sq: Square, t: Square)
    requires p != NoPiece
    ensures var r := AddSpec(pos, keys, p, sq);
      && (Has(r.boards[Slot(p)], t) <==> Has(pos.boards[Slot(p)], t) || t == sq)
      && (Has(ColourMask(r, IsWhite(p)), t) <==> Has(ColourMask(pos, IsWhite(p)), t) || t == sq)
  {
    var r := AddSpec(pos, keys, p, sq);
    AddFrame(pos, keys, p, sq);
    HasSetBitOf(pos.boards[Slot(p)], sq, t, r.boards[Slot(p)]);
    HasSetBitOf(ColourMask(pos, IsWhite(p)), sq, t, ColourMask(r, IsWhite(p)));
  }

  /** `clear_piece` changes only the piece's board, its colour's mask and the hash. */
  lemma ClearFrame(pos: Position, keys: KeyTables, p: Piece, sq: Square)
    requires p != NoPiece
    ensures var r := ClearSpec(pos, keys, p, sq);
      && SameSetting(r, pos)
      && (forall i :: 0 <= i < 12 && i != Slot(p) ==> r.boards[i] == pos.boards[i])
      && ColourMask(r, !IsWhite(p)) == ColourMask(pos, !IsWhite(p))
      && r.hash == Toggle(pos.hash, keys.pieceKeys[sq][KeyIndex(p)])
      && r.boards[Slot(p)] == ClearBit(pos.boards[Slot(p)], sq)
      && ColourMask(r, IsWhite(p)) == ClearBit(ColourMask(pos, IsWhite(p)), sq)
  {
    TouchFacts(pos, p, HashPiece(pos.hash, keys, p, sq),
      ClearBit(pos.boards[Slot(p)], sq), ClearBit(ColourMask(pos, IsWhite(p)), sq));
  }

  /** On the piece's board, `clear_piece` removes exactly its square. */
  lemma ClearSquares(pos: Position, keys: KeyTables, p: Piece, sq: Square, t: Square)
    requires p != NoPiece
    ensures Has(ClearSpec(pos, keys, p, sq).boards[Slot(p)], t) <==> Has(pos.boards[Slot(p)], t) && t != sq
  {
    ClearFrame(pos, keys, p, sq);
    HasClearBitOf(pos.boards[Slot(p)], sq, t, ClearSpec(pos, keys, p, sq).boards[Slot(p)]);
  }

  /** On the piece's colour mask, `clear_piece` removes exactly its square. */
  lemma ClearMaskSquares(pos: Position, keys: KeyTables, p: Piece, sq: Square, t: Square)
    requires p != NoPiece
    ensures var w := IsWhite(p);
      Has(ColourMask(ClearSpec(pos, keys, p, sq), w), t) <==> Has(ColourMask(pos, w), t) && t != sq
  {
    ClearFrame(pos, keys, p, sq);
    HasClearBitOf(ColourMask(pos, IsWhite(p)), sq, t, ColourMask(ClearSpec(pos, keys, p, sq), IsWhite(p)));
  }

  /** `move_piece` changes only the piece's board, its colour's mask and the hash. */
  lemma MoveFrame(pos: Position, keys: KeyTables, p: Piece, f: Square, t: Square)
    requires p != NoPiece
    ensures var r := MoveSpec(pos, keys, p, f, t);
      && SameSetting(r, pos)
      && (forall i :: 0 <= i < 12 && i != Slot(p) ==> r.boards[i] == pos.boards[i])
      && ColourMask(r, !IsWhite(p)) == ColourMask(pos, !IsWhite(p))
      && r.hash == Toggle(Toggle(pos.hash, keys.pieceKeys[f][KeyIndex(p)]), keys.pieceKeys[t][KeyIndex(p)])
      && r.boards[Slot(p)] == SetBit(ClearBit(pos.boards[Slot(p)], f), t)
      && ColourMask(r, IsWhite(p)) == SetBit(ClearBit(ColourMask(pos, IsWhite(p)), f), t)
  {
    TouchFacts(pos, p, HashPiece(HashPiece(pos.hash, keys, p, f), keys, p, t),
      SetBit(ClearBit(pos.boards[Slot(p)], f), t), SetBit(ClearBit(ColourMask(pos, IsWhite(p)), f), t));
  }

  /** Positions that agree on every field are equal. */
  lemma SamePosition(a: Position, b: Position)
    requires SameSetting(a, b) && a.hash == b.hash
    requires a.whiteMask == b.whiteMask && a.blackMask == b.blackMask
    requires forall i :: 0 <= i < 12 ==> a.boards[i] == b.boards[i]
    ensures a == b
  {
    assert a.boards == b.boards;
  }

  /** The colour masks of two positions agree if they agree on each side. */
  lemma SameMasks(a: Position, b: Position, white: bool)
    requires ColourMask(a, white) == ColourMask(b, white) && ColourMask(a, !white) == ColourMask(b, !white)
    ensures a.whiteMask == b.whiteMask && a.blackMask == b.blackMask
  {
  }

  /** Clearing a piece just added to an empty square gives the position back. */
  lemma ClearUndoesAdd(pos: Position, keys: KeyTables, p: Piece, sq: Square)
    requires p != NoPiece
    requires !Has(pos.boards[Slot(p)], sq) && !Has(ColourMask(pos, IsWhite(p)), sq)
    ensures ClearSpec(AddSpec(pos, keys, p, sq), keys, p, sq) == pos
  {
    var added := AddSpec(pos, keys, p, sq);
    var r := ClearSpec(added, keys, p, sq);
    var s := Slot(p);
    var w := IsWhite(p);
    AddFrame(pos, keys, p, sq);
    ClearFrame(added, keys, p, sq);
    ClearSetBitOf(pos.boards[s], sq, added.boards[s], r.boards[s]);
    ClearSetBitOf(ColourMask(pos, w), sq, ColourMask(added, w), ColourMask(r, w));
    SameMasks(r, pos, w);
    ToggleTwice(pos.hash, keys.pieceKeys[sq][KeyIndex(p)]);
    SamePosition(r, pos);
  }

  /** `move_piece` is `clear_piece` at the origin followed by `add_piece` at the target. */
  lemma MoveIsClearThenAdd(pos: Position, keys: KeyTables, p: Piece, f: Square, t: Square)
    requires p != NoPiece
    ensures MoveSpec(pos, keys, p, f, t) == AddSpec(ClearSpec(pos, keys, p, f), keys, p, t)
  {
    var h1 := HashPiece(pos.hash, keys, p, f);
    var b1 := ClearBit(pos.boards[Slot(p)], f);
    var m1 := ClearBit(ColourMask(pos, IsWhite(p)), f);
    TouchFacts(pos, p, h1, b1, m1);
    TouchTwice(pos, p, h1, b1, m1, HashPiece(h1, keys, p, t), SetBit(b1, t), SetBit(m1, t));
  }

  /**
   * Repeating a move of a piece from `f` to `t` leaves boards and masks as
   * they are and cancels the move's hash toggles: `step` does this to the
   * king of a castling move, which it moves once in the castling branch and
   * once more as the moving piece.
   */
  lemma MoveAgain(pos: Position, keys: KeyTables, p: Piece, f: Square, t: Square)
    requires p != NoPiece && f != t
    ensures var once := MoveSpec(pos, keys, p, f, t);
      MoveSpec(once, keys, p, f, t) == once.(hash := pos.hash)
  {
    var once := MoveSpec(pos, keys, p, f, t);
    var twice := MoveSpec(once, keys, p, f, t);
    var s := Slot(p);
    var w := IsWhite(p);
    MoveFrame(pos, keys, p, f, t);
    MoveFrame(once, keys, p, f, t);
    MoveBitAgain(pos.boards[s], f, t, once.boards[s]);
    MoveBitAgain(ColourMask(pos, w), f, t, ColourMask(once, w));
    SameMasks(twice, once, w);
    var kf := keys.pieceKeys[f][KeyIndex(p)];
    var kt := keys.pieceKeys[t][KeyIndex(p)];
    ToggleCancels(pos.hash, kf, kt);
    ToggleTwice(pos.hash, kt);
    SamePosition(twice, once.(hash := pos.hash));
  }

  /** A king is added to its colour's knight board, and the king board is left alone. */
  lemma KingGoesToKnightBoard(pos: Position, keys: KeyTables, k: Piece, sq: Square)
    requires k == Wk || k == Bk
    ensures Slot(k) == (if k == Wk then 2 else 3)
    ensures Has(AddSpec(pos, keys, k, sq).boards[Slot(k)], sq)
    ensures AddSpec(pos, keys, k, sq).boards[if k == Wk then 10 else 11] == pos.boards[if k == Wk then 10 else 11]
  {
    AddFrame(pos, keys, k, sq);
    AddSquares(pos, keys, k, sq, sq);
  }
}
