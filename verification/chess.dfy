/**
 * `Chess` in src/chess.rs: the position the engine updates in place.
 *
 * The twelve piece boards are one sequence indexed by board slot; each
 * updating method is proved to leave the object in the state that the
 * matching function of module Positions or Steps computes from the state
 * it started in.
 */
module ChessGame {
  import opened Bitboards
  import opened Actions
  import opened Zobrist
  import opened Players
  import opened Outcomes
  import opened Positions
  import opened Steps

  /** The twelve boards of the starting position, in slot order. */
  const StartBoards: Boards := [
    0xFF00, 0xFF_0000_0000_0000,
    0x42, 0x4200_0000_0000_0000,
    0x24, 0x2400_0000_0000_0000,
    0x81, 0x8100_0000_0000_0000,
    0x8, 0x800_0000_0000_0000,
    0x10, 0x1000_0000_0000_0000
  ]

  /** The position `Chess::new` builds. */
  function StartPosition(keys: KeyTables): Position {
    Opening(StartHash(keys))
  }

  /**
   * The fields of `Chess::new` around a given hash: White to move, the
   * twelve starting boards, both colour masks, all four castling rights,
   * no en-passant square, no history and a zero fifty-move counter.
   */
  function Opening(h: ZobristHash): Position {
    Position(White, StartBoards, 0xFFFF, 0xFFFF_0000_0000_0000, 1 + 2 + 4 + 8, None, h, [], 0)
  }

  /**
   * In the starting position each colour mask is the union of its colour's
   * six boards, all four castling rights are held, no en-passant square is
   * set, the counter is zero and White moves.
   */
  lemma StartPositionFacts(h: ZobristHash)
    ensures var p := Opening(h);
      && p.whiteMask == p.boards[0] | p.boards[2] | p.boards[4] | p.boards[6] | p.boards[8] | p.boards[10]
      && p.blackMask == p.boards[1] | p.boards[3] | p.boards[5] | p.boards[7] | p.boards[9] | p.boards[11]
      && p.castlePermissions == 1 | 2 | 4 | 8
      && p.enPassantSquare == None && p.hundredCount == 0 && p.currentPlayer == White && p.history == []
  {
  }

  /** No square of the starting position lies on two boards. */
  lemma StartBoardsDisjoint()
    ensures forall i, j :: 0 <= i < j < 12 ==> StartBoards[i] & StartBoards[j] == 0
  {
    DisjointFromPawnsAndKnights();
    DisjointFromBishopsAndRooks();
    DisjointFromQueensAndKings();
  }

  /** The pawn and knight boards (slots 0-3) meet no later board. */
  lemma DisjointFromPawnsAndKnights()
    ensures forall i, j :: 0 <= i < 4 && i < j < 12 ==> StartBoards[i] & StartBoards[j] == 0
  {
  }

  /** The bishop and rook boards (slots 4-7) meet no later board. */
  lemma DisjointFromBishopsAndRooks()
    ensures forall i, j :: 4 <= i < 8 && i < j < 12 ==> StartBoards[i] & StartBoards[j] == 0
  {
  }

  /** The queen and king boards (slots 8-11) meet no later board. */
  lemma DisjointFromQueensAndKings()
    ensures forall i, j :: 8 <= i < j < 12 ==> StartBoards[i] & StartBoards[j] == 0
  {
  }

  /** Hash the placements in one after the other, starting from `h0`. */
  method HashIn(h0: ZobristHash, keys: KeyTables, ps: seq<Placement>) returns (h: ZobristHash)
    requires forall i :: 0 <= i < |ps| ==> ps[i].piece != NoPiece
    ensures h == HashPlacements(h0, keys, ps)
  {
    h := h0;
    var i := 0;
    while i < |ps|
      invariant 0 <= i <= |ps|
      invariant h == HashPlacements(h0, keys, ps[..i])
    {
      HashPlacementsSnoc(h0, keys, ps[..i], ps[i]);
      assert ps[..i + 1] == ps[..i] + [ps[i]];
      h := HashPiece(h, keys, ps[i].piece, ps[i].sq);
      i := i + 1;
    }
    assert ps[..i] == ps;
  }

  class Chess {
    var currentPlayer: Player
    var boards: Boards
    var whiteMask: Bitboard
    var blackMask: Bitboard
    var castlePermissions: bv8
    var enPassantSquare: Option<Square>
    var hash: ZobristHash
    var history: seq<ZobristHash>
    var hundredCount: nat
    const keys: KeyTables

    /** The fields as a position value. */
    function State(): Position
      reads this
    {
      Position(currentPlayer, boards, whiteMask, blackMask, castlePermissions,
        enPassantSquare, hash, history, hundredCount)
    }

    /**
     * `Chess::new`: the pieces of the starting position on their boards and
     * masks, White to move, all four castling rights, and the hash built
     * by `StartKey`.
     */
    constructor New(keys: KeyTables)
      ensures this.keys == keys
      ensures State() == StartPosition(keys)
    {
      this.keys := keys;
      new;
      var h := StartKey(keys);
      Load(Opening(h));
    }

    /** Overwrite every field with those of a position. */
    method Load(pos: Position)
      modifies this
      ensures State() == pos
    {
      currentPlayer, boards, whiteMask, blackMask := pos.currentPlayer, pos.boards, pos.whiteMask, pos.blackMask;
      castlePermissions, enPassantSquare := pos.castlePermissions, pos.enPassantSquare;
      hash, history, hundredCount := pos.hash, pos.history, pos.hundredCount;
    }

    /**
     * The hash of `Chess::new`: the pieces of the starting position are
     * hashed in one by one, then the castling keys of the rights 1, 2, 4
     * and 8, then the side key.
     */
    static method StartKey(keys: KeyTables) returns (h: ZobristHash)
      ensures h == StartHash(keys)
    {
      StartPlacementsPieces();
      h := HashIn(ZobristHash(InitialKey), keys, StartPlacements);
      h := HashCast(h, keys, 1);
      h := HashCast(h, keys, 2);
      h := HashCast(h, keys, 4);
      h := HashCast(h, keys, 8);
      h := HashSide(h, keys);
    }

    /** Write a new hash, a new word on the piece's board and a new mask for its colour. */
    method Write(p: Piece, h: ZobristHash, board: Bitboard, mask: Bitboard)
      requires p != NoPiece
      modifies this
      ensures State() == Touch(old(State()), p, h, board, mask)
    {
      hash := h;
      boards := boards[Slot(p) := board];
      if IsWhite(p) {
        whiteMask := mask;
      } else {
        blackMask := mask;
      }
    }

    /** `add_piece`; `Piece::None` panics. */
    method AddPiece(p: Piece, sq: Square)
      requires p != NoPiece
      modifies this
      ensures State() == AddSpec(old(State()), keys, p, sq)
    {
      var mask := if IsWhite(p) then whiteMask else blackMask;
      Write(p, HashPiece(hash, keys, p, sq), SetBit(boards[Slot(p)], sq), SetBit(mask, sq));
    }

    /** `clear_piece`; `Piece::None` panics. */
    method ClearPiece(p: Piece, sq: Square)
      requires p != NoPiece
      modifies this
      ensures State() == ClearSpec(old(State()), keys, p, sq)
    {
      var mask := if IsWhite(p) then whiteMask else blackMask;
      Write(p, HashPiece(hash, keys, p, sq), ClearBit(boards[Slot(p)], sq), ClearBit(mask, sq));
    }

    /** `move_piece`; `Piece::None` panics. */
    method MovePiece(p: Piece, f: Square, t: Square)
      requires p != NoPiece
      modifies this
      ensures State() == MoveSpec(old(State()), keys, p, f, t)
    {
      var h := HashPiece(hash, keys, p, f);
      h := HashPiece(h, keys, p, t);
      var s := Slot(p);
      var b := boards[s];
      b := ClearBit(b, f);
      b := SetBit(b, t);
      var mask := if IsWhite(p) then whiteMask else blackMask;
      mask := ClearBit(mask, f);
      mask := SetBit(mask, t);
      Write(p, h, b, mask);
    }

    /** One castling: move the king, move the rook, drop the rights in `right`. */
    method CastleWith(king: Piece, f: Square, kt: Square, rook: Piece, rf: Square, rt: Square, right: bv8)
      requires king != NoPiece && rook != NoPiece
      modifies this
      ensures State() == CastleMoves(old(State()), keys, king, f, kt, rook, rf, rt, right)
    {
      MovePiece(king, f, kt);
      MovePiece(rook, rf, rt);
      castlePermissions := Revoke(castlePermissions, right);
    }

    /** The castling branch of `step`. */
    method Castle(a: Action)
      requires CastleStage(State(), keys, a).Value?
      modifies this
      ensures State() == CastleStage(old(State()), keys, a).value
    {
      var f := AsSquare(a.from);
      if a.to == 6 {
        CastleWith(Wk, f, 6, Wr, 7, 5, 1);
      } else if a.to == 2 {
        CastleWith(Wk, f, 2, Wr, 0, 3, 2);
      } else if a.to == 62 {
        CastleWith(Bk, f, 62, Br, 63, 61, 4);
      } else {
        CastleWith(Bk, f, 58, Br, 56, 59, 8);
      }
    }

    /** The castling-rights update of `step`. */
    method UpdateRights(from: Word)
      modifies this
      ensures State() == RightsStage(old(State()), keys, from)
    {
      var c, h := castlePermissions, hash;
      if from == 4 {
        c := Revoke(c, 1 | 2);
        h := HashCast(h, keys, 1);
        h := HashCast(h, keys, 2);
      } else if from == 60 {
        c := Revoke(c, 4 | 8);
        h := HashCast(h, keys, 4);
        h := HashCast(h, keys, 8);
      } else if from == 0 {
        c := Revoke(c, 2);
        h := HashCast(h, keys, 2);
      } else if from == 7 {
        c := Revoke(c, 1);
        h := HashCast(h, keys, 1);
      } else if from == 56 {
        c := Revoke(c, 8);
        h := HashCast(h, keys, 8);
      } else if from == 63 {
        c := Revoke(c, 4);
        h := HashCast(h, keys, 4);
      }
      castlePermissions, hash := c, h;
    }

    /** The en-passant update of `step`; `player` is the side that moves. */
    method UpdateEnPassant(a: Action, player: Player)
      requires Packable(a)
      requires EnPassantStage(State(), keys, a, player).Value?
      modifies this
      ensures State() == EnPassantStage(old(State()), keys, a, player).value
    {
      if a.isEnPassant {
        TakeEnPassant(a, player);
      } else {
        SetPawnStart(a);
      }
    }

    /** An en-passant capture removes the square and hashes out the captured pawn's square. */
    method TakeEnPassant(a: Action, player: Player)
      requires Packable(a)
      requires EnPassantTaken(State(), keys, a, player).Value?
      modifies this
      ensures State() == EnPassantTaken(old(State()), keys, a, player).value
    {
      var h := hash;
      match player {
        case White => h := HashEnPassant(h, keys, AsSquare(a.to - 8));
        case Black => h := HashEnPassant(h, keys, AsSquare(a.to + 8));
      }
      enPassantSquare, hash := None, h;
    }

    /** A pawn's double step sets and hashes in the square passed over; other moves remove it. */
    method SetPawnStart(a: Action)
      requires Packable(a)
      requires PawnStartSquare(State(), keys, a).Value?
      modifies this
      ensures State() == PawnStartSquare(old(State()), keys, a).value
    {
      if WhitePawnStart(a) {
        SetEnPassant(AsSquare(a.from + 8));
      } else if BlackPawnStart(a) {
        SetEnPassant(AsSquare(a.to + 8));
      } else {
        enPassantSquare := None;
      }
    }

    /** Set the en-passant square and hash its key in. */
    method SetEnPassant(sq: Square)
      modifies this
      ensures State() == PassedOver(old(State()), keys, sq)
    {
      enPassantSquare, hash := Some(sq), HashEnPassant(hash, keys, sq);
    }

    /** The capture of `step`; `player` is the side that moves. */
    method Capture(a: Action, player: Player)
      requires Packable(a)
      requires CaptureStage(State(), keys, a, player).Value?
      modifies this
      ensures State() == CaptureStage(old(State()), keys, a, player).value
    {
      if a.isCapture {
        if a.isEnPassant {
          match player
          case White => ClearPiece(Bp, AsSquare(a.to - 8));
          case Black => ClearPiece(Wp, AsSquare(a.to + 8));
        } else {
          ClearPiece(a.capturedPiece, AsSquare(a.to));
        }
      }
    }

    /** `step` on a move word that does not make it panic. */
    method Step(w: Word)
      requires StepSpec(State(), keys, w).Value?
      modifies this
      ensures State() == StepSpec(old(State()), keys, w).value
    {
      history := history + [hash];
      var player := currentPlayer;
      currentPlayer := Swap(currentPlayer);
      hash := HashSide(hash, keys);
      DecodedPackable(w);
      var action := FromUsize(w).value;
      PrepareMove(action, player);
      FinishMove(action, player);
    }

    /** Castling, castling rights, the en-passant square and the fifty-move counter. */
    method PrepareMove(a: Action, player: Player)
      requires Packable(a)
      requires Prepare(State(), keys, a, player).Value?
      modifies this
      ensures State() == Prepare(old(State()), keys, a, player).value
    {
      if a.isCastling {
        Castle(a);
      }
      UpdateRights(a.from);
      UpdateEnPassant(a, player);
      CountMove(a);
    }

    /** The fifty-move counter: reset by a capture or a pawn move, counted up otherwise. */
    method CountMove(a: Action)
      modifies this
      ensures State() == HundredStage(old(State()), a)
    {
      if a.isCapture || a.movingPiece == Wp || a.movingPiece == Bp {
        hundredCount := 0;
      } else {
        hundredCount := hundredCount + 1;
      }
    }

    /** The capture, the move and the promotion. */
    method FinishMove(a: Action, player: Player)
      requires Packable(a)
      requires Finish(State(), keys, a, player).Value?
      modifies this
      ensures State() == Finish(old(State()), keys, a, player).value
    {
      Capture(a, player);
      MovePiece(a.movingPiece, AsSquare(a.from), AsSquare(a.to));
      if a.isPromotion {
        ClearPiece(a.movingPiece, AsSquare(a.to));
        AddPiece(a.promotedTo, AsSquare(a.to));
      }
    }
  }
}
