/**
 * Zobrist hashing of a chess position (`ZobristHash` and the key tables
 * `PIECE_KEYS`, `SIDE_KEY`, `CASTLING_KEYS`, `EN_PASSANT_KEYS` in
 * src/chess.rs).
 *
 * The engine draws its keys at random on first use; here they are a value
 * handed to the position, so every property below holds for all key tables.
 */
module Zobrist {
  import opened Bitboards
  import opened Actions

  /** The four key tables, with the source's dimensions. */
  datatype Keys = Keys(
    pieceKeys: seq<seq<bv64>>,
    sideKey: bv64,
    castlingKeys: seq<bv64>,
    enPassantKeys: seq<bv64>)

  /** Tables of 64 x 12 piece keys, 16 castling keys and 64 en-passant keys. */
  type KeyTables = k: Keys
    | |k.pieceKeys| == 64
      && (forall sq :: 0 <= sq < 64 ==> |k.pieceKeys[sq]| == 12)
      && |k.castlingKeys| == 16
      && |k.enPassantKeys| == 64
    witness Keys(seq(64, sq => seq(12, i => 0)), 0, seq(16, i => 0), seq(64, i => 0))

  /** The hash of a position: one 64-bit key, copied by value into the history. */
  datatype ZobristHash = ZobristHash(key: bv64)

  /** The key table index of a piece, `piece as usize`. */
  function KeyIndex(p: Piece): (i: nat)
    requires p != NoPiece
    ensures i < 12
  {
    match p
    case Wp => 0 case Bp => 1 case Wkn => 2 case Bkn => 3
    case Wb => 4 case Bb => 5 case Wr => 6 case Br => 7
    case Wq => 8 case Bq => 9 case Wk => 10 case Bk => 11
  }

  /** Every toggle XORs one key into the hash. */
  function Toggle(h: ZobristHash, k: bv64): ZobristHash {
    ZobristHash(h.key ^ k)
  }

  /** `hash_piece`: toggles the key of (piece, square). */
  function HashPiece(h: ZobristHash, keys: KeyTables, p: Piece, sq: Square): ZobristHash
    requires p != NoPiece
  {
    Toggle(h, keys.pieceKeys[sq][KeyIndex(p)])
  }

  /** `hash_cast`: toggles the key of a castling-rights value. */
  function HashCast(h: ZobristHash, keys: KeyTables, rights: nat): ZobristHash
    requires rights < 16
  {
    Toggle(h, keys.castlingKeys[rights])
  }

  /** `hash_side`: toggles the side-to-move key. */
  function HashSide(h: ZobristHash, keys: KeyTables): ZobristHash {
    Toggle(h, keys.sideKey)
  }

  /** `hash_en_passant`: toggles the key of an en-passant square. */
  function HashEnPassant(h: ZobristHash, keys: KeyTables, sq: Square): ZobristHash {
    Toggle(h, keys.enPassantKeys[sq])
  }

  /** Toggling the same key twice gives the hash back. */
  lemma ToggleTwice(h: ZobristHash, k: bv64)
    ensures Toggle(Toggle(h, k), k) == h
  {
  }

  /** Toggles commute. */
  lemma ToggleCommute(h: ZobristHash, k: bv64, j: bv64)
    ensures Toggle(Toggle(h, k), j) == Toggle(Toggle(h, j), k)
  {
  }

  /** A key toggled twice cancels even with another toggle in between. */
  lemma ToggleCancels(h: ZobristHash, k: bv64, j: bv64)
    ensures Toggle(Toggle(Toggle(h, k), j), k) == Toggle(h, j)
  {
    ToggleCommute(Toggle(h, k), j, k);
    ToggleTwice(h, k);
  }

  /** Two toggles repeated cancel. */
  lemma TogglePairTwice(h: ZobristHash, a: bv64, b: bv64)
    ensures Toggle(Toggle(Toggle(Toggle(h, a), b), a), b) == h
  {
    ToggleCancels(h, a, b);
    ToggleTwice(h, b);
  }

  /** Two toggles repeated after two others leave only the other two. */
  lemma ToggleRepeatedPair(h: ZobristHash, a: bv64, b: bv64, c: bv64, d: bv64)
    ensures Toggle(Toggle(Toggle(Toggle(Toggle(Toggle(h, a), b), c), d), a), b) == Toggle(Toggle(h, c), d)
  {
    var z := Toggle(Toggle(h, a), b);
    ToggleCommute(Toggle(z, c), d, a);
    ToggleCommute(z, c, a);
    ToggleCancels(h, a, b);
    var y := Toggle(h, b);
    ToggleCommute(Toggle(y, c), d, b);
    ToggleCommute(y, c, b);
    ToggleTwice(h, b);
  }

  /** Each hashing method undoes itself. */
  lemma HashInvolutions(h: ZobristHash, keys: KeyTables, p: Piece, sq: Square, rights: nat)
    requires p != NoPiece && rights < 16
    ensures HashPiece(HashPiece(h, keys, p, sq), keys, p, sq) == h
    ensures HashCast(HashCast(h, keys, rights), keys, rights) == h
    ensures HashSide(HashSide(h, keys), keys) == h
    ensures HashEnPassant(HashEnPassant(h, keys, sq), keys, sq) == h
  {
    ToggleTwice(h, keys.pieceKeys[sq][KeyIndex(p)]);
    ToggleTwice(h, keys.castlingKeys[rights]);
    ToggleTwice(h, keys.sideKey);
    ToggleTwice(h, keys.enPassantKeys[sq]);
  }

  // ---------------------------------------------------------------------------
  // The hash of the starting position
  // ---------------------------------------------------------------------------

  /** A piece standing on a square. */
  datatype Placement = Placement(piece: Piece, sq: Square)

  /** A sequence of placements hashed in one after the other. */
  function HashPlacements(h: ZobristHash, keys: KeyTables, ps: seq<Placement>): ZobristHash
    requires forall i :: 0 <= i < |ps| ==> ps[i].piece != NoPiece
    decreases |ps|
  {
    if ps == [] then h
    else HashPlacements(HashPiece(h, keys, ps[0].piece, ps[0].sq), keys, ps[1..])
  }

  /** Hashing in a longer sequence continues from the hash of its prefix. */
  lemma {:induction false} HashPlacementsSnoc(h: ZobristHash, keys: KeyTables, ps: seq<Placement>, q: Placement)
    requires forall i :: 0 <= i < |ps| ==> ps[i].piece != NoPiece
    requires q.piece != NoPiece
    ensures HashPlacements(h, keys, ps + [q]) == HashPiece(HashPlacements(h, keys, ps), keys, q.piece, q.sq)
    decreases |ps|
  {
    if ps == [] {
      assert ps + [q] == [q];
    } else {
      assert (ps + [q])[1..] == ps[1..] + [q];
      HashPlacementsSnoc(HashPiece(h, keys, ps[0].piece, ps[0].sq), keys, ps[1..], q);
    }
  }

  /**
   * The 32 pieces of the starting position in the order `Chess::new` hashes
   * them: white pawns a2-h2, the white pieces, black pawns a7-h7, the black
   * pieces.
   */
  const StartPlacements: seq<Placement> := [
    Placement(Wp, 8), Placement(Wp, 9), Placement(Wp, 10), Placement(Wp, 11),
    Placement(Wp, 12), Placement(Wp, 13), Placement(Wp, 14), Placement(Wp, 15),
    Placement(Wkn, 1), Placement(Wkn, 6), Placement(Wb, 2), Placement(Wb, 5),
    Placement(Wr, 0), Placement(Wr, 7), Placement(Wq, 3), Placement(Wk, 4),
    Placement(Bp, 48), Placement(Bp, 49), Placement(Bp, 50), Placement(Bp, 51),
    Placement(Bp, 52), Placement(Bp, 53), Placement(Bp, 54), Placement(Bp, 55),
    Placement(Bkn, 57), Placement(Bkn, 62), Placement(Bb, 58), Placement(Bb, 61),
    Placement(Br, 56), Placement(Br, 63), Placement(Bq, 59), Placement(Bk, 60)
  ]

  /** Every starting placement names a piece. */
  lemma StartPlacementsPieces()
    ensures |StartPlacements| == 32
    ensures forall i :: 0 <= i < |StartPlacements| ==> StartPlacements[i].piece != NoPiece
  {
  }

  /** The initial key `064`, i.e. decimal 64. */
  const InitialKey: bv64 := 64

  /**
   * The hash `Chess::new` builds: the 32 placements, the castling keys of
   * the rights 1, 2, 4 and 8, then the side key.
   */
  function StartHash(keys: KeyTables): ZobristHash {
    StartPlacementsPieces();
    var placed := HashPlacements(ZobristHash(InitialKey), keys, StartPlacements);
    HashSide(HashCast(HashCast(HashCast(HashCast(placed, keys, 1), keys, 2), keys, 4), keys, 8), keys)
  }
}
