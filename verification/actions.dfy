/**
 * Pieces and the packed move word of the chess engine (`Piece` and `Action`
 * in src/chess.rs).
 *
 * A move travels through the search as one `usize`, modelled here as a
 * 64-bit word.  The fields sit at fixed bit positions:
 *
 *   bits 0-3 moving piece, 4-11 from, 12-19 to, 20 capture flag,
 *   21-24 captured piece, 25 en passant, 26 castling, 27 promotion,
 *   28-31 promoted-to piece
 *
 * and the draw claim is written at bit 29 but read back from bit 32.
 */
module Actions {
  import opened Outcomes

  type Word = bv64

  /** The twelve pieces in the source's discriminant order, and `Piece::None` (12). */
  datatype Piece = Wp | Bp | Wkn | Bkn | Wb | Bb | Wr | Br | Wq | Bq | Wk | Bk | NoPiece

  /** `piece as usize`: the discriminant. */
  function PieceIndex(p: Piece): (v: Word)
    ensures v <= 12
    ensures v == 12 <==> p == NoPiece
  {
    match p
    case Wp => 0 case Bp => 1 case Wkn => 2 case Bkn => 3
    case Wb => 4 case Bb => 5 case Wr => 6 case Br => 7
    case Wq => 8 case Bq => 9 case Wk => 10 case Bk => 11
    case NoPiece => 12
  }

  /** `Piece::try_from`: the piece with discriminant v, an error above 12. */
  function TryFrom(v: Word): Option<Piece> {
    if v == 0 then Some(Wp) else if v == 1 then Some(Bp)
    else if v == 2 then Some(Wkn) else if v == 3 then Some(Bkn)
    else if v == 4 then Some(Wb) else if v == 5 then Some(Bb)
    else if v == 6 then Some(Wr) else if v == 7 then Some(Br)
    else if v == 8 then Some(Wq) else if v == 9 then Some(Bq)
    else if v == 10 then Some(Wk) else if v == 11 then Some(Bk)
    else if v == 12 then Some(NoPiece)
    else None
  }

  /** `try_from` inverts the discriminant. */
  lemma TryFromIndex(p: Piece)
    ensures TryFrom(PieceIndex(p)) == Some(p)
  {
  }

  /** `try_from` accepts exactly the words up to 12, and each accepted word is a discriminant. */
  lemma TryFromRange(v: Word)
    ensures TryFrom(v).Some? <==> v <= 12
    ensures TryFrom(v).Some? ==> PieceIndex(TryFrom(v).value) == v
  {
    if v > 12 {
      assert TryFrom(v) == None;
    }
  }

  datatype Action = Action(
    movingPiece: Piece,
    from: Word,
    to: Word,
    isCapture: bool,
    capturedPiece: Piece,
    isEnPassant: bool,
    isCastling: bool,
    isPromotion: bool,
    promotedTo: Piece,
    claimDraw: bool)

  /** A flag as the bit it is packed into: `if b {1} else {0}`. */
  function Flag(b: bool): Word {
    if b then 1 else 0
  }

  /** The word of every field except the draw claim. */
  function PackFields(a: Action): Word {
    PieceIndex(a.movingPiece)
      | (a.from << 4)
      | (a.to << 12)
      | (Flag(a.isCapture) << 20)
      | (PieceIndex(a.capturedPiece) << 21)
      | (Flag(a.isEnPassant) << 25)
      | (Flag(a.isCastling) << 26)
      | (Flag(a.isPromotion) << 27)
      | (PieceIndex(a.promotedTo) << 28)
  }

  /** `Action::to_usize` as written: the draw claim is OR-ed in at bit 29, inside the promoted-to field. */
  function ToUsize(a: Action): Word {
    PackFields(a) | (Flag(a.claimDraw) << 29)
  }

  /** `to_usize` with the draw claim at bit 32, where `from_usize` reads it. */
  function ToUsizeCorrected(a: Action): Word {
    PackFields(a) | (Flag(a.claimDraw) << 32)
  }

  // The fields of a word, as `from_usize` masks and shifts them out.
  function MovingField(w: Word): Word { w & 0xF }
  function FromField(w: Word): Word { (w & 0xFF0) >> 4 }
  function ToField(w: Word): Word { (w & 0xF_F000) >> 12 }
  function CaptureBit(w: Word): bool { w & 0x10_0000 != 0 }
  function CapturedField(w: Word): Word { (w & 0x1E0_0000) >> 21 }
  function EnPassantBit(w: Word): bool { w & 0x200_0000 != 0 }
  function CastlingBit(w: Word): bool { w & 0x400_0000 != 0 }
  function PromotionBit(w: Word): bool { w & 0x800_0000 != 0 }
  function PromotedField(w: Word): Word { (w & 0xF000_0000) >> 28 }
  function ClaimDrawBit(w: Word): bool { w & 0x1_0000_0000 != 0 }

  /**
   * `Action::from_usize`: each field is masked and shifted out of the word;
   * a piece field holding 13, 14 or 15 makes `try_into().unwrap()` panic.
   */
  function FromUsize(w: Word): (r: Outcome<Action>)
    ensures r.Panicked? <==> MovingField(w) > 12 || CapturedField(w) > 12 || PromotedField(w) > 12
  {
    var moving := TryFrom(MovingField(w));
    var captured := TryFrom(CapturedField(w));
    var promoted := TryFrom(PromotedField(w));
    TryFromRange(MovingField(w));
    TryFromRange(CapturedField(w));
    TryFromRange(PromotedField(w));
    if moving.None? || captured.None? || promoted.None? then Panicked
    else
      Value(Action(
        moving.value, FromField(w), ToField(w), CaptureBit(w), captured.value,
        EnPassantBit(w), CastlingBit(w), PromotionBit(w), promoted.value, ClaimDrawBit(w)))
  }

  /** A word whose fields are those of `a` decodes to `a`. */
  lemma DecodeFields(w: Word, a: Action)
    requires MovingField(w) == PieceIndex(a.movingPiece)
    requires FromField(w) == a.from && ToField(w) == a.to
    requires CaptureBit(w) == a.isCapture
    requires CapturedField(w) == PieceIndex(a.capturedPiece)
    requires EnPassantBit(w) == a.isEnPassant && CastlingBit(w) == a.isCastling
    requires PromotionBit(w) == a.isPromotion
    requires PromotedField(w) == PieceIndex(a.promotedTo)
    requires ClaimDrawBit(w) == a.claimDraw
    ensures FromUsize(w) == Value(a)
  {
    TryFromIndex(a.movingPiece);
    TryFromIndex(a.capturedPiece);
    TryFromIndex(a.promotedTo);
  }

  /** Squares fit their 8-bit fields. */
  predicate Packable(a: Action) {
    a.from < 256 && a.to < 256
  }

  /** The fields of a packed word, read back one mask at a time. */
  lemma PackFieldsRead(a: Action)
    requires Packable(a)
    ensures var w := PackFields(a);
      && MovingField(w) == PieceIndex(a.movingPiece)
      && FromField(w) == a.from
      && ToField(w) == a.to
      && CaptureBit(w) == a.isCapture
      && CapturedField(w) == PieceIndex(a.capturedPiece)
      && EnPassantBit(w) == a.isEnPassant
      && CastlingBit(w) == a.isCastling
      && PromotionBit(w) == a.isPromotion
      && PromotedField(w) == PieceIndex(a.promotedTo)
      && !ClaimDrawBit(w)
  {
  }

  /** Setting bit 29 changes only the promoted-to field, by OR-ing 2 into it. */
  lemma SetBit29(w: Word, v: Word)
    requires v == w | (1 << 29)
    ensures MovingField(v) == MovingField(w) && FromField(v) == FromField(w) && ToField(v) == ToField(w)
    ensures CaptureBit(v) == CaptureBit(w) && CapturedField(v) == CapturedField(w)
    ensures EnPassantBit(v) == EnPassantBit(w) && CastlingBit(v) == CastlingBit(w)
    ensures PromotionBit(v) == PromotionBit(w) && ClaimDrawBit(v) == ClaimDrawBit(w)
    ensures PromotedField(v) == PromotedField(w) | 2
  {
  }

  /** Setting bit 32 changes only the draw claim. */
  lemma SetBit32(w: Word, v: Word)
    requires v == w | (1 << 32)
    ensures MovingField(v) == MovingField(w) && FromField(v) == FromField(w) && ToField(v) == ToField(w)
    ensures CaptureBit(v) == CaptureBit(w) && CapturedField(v) == CapturedField(w)
    ensures EnPassantBit(v) == EnPassantBit(w) && CastlingBit(v) == CastlingBit(w)
    ensures PromotionBit(v) == PromotionBit(w) && PromotedField(v) == PromotedField(w)
    ensures ClaimDrawBit(v)
  {
  }

  /**
   * Encoding then decoding gives the move back when both squares fit their
   * fields and no draw is claimed.
   */
  lemma RoundTrip(a: Action)
    requires Packable(a) && !a.claimDraw
    ensures FromUsize(ToUsize(a)) == Value(a)
  {
    PackFieldsRead(a);
    assert ToUsize(a) == PackFields(a);
    DecodeFields(ToUsize(a), a);
  }

  /** A claimed draw shows up in the word as bit 29 on top of the other fields. */
  lemma ClaimDrawWord(a: Action)
    requires a.claimDraw
    ensures ToUsize(a) == PackFields(a) | (1 << 29)
  {
  }

  /** The decoded draw claim is bit 32 of the word. */
  lemma DecodedClaim(w: Word)
    ensures FromUsize(w).Value? ==> FromUsize(w).value.claimDraw == ClaimDrawBit(w)
  {
  }

  /** Whatever is encoded, the decoded draw claim is false. */
  lemma ClaimDrawNeverRead(a: Action)
    requires Packable(a)
    ensures FromUsize(ToUsize(a)).Value? ==> !FromUsize(ToUsize(a)).value.claimDraw
  {
    var w := ToUsize(a);
    PackFieldsRead(a);
    if a.claimDraw {
      ClaimDrawWord(a);
      SetBit29(PackFields(a), w);
    } else {
      assert w == PackFields(a);
    }
    assert !ClaimDrawBit(w);
    DecodedClaim(w);
  }

  /** A claimed draw with promoted-to `Wp` comes back as promoted-to `Wkn` and no claim. */
  lemma ClaimDrawCorruptsPromotion(a: Action)
    requires Packable(a) && a.claimDraw && a.promotedTo == Wp
    ensures FromUsize(ToUsize(a)) == Value(a.(promotedTo := Wkn, claimDraw := false))
  {
    PackFieldsRead(a);
    ClaimDrawWord(a);
    SetBit29(PackFields(a), ToUsize(a));
    DecodeFields(ToUsize(a), a.(promotedTo := Wkn, claimDraw := false));
  }

  /** A claimed draw with no promotion piece (12) is read back as 14, and decoding panics. */
  lemma ClaimDrawPanics(a: Action)
    requires Packable(a) && a.claimDraw && a.promotedTo == NoPiece
    ensures FromUsize(ToUsize(a)) == Panicked
  {
    PackFieldsRead(a);
    ClaimDrawWord(a);
    SetBit29(PackFields(a), ToUsize(a));
    assert PromotedField(ToUsize(a)) == 14;
  }

  /** The corrected encoder puts a claimed draw at bit 32 on top of the other fields. */
  lemma CorrectedWord(a: Action)
    ensures ToUsizeCorrected(a) == if a.claimDraw then PackFields(a) | (1 << 32) else PackFields(a)
  {
  }

  /** With the draw claim at bit 32 every field, the claim included, survives the round trip. */
  lemma RoundTripCorrected(a: Action)
    requires Packable(a)
    ensures FromUsize(ToUsizeCorrected(a)) == Value(a)
  {
    var w := ToUsizeCorrected(a);
    PackFieldsRead(a);
    CorrectedWord(a);
    if a.claimDraw {
      SetBit32(PackFields(a), w);
    }
    DecodeFields(w, a);
  }
}
