/**
 * `Info::from_fen` of src/fen_parsing.rs: a Forsyth-Edwards Notation
 * record is split on single spaces, its last six fields are popped from the
 * end and read one after the other into an `Info` (move counters, en
 * passant square, castling rights, player to move, twelve piece boards).
 * A field the parser rejects with `?` ends it with an error; a field its
 * `panic!` arms reject ends it with a panic.
 */
module FenParsing {
  import Outcomes
  import opened Bitboards

  // ---------------------------------------------------------------------------
  // Errors, results and the record
  // ---------------------------------------------------------------------------

  /** The kinds of `ParseIntError` that `str::parse::<usize>` reports. */
  datatype IntErrorKind = Empty | InvalidDigit | PosOverflow

  /** `FENParsingError`. */
  datatype FenError = ParseIntError(kind: IntErrorKind) | FileParseError | RankParseError | InvalidFen

  /** How a part of the parser ends: with a value, an error propagated by `?`, or a panic. */
  datatype Parsed<T> = Ok(value: T) | Err(error: FenError) | Panicked

  /**
   * `Info`.  The twelve piece boards `w_pawns`, `b_pawns`, ..., `b_kings`
   * are `pieces[0]` to `pieces[11]`, in the order of `PIECE_CHARS`.
   */
  datatype Info = Info(
    white: bool,
    shortWhiteRights: bool,
    longWhiteRights: bool,
    shortBlackRights: bool,
    longBlackRights: bool,
    enPassantSq: Outcomes.Option<nat>,
    fiftyCount: nat,
    fullmoveCount: nat,
    pieces: seq<Bitboard>,
    whiteMask: Bitboard,
    blackMask: Bitboard,
    occupied: Bitboard)

  /** The piece letters of `PIECE_CHARS`, the board of letter k being `pieces[k]`. */
  const PieceChars: string := "PpNnBbRrQqKk"

  /** `Info::new`: White to move, all four castling rights, everything else empty or zero. */
  function InfoNew(): (info: Info)
    ensures |info.pieces| == 12
  {
    Info(true, true, true, true, true, Outcomes.None, 0, 0,
         [0, 0, 0, 0, 0, 0, 0, 0, 0, 0, 0, 0], 0, 0, 0)
  }

  // ---------------------------------------------------------------------------
  // Splitting into fields
  // ---------------------------------------------------------------------------

  /** `str::split(" ")`: the pieces between single spaces; the empty string is one empty piece. */
  function Split(s: string): (r: seq<string>)
    ensures |r| >= 1
  {
    if s == [] then [""]
    else if s[0] == ' ' then [""] + Split(s[1..])
    else var t := Split(s[1..]); [[s[0]] + t[0]] + t[1..]
  }

  /** The pieces glued back together with single spaces. */
  function Join(parts: seq<string>): string
    requires |parts| >= 1
  {
    if |parts| == 1 then parts[0] else parts[0] + " " + Join(parts[1..])
  }

  predicate NoSpace(s: string) {
    forall k :: 0 <= k < |s| ==> s[k] != ' '
  }

  /** The number of spaces in s. */
  function Spaces(s: string): nat {
    if s == [] then 0 else (if s[0] == ' ' then 1 else 0) + Spaces(s[1..])
  }

  /** Splitting loses nothing: the pieces hold no space and join back to the string. */
  lemma {:induction false} JoinSplit(s: string)
    ensures Join(Split(s)) == s
    ensures forall k :: 0 <= k < |Split(s)| ==> NoSpace(Split(s)[k])
    ensures |Split(s)| == Spaces(s) + 1
  {
    if s != [] {
      JoinSplit(s[1..]);
      var t := Split(s[1..]);
      if s[0] == ' ' {
        assert Split(s) == [""] + t;
        assert Join(Split(s)) == "" + " " + Join(t);
        assert s == [s[0]] + s[1..];
      } else {
        assert Split(s) == [[s[0]] + t[0]] + t[1..];
        if |t| == 1 {
          assert Join(Split(s)) == [s[0]] + t[0];
        } else {
          assert Join(Split(s)) == [s[0]] + t[0] + " " + Join(t[1..]);
          assert Join(t) == t[0] + " " + Join(t[1..]);
        }
        assert s == [s[0]] + s[1..];
      }
    }
  }

  /** Splitting around a space splits each side. */
  lemma {:induction false} SplitAppend(p: string, q: string)
    ensures Split(p + " " + q) == Split(p) + Split(q)
  {
    if p == [] {
      assert p + " " + q == [' '] + q;
      assert (p + " " + q)[1..] == q;
    } else {
      assert (p + " " + q)[1..] == p[1..] + " " + q;
      SplitAppend(p[1..], q);
    }
  }

  /** Pieces without spaces come back from their join: `Split` and `Join` are inverse. */
  lemma {:induction false} SplitJoin(parts: seq<string>)
    requires |parts| >= 1 && forall k :: 0 <= k < |parts| ==> NoSpace(parts[k])
    ensures Split(Join(parts)) == parts
  {
    if |parts| == 1 {
      NoSpaceSplit(parts[0]);
    } else {
      SplitJoin(parts[1..]);
      SplitAppend(parts[0], Join(parts[1..]));
      NoSpaceSplit(parts[0]);
      assert parts == [parts[0]] + parts[1..];
    }
  }

  /** A string without spaces is one piece. */
  lemma {:induction false} NoSpaceSplit(s: string)
    requires NoSpace(s)
    ensures Split(s) == [s]
  {
    if s != [] {
      NoSpaceSplit(s[1..]);
      assert s == [s[0]] + s[1..];
    }
  }

  // ---------------------------------------------------------------------------
  // str::parse::<usize>
  // ---------------------------------------------------------------------------

  /** `usize::MAX` on a 64-bit target. */
  const UsizeMax: nat := 0xFFFF_FFFF_FFFF_FFFF

  datatype IntParse = IntOk(value: nat) | IntErr(kind: IntErrorKind)

  predicate IsDigit(c: char) {
    '0' <= c <= '9'
  }

  function DigitValue(c: char): (d: nat)
    requires IsDigit(c)
    ensures d < 10
  {
    c as int - '0' as int
  }

  predicate AllDigits(d: string) {
    forall k :: 0 <= k < |d| ==> IsDigit(d[k])
  }

  /**
   * `usize::from_str`: an empty string is `Empty`; a lone sign is
   * `InvalidDigit`; one leading `+` is skipped; then the digits are read
   * left to right, a non-digit giving `InvalidDigit` and a value above
   * `usize::MAX` giving `PosOverflow`, whichever comes first.
   */
  function ParseUsize(s: string): (r: IntParse)
    ensures r.IntOk? ==> r.value <= UsizeMax
  {
    if s == [] then IntErr(Empty)
    else if (s[0] == '+' || s[0] == '-') && |s| == 1 then IntErr(InvalidDigit)
    else if s[0] == '+' then Accumulate(s[1..], 0, 0)
    else Accumulate(s, 0, 0)
  }

  /** The digit loop of `from_str` from position i, with the value read so far. */
  function Accumulate(d: string, i: nat, acc: nat): (r: IntParse)
    requires i <= |d| && acc <= UsizeMax
    ensures r.IntOk? ==> r.value <= UsizeMax
    decreases |d| - i
  {
    if i == |d| then IntOk(acc)
    else if !IsDigit(d[i]) then IntErr(InvalidDigit)
    else if acc * 10 + DigitValue(d[i]) > UsizeMax then IntErr(PosOverflow)
    else Accumulate(d, i + 1, acc * 10 + DigitValue(d[i]))
  }

  /** The number a string of decimal digits denotes. */
  function DecimalValue(d: string): nat
    requires AllDigits(d)
  {
    if d == [] then 0 else DecimalValue(d[..|d| - 1]) * 10 + DigitValue(d[|d| - 1])
  }

  /** A prefix of a digit string denotes no more than the whole string. */
  lemma {:induction false} DecimalValuePrefix(d: string, i: nat)
    requires AllDigits(d) && i <= |d|
    ensures DecimalValue(d[..i]) <= DecimalValue(d)
    decreases |d| - i
  {
    if i < |d| {
      DecimalValuePrefix(d, i + 1);
      assert d[..i + 1][..i] == d[..i];
    } else {
      assert d[..i] == d;
    }
  }

  /** From position i on, the digit loop ends with the whole value, or overflows when that is too big. */
  lemma {:induction false} AccumulateDigits(d: string, i: nat)
    requires AllDigits(d) && i <= |d| && DecimalValue(d[..i]) <= UsizeMax
    ensures Accumulate(d, i, DecimalValue(d[..i])) ==
      if DecimalValue(d) <= UsizeMax then IntOk(DecimalValue(d)) else IntErr(PosOverflow)
    decreases |d| - i
  {
    if i == |d| {
      assert d[..i] == d;
    } else {
      assert d[..i + 1][..i] == d[..i];
      var next := DecimalValue(d[..i]) * 10 + DigitValue(d[i]);
      assert DecimalValue(d[..i + 1]) == next;
      if next <= UsizeMax {
        AccumulateDigits(d, i + 1);
      } else {
        DecimalValuePrefix(d, i + 1);
      }
    }
  }

  /** The digit loop succeeds only on digits. */
  lemma {:induction false} AccumulateOk(d: string, i: nat, acc: nat)
    requires i <= |d| && acc <= UsizeMax
    ensures Accumulate(d, i, acc).IntOk? ==> forall k :: i <= k < |d| ==> IsDigit(d[k])
    decreases |d| - i
  {
    if i < |d| && IsDigit(d[i]) && acc * 10 + DigitValue(d[i]) <= UsizeMax {
      AccumulateOk(d, i + 1, acc * 10 + DigitValue(d[i]));
    }
  }

  /**
   * What `parse::<usize>` does with a field: digits, possibly after one
   * `+`, give their value when it fits and `PosOverflow` when it does not;
   * a field it accepts is such a field.
   */
  lemma ParseUsizeDigits(s: string, d: string)
    requires d != [] && AllDigits(d) && (s == d || s == "+" + d)
    ensures ParseUsize(s) == if DecimalValue(d) <= UsizeMax then IntOk(DecimalValue(d)) else IntErr(PosOverflow)
  {
    assert d[..0] == [];
    AccumulateDigits(d, 0);
    if s == "+" + d {
      assert s[1..] == d;
    }
  }

  lemma ParseUsizeOk(s: string)
    ensures ParseUsize(s).IntOk? ==>
      && s != []
      && (AllDigits(s) || (s[0] == '+' && AllDigits(s[1..])))
  {
    if s != [] && !((s[0] == '+' || s[0] == '-') && |s| == 1) {
      if s[0] == '+' {
        AccumulateOk(s[1..], 0, 0);
      } else {
        AccumulateOk(s, 0, 0);
      }
    }
  }

  /** The decimal digit of d < 10. */
  function DigitChar(d: nat): (c: char)
    requires d < 10
    ensures IsDigit(c) && DigitValue(c) == d
  {
    ('0' as int + d) as char
  }

  /** n in decimal, without leading zeros. */
  function Decimal(n: nat): (s: string)
    ensures s != [] && AllDigits(s)
  {
    if n < 10 then [DigitChar(n)] else Decimal(n / 10) + [DigitChar(n % 10)]
  }

  lemma {:induction false} DecimalValueOf(n: nat)
    ensures DecimalValue(Decimal(n)) == n
  {
    if n >= 10 {
      DecimalValueOf(n / 10);
      var s := Decimal(n);
      assert s[..|s| - 1] == Decimal(n / 10);
    }
  }

  /** Every `usize` written in decimal parses back to itself. */
  lemma ParseDecimal(n: nat)
    requires n <= UsizeMax
    ensures ParseUsize(Decimal(n)) == IntOk(n)
  {
    DecimalValueOf(n);
    ParseUsizeDigits(Decimal(n), Decimal(n));
  }

  // ---------------------------------------------------------------------------
  // En passant field
  // ---------------------------------------------------------------------------

  /**
   * The en passant arm of `from_fen`: `-` is no square; otherwise the first
   * character must be a file letter `A` to `H` (a missing one is
   * `FileParseError`, another one panics) and the second a rank digit `1` to
   * `8` (a missing one is `RankParseError`, another one panics); further
   * characters are not looked at.
   */
  function EnPassantSquare(block: string): (r: Parsed<Outcomes.Option<nat>>)
    ensures r.Ok? && r.value.Some? ==> r.value.value < 64
  {
    if block == "-" then Ok(Outcomes.None)
    else if |block| == 0 then Err(FileParseError)
    else if !('A' <= block[0] <= 'H') then Panicked
    else if |block| == 1 then Err(RankParseError)
    else if !('1' <= block[1] <= '8') then Panicked
    else Ok(Outcomes.Some((block[0] as int - 'A' as int) + 8 * (block[1] as int - '1' as int)))
  }

  /** The two characters the en passant arm reads as square sq. */
  function SquareName(sq: nat): (s: string)
    requires sq < 64
    ensures |s| == 2
  {
    [('A' as int + sq % 8) as char, ('1' as int + sq / 8) as char]
  }

  /** A square's name reads as that square whatever follows it, and a square read is named by the first two characters. */
  lemma EnPassantRoundTrip(sq: nat, rest: string, block: string)
    requires sq < 64
    ensures EnPassantSquare(SquareName(sq) + rest) == Ok(Outcomes.Some(sq))
    ensures EnPassantSquare(block).Ok? && EnPassantSquare(block).value.Some? ==>
      |block| >= 2 && block[..2] == SquareName(EnPassantSquare(block).value.value)
  {
    var s := SquareName(sq) + rest;
    assert s[0] == ('A' as int + sq % 8) as char && s[1] == ('1' as int + sq / 8) as char;
  }

  /** The error cases of the en passant arm. */
  lemma EnPassantErrors(block: string)
    ensures EnPassantSquare(block) == Err(FileParseError) <==> block == []
    ensures EnPassantSquare(block) == Err(RankParseError) <==> |block| == 1 && 'A' <= block[0] <= 'H'
    ensures EnPassantSquare(block) == Ok(Outcomes.None) <==> block == "-"
  {
  }

  // ---------------------------------------------------------------------------
  // Castling field
  // ---------------------------------------------------------------------------

  /** The four castling flags of `Info`, as the castling block updates them. */
  datatype Rights = Rights(shortWhite: bool, longWhite: bool, shortBlack: bool, longBlack: bool)

  /** The castling loop from position i: `K`, `Q`, `k`, `q` set their flag, any other character panics. */
  function Castle(block: string, i: nat, rights: Rights): (r: Parsed<Rights>)
    requires i <= |block|
    ensures !r.Err?
    decreases |block| - i
  {
    if i == |block| then Ok(rights)
    else match block[i]
      case 'K' => Castle(block, i + 1, rights.(shortWhite := true))
      case 'Q' => Castle(block, i + 1, rights.(longWhite := true))
      case 'k' => Castle(block, i + 1, rights.(shortBlack := true))
      case 'q' => Castle(block, i + 1, rights.(longBlack := true))
      case _ => Panicked
  }

  /** The castling block of `from_fen`: all four flags cleared, then the loop. */
  function CastlingSpec(block: string): (r: Parsed<Rights>)
    ensures !r.Err?
  {
    Castle(block, 0, Rights(false, false, false, false))
  }

  predicate CastlingChar(c: char) {
    c == 'K' || c == 'Q' || c == 'k' || c == 'q'
  }

  /** Character c occurs in the block from position i on. */
  predicate Occurs(block: string, i: nat, c: char)
    decreases |block| - i
  {
    i < |block| && (block[i] == c || Occurs(block, i + 1, c))
  }

  /** Some character from position i on is not a castling letter. */
  predicate BadFrom(block: string, i: nat)
    decreases |block| - i
  {
    i < |block| && (!CastlingChar(block[i]) || BadFrom(block, i + 1))
  }

  lemma {:induction false} OccursIn(block: string, i: nat, c: char)
    requires i <= |block|
    ensures Occurs(block, i, c) <==> c in block[i..]
    decreases |block| - i
  {
    if i < |block| {
      OccursIn(block, i + 1, c);
      assert block[i..] == [block[i]] + block[i + 1..];
    }
  }

  lemma {:induction false} BadFromSome(block: string, i: nat)
    requires i <= |block|
    ensures BadFrom(block, i) <==> exists k :: i <= k < |block| && !CastlingChar(block[k])
    decreases |block| - i
  {
    if i < |block| {
      BadFromSome(block, i + 1);
    }
  }

  /**
   * The loop from i panics exactly when a character from i on is not a
   * castling letter; otherwise each flag ends set iff it was set or its
   * letter occurs from i on.
   */
  lemma {:induction false} CastleMeaning(block: string, i: nat, rights: Rights)
    requires i <= |block|
    ensures Castle(block, i, rights).Panicked? <==> BadFrom(block, i)
    ensures Castle(block, i, rights).Ok? ==>
      Castle(block, i, rights).value ==
        Rights(rights.shortWhite || Occurs(block, i, 'K'), rights.longWhite || Occurs(block, i, 'Q'),
               rights.shortBlack || Occurs(block, i, 'k'), rights.longBlack || Occurs(block, i, 'q'))
    decreases |block| - i
  {
    if i < |block| {
      match block[i]
      case 'K' => CastleMeaning(block, i + 1, rights.(shortWhite := true));
      case 'Q' => CastleMeaning(block, i + 1, rights.(longWhite := true));
      case 'k' => CastleMeaning(block, i + 1, rights.(shortBlack := true));
      case 'q' => CastleMeaning(block, i + 1, rights.(longBlack := true));
      case _ =>
    }
  }

  /**
   * The castling field panics exactly when it holds a character other than
   * `K`, `Q`, `k`, `q` (a `-` included), and never reports an error;
   * otherwise each flag is set iff its letter occurs in the field, so an
   * empty field clears all four.
   */
  lemma CastlingRights(block: string)
    ensures !CastlingSpec(block).Err?
    ensures CastlingSpec(block).Panicked? <==> exists k :: 0 <= k < |block| && !CastlingChar(block[k])
    ensures CastlingSpec(block).Ok? ==>
      CastlingSpec(block).value == Rights('K' in block, 'Q' in block, 'k' in block, 'q' in block)
  {
    CastleMeaning(block, 0, Rights(false, false, false, false));
    BadFromSome(block, 0);
    assert block[0..] == block;
    OccursIn(block, 0, 'K');
    OccursIn(block, 0, 'Q');
    OccursIn(block, 0, 'k');
    OccursIn(block, 0, 'q');
  }

  /** The castling loop of `from_fen`, on the four flags. */
  method SetCastlingRights(block: string) returns (r: Parsed<Rights>)
    ensures r == CastlingSpec(block)
  {
    var rights := Rights(false, false, false, false);
    var i := 0;
    while i < |block|
      invariant i <= |block|
      invariant Castle(block, i, rights) == CastlingSpec(block)
    {
      match block[i] {
        case 'K' => rights := rights.(shortWhite := true);
        case 'Q' => rights := rights.(longWhite := true);
        case 'k' => rights := rights.(shortBlack := true);
        case 'q' => rights := rights.(longBlack := true);
        case _ => return Panicked;
      }
      i := i + 1;
    }
    return Ok(rights);
  }

  // ---------------------------------------------------------------------------
  // Player field
  // ---------------------------------------------------------------------------

  /** The player arm: `w` is White, `b` is Black, anything else panics. */
  function PlayerSpec(block: string): (r: Parsed<bool>)
    ensures r.Ok? <==> block == "w" || block == "b"
    ensures r.Ok? ==> (r.value <==> block == "w")
  {
    if block == "w" then Ok(true) else if block == "b" then Ok(false) else Panicked
  }

  // ---------------------------------------------------------------------------
  // Piece placement field
  // ---------------------------------------------------------------------------

  /** The index of a piece letter in `PIECE_CHARS`. */
  function PieceIndex(c: char): (k: nat)
    requires c in PieceChars
    ensures k < 12 && PieceChars[k] == c
  {
    if c == 'P' then 0 else if c == 'p' then 1
    else if c == 'N' then 2 else if c == 'n' then 3
    else if c == 'B' then 4 else if c == 'b' then 5
    else if c == 'R' then 6 else if c == 'r' then 7
    else if c == 'Q' then 8 else if c == 'q' then 9
    else if c == 'K' then 10 else 11
  }

  /** `set_bit(sq)` on board k of the twelve piece boards. */
  function SetPiece(pieces: seq<Bitboard>, k: nat, sq: nat): (r: seq<Bitboard>)
    requires |pieces| == 12 && k < 12 && sq < 64
    ensures |r| == 12
  {
    pieces[k := SetBit(pieces[k], sq as bv8)]
  }

  /**
   * The placement loop from position i with the cursor at (file, rank): `/`
   * moves to file 0 of the next lower rank (below rank 0 the `usize`
   * underflows and panics), a digit `1` to `8` moves the file on by its
   * value, a piece letter sets square file + 8 rank of its board (a square
   * of 64 or more overflows the shift and panics) and moves the file on by
   * one, and any other character panics.
   */
  function Place(block: string, i: nat, file: nat, rank: nat, pieces: seq<Bitboard>): (r: Parsed<seq<Bitboard>>)
    requires i <= |block| && |pieces| == 12
    ensures !r.Err?
    ensures r.Ok? ==> |r.value| == 12
    decreases |block| - i
  {
    if i == |block| then Ok(pieces)
    else
      var c := block[i];
      var sq := file + 8 * rank;
      if c == '/' then
        if rank == 0 then Panicked else Place(block, i + 1, 0, rank - 1, pieces)
      else if '1' <= c <= '8' then
        Place(block, i + 1, file + DigitValue(c), rank, pieces)
      else if c in PieceChars then
        if sq >= 64 then Panicked
        else Place(block, i + 1, file + 1, rank, SetPiece(pieces, PieceIndex(c), sq))
      else Panicked
  }

  /** The placement block of `from_fen`: the loop from file 0 of rank 7. */
  function PlacementSpec(pieces: seq<Bitboard>, block: string): (r: Parsed<seq<Bitboard>>)
    requires |pieces| == 12
    ensures !r.Err?
    ensures r.Ok? ==> |r.value| == 12
  {
    Place(block, 0, 0, 7, pieces)
  }

  /** The (file, rank) cursor of the placement loop when it reaches position j. */
  function Cursor(block: string, j: nat): (int, int)
    requires j <= |block|
  {
    if j == 0 then (0, 7)
    else
      var (file, rank) := Cursor(block, j - 1);
      var c := block[j - 1];
      if c == '/' then (0, rank - 1)
      else if '1' <= c <= '8' then (file + DigitValue(c), rank)
      else (file + 1, rank)
  }

  /** The square the placement loop is at when it reaches position j. */
  function SquareAt(block: string, j: nat): int
    requires j <= |block|
  {
    Cursor(block, j).0 + 8 * Cursor(block, j).1
  }

  /** Letter k is read, from position i on, with the cursor on square sq. */
  predicate PlacedFrom(block: string, i: nat, k: nat, sq: int)
    requires k < 12
  {
    exists j :: i <= j < |block| && block[j] == PieceChars[k] && SquareAt(block, j) == sq
  }

  /**
   * Boards `result` hold exactly the squares of `pieces` plus those of the
   * letters read from position i on.
   */
  ghost predicate Describes(block: string, i: nat, pieces: seq<Bitboard>, result: seq<Bitboard>)
    requires |pieces| == 12 && |result| == 12
  {
    forall k: nat, sq: Square | k < 12 ::
      Has(result[k], sq) <==> Has(pieces[k], sq) || PlacedFrom(block, i, k, sq as int)
  }

  /** The loop from i only adds to the piece boards the squares of the letters it reads. */
  lemma {:induction false} PlaceMeaning(block: string, i: nat, file: nat, rank: nat, pieces: seq<Bitboard>)
    requires i <= |block| && |pieces| == 12
    requires Cursor(block, i) == (file, rank)
    ensures var r := Place(block, i, file, rank, pieces);
      r.Ok? ==> Describes(block, i, pieces, r.value)
    decreases |block| - i
  {
    var r := Place(block, i, file, rank, pieces);
    if i < |block| && r.Ok? {
      var c := block[i];
      if c == '/' {
        PlaceMeaning(block, i + 1, 0, rank - 1, pieces);
        DescribesSkip(block, i, pieces, r.value);
      } else if '1' <= c <= '8' {
        PlaceMeaning(block, i + 1, file + DigitValue(c), rank, pieces);
        DescribesSkip(block, i, pieces, r.value);
      } else {
        assert c in PieceChars;
        var sq := file + 8 * rank;
        assert sq < 64;
        var next := SetPiece(pieces, PieceIndex(c), sq);
        assert r == Place(block, i + 1, file + 1, rank, next);
        PlaceMeaning(block, i + 1, file + 1, rank, next);
        assert SquareAt(block, i) == sq;
        assert Describes(block, i + 1, next, r.value);
        DescribesLetter(block, i, pieces, sq, r.value);
      }
    }
  }

  /** Past a character that is not a piece letter, the description carries back. */
  lemma DescribesSkip(block: string, i: nat, pieces: seq<Bitboard>, result: seq<Bitboard>)
    requires i < |block| && block[i] !in PieceChars
    requires |pieces| == 12 && |result| == 12
    requires Describes(block, i + 1, pieces, result)
    ensures Describes(block, i, pieces, result)
  {
    PlacedSkip(block, i);
  }

  /** Past a piece letter read on square sq, the description carries back to the boards before it. */
  lemma DescribesLetter(block: string, i: nat, pieces: seq<Bitboard>, sq: nat, result: seq<Bitboard>)
    requires i < |block| && block[i] in PieceChars && sq < 64 && SquareAt(block, i) == sq
    requires |pieces| == 12 && |result| == 12
    requires Describes(block, i + 1, SetPiece(pieces, PieceIndex(block[i]), sq), result)
    ensures Describes(block, i, pieces, result)
  {
    var k0 := PieceIndex(block[i]);
    PlacedLetter(block, i, k0);
    SetPieceMeaning(pieces, k0, sq);
  }

  /** Setting square sq on board k adds sq to that board and changes nothing else. */
  lemma SetPieceMeaning(pieces: seq<Bitboard>, k: nat, sq: nat)
    requires |pieces| == 12 && k < 12 && sq < 64
    ensures forall k': nat, s: Square | k' < 12 ::
      Has(SetPiece(pieces, k, sq)[k'], s) <==> Has(pieces[k'], s) || (k' == k && s as int == sq)
  {
    forall k': nat, s: Square | k' < 12
      ensures Has(SetPiece(pieces, k, sq)[k'], s) <==> Has(pieces[k'], s) || (k' == k && s as int == sq)
    {
      HasSetBit(pieces[k], sq as bv8, s);
      SquareOfIndex(sq, s);
    }
  }

  /** A square equals the conversion of index sq exactly when its index is sq. */
  lemma SquareOfIndex(sq: nat, s: Square)
    requires sq < 64
    ensures s == sq as bv8 <==> s as int == sq
  {
  }

  /** Stepping past a position that holds no piece letter places nothing. */
  lemma PlacedSkip(block: string, i: nat)
    requires i < |block| && block[i] !in PieceChars
    ensures forall k: nat, sq: int | k < 12 :: PlacedFrom(block, i, k, sq) <==> PlacedFrom(block, i + 1, k, sq)
  {
    forall k: nat, sq: int | k < 12 && PlacedFrom(block, i, k, sq)
      ensures PlacedFrom(block, i + 1, k, sq)
    {
      var j :| i <= j < |block| && block[j] == PieceChars[k] && SquareAt(block, j) == sq;
      assert block[j] in PieceChars;
    }
  }

  /** Stepping past letter k0 places it on the cursor's square. */
  lemma PlacedLetter(block: string, i: nat, k0: nat)
    requires i < |block| && k0 < 12 && block[i] == PieceChars[k0]
    ensures forall k: nat, sq: int | k < 12 ::
      PlacedFrom(block, i, k, sq) <==> PlacedFrom(block, i + 1, k, sq) || (k == k0 && SquareAt(block, i) == sq)
  {
    forall k: nat, sq: int | k < 12 && PlacedFrom(block, i, k, sq) && !PlacedFrom(block, i + 1, k, sq)
      ensures k == k0 && SquareAt(block, i) == sq
    {
      var j :| i <= j < |block| && block[j] == PieceChars[k] && SquareAt(block, j) == sq;
      assert j == i;
      PieceCharsDistinct(k, k0);
    }
  }

  lemma PieceCharsDistinct(k: nat, k0: nat)
    requires k < 12 && k0 < 12 && PieceChars[k] == PieceChars[k0]
    ensures k == k0
  {
  }

  /**
   * After a successful placement onto empty boards, square sq is on board k
   * exactly when letter k is read with the cursor on sq.
   */
  lemma PlacementMeaning(block: string)
    ensures var r := PlacementSpec(InfoNew().pieces, block);
      r.Ok? ==> forall k: nat, sq: Square | k < 12 :: Has(r.value[k], sq) <==> PlacedFrom(block, 0, k, sq as int)
  {
    var empty := InfoNew().pieces;
    PlaceMeaning(block, 0, 0, 7, empty);
    forall k: nat, sq: Square | k < 12
      ensures !Has(empty[k], sq)
    {
      HasZero(sq);
    }
  }

  /** The placement loop of `from_fen`, on the twelve piece boards. */
  method PlacePieces(pieces: seq<Bitboard>, block: string) returns (r: Parsed<seq<Bitboard>>)
    requires |pieces| == 12
    ensures r == PlacementSpec(pieces, block)
  {
    var boards := pieces;
    var file: nat, rank: nat := 0, 7;
    var i := 0;
    while i < |block|
      invariant i <= |block| && |boards| == 12
      invariant Place(block, i, file, rank, boards) == PlacementSpec(pieces, block)
    {
      var c := block[i];
      var sq := file + 8 * rank;
      if c == '/' {
        if rank == 0 {
          return Panicked;
        }
        rank, file := rank - 1, 0;
      } else if '1' <= c <= '8' {
        file := file + DigitValue(c);
      } else if c in PieceChars {
        if sq >= 64 {
          return Panicked;
        }
        boards := SetPiece(boards, PieceIndex(c), sq);
        file := file + 1;
      } else {
        return Panicked;
      }
      i := i + 1;
    }
    return Ok(boards);
  }

  // ---------------------------------------------------------------------------
  // from_fen
  // ---------------------------------------------------------------------------

  /**
   * The parse blocks of `from_fen` on the six fields, in the order the
   * source runs them: full move count, fifty count, en passant, castling,
   * player, placement.
   */
  function FromFields(pieces: string, player: string, castling: string, ep: string,
                      fifty: string, fullmove: string): (r: Parsed<Info>)
    ensures r != Err(InvalidFen)
    ensures r.Ok? ==> |r.value.pieces| == 12 && r.value.whiteMask == 0 && r.value.blackMask == 0 && r.value.occupied == 0
  {
    match ParseUsize(fullmove)
    case IntErr(k) => Err(ParseIntError(k))
    case IntOk(full) =>
      match ParseUsize(fifty)
      case IntErr(k) => Err(ParseIntError(k))
      case IntOk(half) =>
        match EnPassantSquare(ep)
        case Err(e) => Err(e)
        case Panicked => Panicked
        case Ok(sq) =>
          match CastlingSpec(castling)
          case Err(e) => Err(e)
          case Panicked => Panicked
          case Ok(rights) =>
            match PlayerSpec(player)
            case Err(e) => Err(e)
            case Panicked => Panicked
            case Ok(white) =>
              match PlacementSpec(InfoNew().pieces, pieces)
              case Err(e) => Err(e)
              case Panicked => Panicked
              case Ok(boards) =>
                Ok(InfoNew().(fullmoveCount := full, fiftyCount := half, enPassantSq := sq,
                              shortWhiteRights := rights.shortWhite, longWhiteRights := rights.longWhite,
                              shortBlackRights := rights.shortBlack, longBlackRights := rights.longBlack,
                              white := white, pieces := boards))
  }

  /** `Info::from_fen`: the last six fields of the split, popped from the end. */
  function FromFenSpec(fen: string): (r: Parsed<Info>)
    ensures r.Ok? ==> |r.value.pieces| == 12 && r.value.whiteMask == 0 && r.value.blackMask == 0 && r.value.occupied == 0
  {
    var b := Split(fen);
    var n := |b|;
    if n < 6 then Err(InvalidFen)
    else FromFields(b[n - 6], b[n - 5], b[n - 4], b[n - 3], b[n - 2], b[n - 1])
  }

  /** `from_fen`. */
  method FromFen(fen: string) returns (r: Parsed<Info>)
    ensures r == FromFenSpec(fen)
  {
    var blocks := Split(fen);
    // `split` yields at least one piece, so the first pop always succeeds.
    var fullmoveBlock := blocks[|blocks| - 1];
    blocks := blocks[..|blocks| - 1];
    var fiftyBlock, enPassantBlock, castlingBlock, playerBlock, pieceBlock;
    blocks, fiftyBlock := Pop(blocks);
    if fiftyBlock.None? {
      return Err(InvalidFen);
    }
    blocks, enPassantBlock := Pop(blocks);
    if enPassantBlock.None? {
      return Err(InvalidFen);
    }
    blocks, castlingBlock := Pop(blocks);
    if castlingBlock.None? {
      return Err(InvalidFen);
    }
    blocks, playerBlock := Pop(blocks);
    if playerBlock.None? {
      return Err(InvalidFen);
    }
    blocks, pieceBlock := Pop(blocks);
    if pieceBlock.None? {
      return Err(InvalidFen);
    }
    r := ParseFields(pieceBlock.value, playerBlock.value, castlingBlock.value,
                     enPassantBlock.value, fiftyBlock.value, fullmoveBlock);
  }

  /** `Vec::pop`: the last element and the rest, or nothing from an empty vector. */
  method Pop(v: seq<string>) returns (rest: seq<string>, last: Outcomes.Option<string>)
    ensures v == [] ==> rest == [] && last == Outcomes.None
    ensures v != [] ==> rest == v[..|v| - 1] && last == Outcomes.Some(v[|v| - 1])
  {
    if v == [] {
      return [], Outcomes.None;
    }
    return v[..|v| - 1], Outcomes.Some(v[|v| - 1]);
  }

  /** The parse blocks of `from_fen`, assigning the fields of a new `Info` one by one. */
  method ParseFields(pieces: string, player: string, castling: string, ep: string,
                     fifty: string, fullmove: string) returns (r: Parsed<Info>)
    ensures r == FromFields(pieces, player, castling, ep, fifty, fullmove)
  {
    var info := InfoNew();
    var full := ParseUsize(fullmove);
    if full.IntErr? {
      return Err(ParseIntError(full.kind));
    }
    info := info.(fullmoveCount := full.value);
    var half := ParseUsize(fifty);
    if half.IntErr? {
      return Err(ParseIntError(half.kind));
    }
    info := info.(fiftyCount := half.value);
    var sq := EnPassantSquare(ep);
    if sq.Err? {
      return Err(sq.error);
    } else if sq.Panicked? {
      return Panicked;
    }
    info := info.(enPassantSq := sq.value);
    var rights := SetCastlingRights(castling);
    if !rights.Ok? {
      return Panicked;
    }
    info := info.(shortWhiteRights := rights.value.shortWhite, longWhiteRights := rights.value.longWhite,
                  shortBlackRights := rights.value.shortBlack, longBlackRights := rights.value.longBlack);
    var white := PlayerSpec(player);
    if !white.Ok? {
      return Panicked;
    }
    info := info.(white := white.value);
    var boards := PlacePieces(info.pieces, pieces);
    if !boards.Ok? {
      return Panicked;
    }
    info := info.(pieces := boards.value);
    return Ok(info);
  }

  // ---------------------------------------------------------------------------
  // Properties of from_fen
  // ---------------------------------------------------------------------------

  /** `InvalidFen` is returned exactly when the record has fewer than six fields, that is fewer than five spaces. */
  lemma InvalidFenIff(fen: string)
    ensures FromFenSpec(fen) == Err(InvalidFen) <==> Spaces(fen) < 5
  {
    JoinSplit(fen);
  }

  /** Fields in front of the last six are never looked at. */
  lemma ExtraFieldsIgnored(prefix: string, fen: string)
    requires |Split(fen)| >= 6
    ensures FromFenSpec(prefix + " " + fen) == FromFenSpec(fen)
  {
    SplitAppend(prefix, fen);
    var b := Split(fen);
    var all := Split(prefix + " " + fen);
    var m := |Split(prefix)|;
    var n := |b|;
    assert all[m..] == b;
    assert all[|all| - 6..] == b[n - 6..];
  }

  /** A bad full move count is reported whatever the other fields hold: it is parsed first. */
  lemma FullmoveFirst(fen: string)
    requires |Split(fen)| >= 6
    requires ParseUsize(Split(fen)[|Split(fen)| - 1]).IntErr?
    ensures FromFenSpec(fen) == Err(ParseIntError(ParseUsize(Split(fen)[|Split(fen)| - 1]).kind))
  {
  }

  /** A bad fifty count is reported when the full move count parses. */
  lemma FiftySecond(fen: string)
    requires |Split(fen)| >= 6
    requires ParseUsize(Split(fen)[|Split(fen)| - 1]).IntOk?
    requires ParseUsize(Split(fen)[|Split(fen)| - 2]).IntErr?
    ensures FromFenSpec(fen) == Err(ParseIntError(ParseUsize(Split(fen)[|Split(fen)| - 2]).kind))
  {
  }

  /**
   * A record parsed from six fields holds what they name: the two counters,
   * the en passant square, the player, the castling flags of the letters
   * present and the pieces of the placement.
   */
  lemma FromFieldsValue(pieces: string, player: string, castling: string, ep: string,
                        fifty: string, fullmove: string)
    requires FromFields(pieces, player, castling, ep, fifty, fullmove).Ok?
    ensures var info := FromFields(pieces, player, castling, ep, fifty, fullmove).value;
      && ParseUsize(fullmove) == IntOk(info.fullmoveCount)
      && ParseUsize(fifty) == IntOk(info.fiftyCount)
      && EnPassantSquare(ep) == Ok(info.enPassantSq)
      && (info.shortWhiteRights <==> 'K' in castling) && (info.longWhiteRights <==> 'Q' in castling)
      && (info.shortBlackRights <==> 'k' in castling) && (info.longBlackRights <==> 'q' in castling)
      && (info.white <==> player == "w")
      && forall k: nat, sq: Square | k < 12 :: Has(info.pieces[k], sq) <==> PlacedFrom(pieces, 0, k, sq as int)
  {
    CastlingRights(castling);
    PlacementMeaning(pieces);
  }

  /** A record parsed from a FEN string holds what its last six fields name. */
  lemma FromFenFields(fen: string)
    requires FromFenSpec(fen).Ok?
    ensures var b := Split(fen);
      var n := |b|;
      var info := FromFenSpec(fen).value;
      && n >= 6
      && ParseUsize(b[n - 1]) == IntOk(info.fullmoveCount)
      && ParseUsize(b[n - 2]) == IntOk(info.fiftyCount)
      && EnPassantSquare(b[n - 3]) == Ok(info.enPassantSq)
      && (info.shortWhiteRights <==> 'K' in b[n - 4]) && (info.longWhiteRights <==> 'Q' in b[n - 4])
      && (info.shortBlackRights <==> 'k' in b[n - 4]) && (info.longBlackRights <==> 'q' in b[n - 4])
      && (info.white <==> b[n - 5] == "w")
      && forall k: nat, sq: Square | k < 12 :: Has(info.pieces[k], sq) <==> PlacedFrom(b[n - 6], 0, k, sq as int)
  {
    var b := Split(fen);
    var n := |b|;
    FromFieldsValue(b[n - 6], b[n - 5], b[n - 4], b[n - 3], b[n - 2], b[n - 1]);
  }
}
