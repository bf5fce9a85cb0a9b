/**
 * The checkers game of src/checkers.rs: the start position, the action
 * decoder `parse_usize_action` and `step`, which moves a piece along the
 * decoded path, removes the pieces it jumps and records them on the undo
 * stacks.  `eval`, `get_legal_actions` and `undo` are unimplemented in the
 * source and are not modelled.
 */
module Checkers {
  import opened Players
  import opened Outcomes

  /** `Figure`. */
  datatype Figure = NoFigure | WPawn | WKing | BPawn | BKing

  /** A square as (x, y): file x, rank y. */
  type Coord = (nat, nat)

  /** The 8 x 8 board `[[Figure; 8]; 8]`, indexed `board[x][y]`. */
  type Board = seq<seq<Figure>>

  predicate Shaped(b: Board) {
    |b| == 8 && forall x :: 0 <= x < 8 ==> |b[x]| == 8
  }

  predicate OnBoard(c: Coord) {
    c.0 < 8 && c.1 < 8
  }

  /** The squares a piece stands on in checkers: file and rank of equal parity. */
  predicate Dark(c: Coord) {
    OnBoard(c) && c.0 % 2 == c.1 % 2
  }

  /** `board[x][y] = f`. */
  function Put(b: Board, c: Coord, f: Figure): (r: Board)
    requires Shaped(b) && OnBoard(c)
    ensures Shaped(r)
    ensures forall x, y :: 0 <= x < 8 && 0 <= y < 8 ==> r[x][y] == if (x, y) == c then f else b[x][y]
  {
    b[c.0 := b[c.0][c.1 := f]]
  }

  function EmptyBoard(): (r: Board)
    ensures Shaped(r)
    ensures forall x, y :: 0 <= x < 8 && 0 <= y < 8 ==> r[x][y] == NoFigure
  {
    seq(8, x => seq(8, y => NoFigure))
  }

  // ---------------------------------------------------------------------------
  // The start position
  // ---------------------------------------------------------------------------

  /** `black_coords` of `Checkers::default`. */
  function BlackStart(): seq<Coord> {
    [(1, 7), (3, 7), (5, 7), (7, 7),
     (0, 6), (2, 6), (4, 6), (6, 6),
     (1, 5), (3, 5), (5, 5), (7, 5)]
  }

  /** `white_coords` of `Checkers::default`. */
  function WhiteStart(): seq<Coord> {
    [(0, 0), (2, 0), (4, 0), (6, 0),
     (1, 1), (3, 1), (5, 1), (7, 1),
     (0, 2), (2, 2), (4, 2), (6, 2)]
  }

  predicate AllOnBoard(cs: seq<Coord>) {
    forall i :: 0 <= i < |cs| ==> OnBoard(cs[i])
  }

  /** What `Checkers::default` puts on (x, y). */
  function StartFigure(x: int, y: int): Figure {
    if x < 0 || y < 0 then NoFigure
    else if (x, y) in WhiteStart() then WPawn
    else if (x, y) in BlackStart() then BPawn
    else NoFigure
  }

  /** The state of a `Checkers`. */
  datatype CheckersState = CheckersState(
    player: Player,
    board: Board,
    jumps: seq<(Coord, Coord)>,
    jumpedPiece: seq<Figure>,
    jumpsPerMove: seq<nat>)

  /** `Checkers::default`: Black to move, the two sets of twelve pawns, empty undo stacks. */
  predicate IsInitial(s: CheckersState) {
    && s.player == Black
    && Shaped(s.board)
    && (forall x, y :: 0 <= x < 8 && 0 <= y < 8 ==> s.board[x][y] == StartFigure(x, y))
    && s.jumps == [] && s.jumpedPiece == [] && s.jumpsPerMove == []
  }

  /**
   * The twelve black and the twelve white start squares are dark squares,
   * the two lists share no square and neither repeats one.
   */
  lemma StartSquares()
    ensures |BlackStart()| == |WhiteStart()| == 12
    ensures forall i :: 0 <= i < 12 ==> Dark(BlackStart()[i]) && Dark(WhiteStart()[i])
    ensures forall i, j :: 0 <= i < 12 && 0 <= j < 12 ==> BlackStart()[i] != WhiteStart()[j]
    ensures forall i, j :: 0 <= i < j < 12 ==> BlackStart()[i] != BlackStart()[j] && WhiteStart()[i] != WhiteStart()[j]
  {
  }

  lemma StartOnBoard()
    ensures AllOnBoard(BlackStart()) && AllOnBoard(WhiteStart())
  {
    forall i | 0 <= i < 12
      ensures OnBoard(BlackStart()[i]) && OnBoard(WhiteStart()[i])
    {
    }
  }

  /** The empty board with the black pawns written on it, then the white ones, is the start board. */
  lemma StartLayers(b0: Board, b1: Board, b2: Board)
    requires Shaped(b0) && Shaped(b1) && Shaped(b2)
    requires forall x, y :: 0 <= x < 8 && 0 <= y < 8 ==> b0[x][y] == NoFigure
    requires forall x, y :: 0 <= x < 8 && 0 <= y < 8 ==> b1[x][y] == if (x, y) in BlackStart() then BPawn else b0[x][y]
    requires forall x, y :: 0 <= x < 8 && 0 <= y < 8 ==> b2[x][y] == if (x, y) in WhiteStart() then WPawn else b1[x][y]
    ensures forall x, y :: 0 <= x < 8 && 0 <= y < 8 ==> b2[x][y] == StartFigure(x, y)
  {
  }

  // ---------------------------------------------------------------------------
  // Actions
  // ---------------------------------------------------------------------------

  /** `usize` is 64 bits wide. */
  const UsizeBound: nat := 0x1_0000_0000_0000_0000

  /** 2^60: the square count sits in the top four bits. */
  const CountUnit: nat := 0x1000_0000_0000_0000

  /** The n 5-bit groups of an action, lowest first. */
  function SquareCodes(action: nat, n: nat): (r: seq<nat>)
    ensures |r| == n
    ensures forall k :: 0 <= k < n ==> r[k] < 32
  {
    if n == 0 then [] else [action % 32] + SquareCodes(action / 32, n - 1)
  }

  /** The file of a square code from its remainder mod 8: 0, 4, 1, 5, 2, 6, 3, 7 give 0 to 7. */
  function FileOf(r: nat): nat
    requires r < 8
  {
    match r
    case 0 => 0 case 4 => 1 case 1 => 2 case 5 => 3
    case 2 => 4 case 6 => 5 case 3 => 6 case 7 => 7
  }

  /** The square of a 5-bit code: file from the remainder mod 8, rank from the quotient by 4. */
  function CoordOf(s: nat): (c: Coord)
    requires s < 32
    ensures Dark(c)
  {
    (FileOf(s % 8), s / 4)
  }

  /** The code of a dark square: 4 per rank, and two files per code. */
  function CodeOf(c: Coord): (s: nat)
    requires Dark(c)
    ensures s < 32
  {
    4 * c.1 + c.0 / 2
  }

  /** Codes and dark squares correspond one to one. */
  lemma CodeRoundTrip(s: nat, c: Coord)
    requires s < 32 && Dark(c)
    ensures CodeOf(CoordOf(s)) == s
    ensures CoordOf(CodeOf(c)) == c
  {
    CodeOfCoord(s);
    CoordOfCode(c);
  }

  lemma CodeOfCoord(s: nat)
    requires s < 32
    ensures CodeOf(CoordOf(s)) == s
  {
    var r := s % 8;
    FileOfParts(r);
    assert r % 4 == s % 4;
    assert FileOf(r) / 2 == s % 4;
  }

  lemma CoordOfCode(c: Coord)
    requires Dark(c)
    ensures CoordOf(CodeOf(c)) == c
  {
    var h := c.0 / 2;
    var s := 4 * c.1 + h;
    assert s / 4 == c.1;
    var r := s % 8;
    assert r == 4 * (c.1 % 2) + h;
    FileOfParts(r);
    assert FileOf(r) == 2 * h + c.1 % 2;
  }

  /** The table of `FileOf` as a formula: twice the remainder by 4, plus the half the code lies in. */
  lemma FileOfParts(r: nat)
    requires r < 8
    ensures FileOf(r) == 2 * (r % 4) + r / 4
  {
  }

  /** The square count an action announces. */
  function SquareCount(action: nat): nat {
    action / CountUnit
  }

  /** The squares `parse_usize_action` decodes, in order. */
  function Path(action: nat): (cs: seq<Coord>)
    ensures |cs| == SquareCount(action)
    ensures forall k :: 0 <= k < |cs| ==> Dark(cs[k])
  {
    var codes := SquareCodes(action, SquareCount(action));
    seq(|codes|, k requires 0 <= k < |codes| => CoordOf(codes[k]))
  }

  /**
   * `parse_usize_action`: the count n from the top four bits, n 5-bit
   * square codes from the lowest bits up, then each code turned into a
   * square.
   */
  method ParseUsizeAction(action: nat) returns (coords: seq<Coord>, n: nat)
    requires action < UsizeBound
    ensures n == SquareCount(action) && n < 16
    ensures coords == Path(action)
  {
    n := action / CountUnit;
    var squares := ReadSquareCodes(action, n);
    ghost var path := Path(action);
    coords := [];
    var i := 0;
    while i < |squares|
      invariant i <= |squares| && squares == SquareCodes(action, n)
      invariant |coords| == i && forall k :: 0 <= k < i ==> coords[k] == path[k]
    {
      coords := coords + [CoordOf(squares[i])];
      i := i + 1;
    }
  }

  /** The first loop of `parse_usize_action`: n 5-bit groups, taken off the bottom one at a time. */
  method ReadSquareCodes(action: nat, n: nat) returns (squares: seq<nat>)
    ensures squares == SquareCodes(action, n)
  {
    squares := [];
    var rest := action;
    var i := 0;
    while i < n
      invariant i <= n
      invariant squares + SquareCodes(rest, n - i) == SquareCodes(action, n)
    {
      assert SquareCodes(rest, n - i) == [rest % 32] + SquareCodes(rest / 32, n - i - 1);
      squares := squares + [rest % 32];
      rest := rest / 32;
      i := i + 1;
    }
  }

  /** 32^m. */
  function Pow32(m: nat): (r: nat)
    ensures r > 0
  {
    if m == 0 then 1 else 32 * Pow32(m - 1)
  }

  lemma {:induction false} Pow32Add(a: nat, b: nat)
    ensures Pow32(a + b) == Pow32(a) * Pow32(b)
  {
    if a > 0 {
      Pow32Add(a - 1, b);
      assert Pow32(a + b) == 32 * Pow32(a - 1 + b);
    }
  }

  /** The codes of a path as consecutive 5-bit groups, the first lowest. */
  function Pack(cs: seq<Coord>): (r: nat)
    requires forall k :: 0 <= k < |cs| ==> Dark(cs[k])
    ensures r < Pow32(|cs|)
  {
    if cs == [] then 0 else CodeOf(cs[0]) + 32 * Pack(cs[1..])
  }

  /** The action that names a path of at most twelve dark squares. */
  function Encode(cs: seq<Coord>): nat
    requires |cs| <= 12 && forall k :: 0 <= k < |cs| ==> Dark(cs[k])
  {
    |cs| * CountUnit + Pack(cs)
  }

  lemma DivMod32(c: nat, t: nat)
    requires c < 32
    ensures (c + 32 * t) % 32 == c && (c + 32 * t) / 32 == t
  {
  }

  /** The codes of the squares of a path. */
  function Codes(cs: seq<Coord>): (r: seq<nat>)
    requires forall k :: 0 <= k < |cs| ==> Dark(cs[k])
    ensures |r| == |cs|
  {
    seq(|cs|, k requires 0 <= k < |cs| => CodeOf(cs[k]))
  }

  /** The groups below the packed codes come back as the codes, whatever lies above them. */
  lemma {:induction false} UnpackCodes(cs: seq<Coord>, above: nat)
    requires forall k :: 0 <= k < |cs| ==> Dark(cs[k])
    ensures SquareCodes(Pack(cs) + Pow32(|cs|) * above, |cs|) == Codes(cs)
  {
    if cs != [] {
      var m := |cs| - 1;
      var a := Pack(cs) + Pow32(|cs|) * above;
      var tail := Pack(cs[1..]) + Pow32(m) * above;
      assert Pow32(|cs|) * above == 32 * (Pow32(m) * above);
      assert a == CodeOf(cs[0]) + 32 * tail;
      DivMod32(CodeOf(cs[0]), tail);
      UnpackCodes(cs[1..], above);
      assert Codes(cs) == [CodeOf(cs[0])] + Codes(cs[1..]);
    }
  }

  /** Decoding an encoded path of at most twelve dark squares gives the path back. */
  lemma DecodeEncode(cs: seq<Coord>)
    requires |cs| <= 12 && forall k :: 0 <= k < |cs| ==> Dark(cs[k])
    ensures Encode(cs) < UsizeBound
    ensures SquareCount(Encode(cs)) == |cs|
    ensures Path(Encode(cs)) == cs
  {
    var above := EncodeSplit(cs);
    UnpackCodes(cs, above);
    forall k | 0 <= k < |cs|
      ensures Path(Encode(cs))[k] == cs[k]
    {
      CodeRoundTrip(CodeOf(cs[k]), cs[k]);
    }
  }

  lemma Regroup(p: nat, m: nat, q: nat)
    ensures m * q >= 0 && p * (m * q) == m * (p * q)
  {
  }

  /** An encoded path is its packed codes below the count, and the count is what lies above them. */
  lemma EncodeSplit(cs: seq<Coord>) returns (above: nat)
    requires |cs| <= 12 && forall k :: 0 <= k < |cs| ==> Dark(cs[k])
    ensures Encode(cs) == Pack(cs) + Pow32(|cs|) * above
    ensures Encode(cs) < UsizeBound && SquareCount(Encode(cs)) == |cs|
  {
    var m := |cs|;
    var p, q := Pow32(m), Pow32(12 - m);
    Pow32Add(m, 12 - m);
    assert Pow32(12) == CountUnit;
    assert p * q == CountUnit;
    Regroup(p, m, q);
    above := m * q;
    assert p <= p * q;
    assert Pack(cs) < CountUnit;
  }

  // ---------------------------------------------------------------------------
  // step
  // ---------------------------------------------------------------------------

  /** i32 division by 2, truncating toward zero as Rust does. */
  function HalfTowardZero(d: int): int {
    if d >= 0 then d / 2 else -((-d) / 2)
  }

  /**
   * `add_diff(a, b)`: a moved halfway toward b, rounded toward a.  It lies
   * between a and b, stays at a exactly when they are at most one apart,
   * and is their midpoint when they differ by an even amount.
   */
  function AddDiff(a: nat, b: nat): (r: nat)
    ensures a <= b ==> a <= r <= b
    ensures b <= a ==> b <= r <= a
    ensures r == a <==> -1 <= b - a <= 1
    ensures (b - a) % 2 == 0 ==> r + r == a + b
  {
    a + HalfTowardZero(b - a)
  }

  /** The square halfway between two squares, as `step` computes it. */
  function Middle(start: Coord, end: Coord): (m: Coord)
    ensures OnBoard(start) && OnBoard(end) ==> OnBoard(m)
  {
    (AddDiff(start.0, end.0), AddDiff(start.1, end.1))
  }

  /**
   * One hop of `step` from start to end: a square passed over is recorded
   * on the undo stacks and emptied, then the figure on start moves to end.
   */
  function Hop(s: CheckersState, start: Coord, end: Coord): (t: CheckersState)
    requires Shaped(s.board) && OnBoard(start) && OnBoard(end)
    ensures Shaped(t.board)
  {
    var mid := Middle(start, end);
    var s' := if mid != start
      then s.(jumps := s.jumps + [(start, end)],
              jumpedPiece := s.jumpedPiece + [s.board[mid.0][mid.1]],
              board := Put(s.board, mid, NoFigure))
      else s;
    s'.(board := Put(Put(s'.board, end, s'.board[start.0][start.1]), start, NoFigure))
  }

  /** The hops along a path from its i-th square on. */
  function Hops(s: CheckersState, path: seq<Coord>, i: nat): (t: CheckersState)
    requires Shaped(s.board) && AllOnBoard(path)
    ensures Shaped(t.board)
    decreases |path| - i
  {
    if i + 1 >= |path| then s else Hops(Hop(s, path[i], path[i + 1]), path, i + 1)
  }

  /**
   * `step(action)`: the decoded count less one goes onto `jumps_per_move`
   * (a count of 0 underflows and panics), then the piece hops along the
   * decoded path.
   */
  function StepSpec(s: CheckersState, action: nat): (r: Outcome<CheckersState>)
    requires Shaped(s.board)
  {
    var n := SquareCount(action);
    if n == 0 then Panicked
    else Value(Hops(s.(jumpsPerMove := s.jumpsPerMove + [n - 1]), Path(action), 0))
  }

  /** `step` panics exactly when the action announces no square. */
  lemma StepPanicsOnZeroCount(s: CheckersState, action: nat)
    requires Shaped(s.board)
    ensures StepSpec(s, action).Panicked? <==> action < CountUnit
  {
  }

  /** What one hop keeps: the player, the count stack, the stack prefixes; both stacks grow by the same 0 or 1. */
  lemma HopRecords(s: CheckersState, start: Coord, end: Coord)
    requires Shaped(s.board) && OnBoard(start) && OnBoard(end)
    ensures var t := Hop(s, start, end);
      && t.player == s.player
      && t.jumpsPerMove == s.jumpsPerMove
      && s.jumps <= t.jumps && s.jumpedPiece <= t.jumpedPiece
      && |t.jumps| - |s.jumps| == |t.jumpedPiece| - |s.jumpedPiece| <= 1
  {
  }

  /**
   * What the hops from i on keep: the player and the count stack; the two
   * other stacks only grow, by the same number of entries, at most one per hop.
   */
  lemma {:induction false} HopsRecords(s: CheckersState, path: seq<Coord>, i: nat)
    requires Shaped(s.board) && AllOnBoard(path) && i <= |path|
    ensures var t := Hops(s, path, i);
      && t.player == s.player
      && t.jumpsPerMove == s.jumpsPerMove
      && s.jumps <= t.jumps && s.jumpedPiece <= t.jumpedPiece
      && |t.jumps| - |s.jumps| == |t.jumpedPiece| - |s.jumpedPiece| <= |path| - i
    decreases |path| - i
  {
    if i + 1 < |path| {
      var h := Hop(s, path[i], path[i + 1]);
      HopRecords(s, path[i], path[i + 1]);
      HopsRecords(h, path, i + 1);
    }
  }

  /**
   * `step` never changes the player to move, pushes the count less one onto
   * `jumps_per_move`, and only pushes onto `jumps` and `jumped_piece`, the
   * same number of entries onto each and no more than the path has squares.
   */
  lemma StepRecords(s: CheckersState, action: nat)
    requires Shaped(s.board) && StepSpec(s, action).Value?
    ensures var t := StepSpec(s, action).value;
      && t.player == s.player
      && t.jumpsPerMove == s.jumpsPerMove + [SquareCount(action) - 1]
      && s.jumps <= t.jumps && s.jumpedPiece <= t.jumpedPiece
      && |t.jumps| - |s.jumps| == |t.jumpedPiece| - |s.jumpedPiece| <= SquareCount(action)
  {
    var n := SquareCount(action);
    HopsRecords(s.(jumpsPerMove := s.jumpsPerMove + [n - 1]), Path(action), 0);
  }

  /**
   * A hop to a diagonal neighbour moves the figure and records nothing;
   * every other square keeps its figure.
   */
  lemma PlainHop(s: CheckersState, start: Coord, end: Coord)
    requires Shaped(s.board) && OnBoard(start) && OnBoard(end)
    requires (end.0 == start.0 + 1 || end.0 + 1 == start.0) && (end.1 == start.1 + 1 || end.1 + 1 == start.1)
    ensures var t := Hop(s, start, end);
      && t.jumps == s.jumps && t.jumpedPiece == s.jumpedPiece
      && t.board[end.0][end.1] == s.board[start.0][start.1]
      && t.board[start.0][start.1] == NoFigure
      && forall x, y :: 0 <= x < 8 && 0 <= y < 8 && (x, y) != start && (x, y) != end ==> t.board[x][y] == s.board[x][y]
  {
    assert Middle(start, end) == start;
  }

  /**
   * A jump over one square diagonally records the jump and the figure
   * jumped, empties the square passed over, and moves the figure.
   */
  lemma JumpHop(s: CheckersState, start: Coord, end: Coord)
    requires Shaped(s.board) && OnBoard(start) && OnBoard(end)
    requires (end.0 == start.0 + 2 || end.0 + 2 == start.0) && (end.1 == start.1 + 2 || end.1 + 2 == start.1)
    ensures var mid := ((start.0 + end.0) / 2, (start.1 + end.1) / 2);
      var t := Hop(s, start, end);
      && t.jumps == s.jumps + [(start, end)]
      && t.jumpedPiece == s.jumpedPiece + [s.board[mid.0][mid.1]]
      && t.board[mid.0][mid.1] == NoFigure
      && t.board[end.0][end.1] == s.board[start.0][start.1]
      && t.board[start.0][start.1] == NoFigure
      && forall x, y :: 0 <= x < 8 && 0 <= y < 8 && (x, y) != start && (x, y) != end && (x, y) != mid
           ==> t.board[x][y] == s.board[x][y]
  {
    var mid := Middle(start, end);
    assert mid == ((start.0 + end.0) / 2, (start.1 + end.1) / 2);
  }

  // ---------------------------------------------------------------------------
  // The game object
  // ---------------------------------------------------------------------------

  /** `Checkers`: the board and the undo stacks are updated in place by `step`. */
  class Checkers {
    var currentPlayer: Player
    /** The board, held by value as in the struct. */
    var board: Board
    var jumps: seq<(Coord, Coord)>
    var jumpedPiece: seq<Figure>
    var jumpsPerMove: seq<nat>

    predicate Valid()
      reads this
    {
      Shaped(board)
    }

    function State(): CheckersState
      reads this
    {
      CheckersState(currentPlayer, board, jumps, jumpedPiece, jumpsPerMove)
    }

    /** `Checkers::default`: the black pawns, then the white pawns, written onto an empty board. */
    constructor ()
      ensures Valid() && IsInitial(State())
    {
      var b := StartPosition();
      currentPlayer := Black;
      board := b;
      jumps := [];
      jumpedPiece := [];
      jumpsPerMove := [];
    }

    /** The board of `Checkers::default`. */
    static method StartPosition() returns (b: Board)
      ensures Shaped(b)
      ensures forall x, y :: 0 <= x < 8 && 0 <= y < 8 ==> b[x][y] == StartFigure(x, y)
    {
      var b0 := EmptyBoard();
      StartOnBoard();
      var b1 := PlacePawns(b0, BlackStart(), BPawn);
      b := PlacePawns(b1, WhiteStart(), WPawn);
      StartLayers(b0, b1, b);
    }

    /** One of the two loops of `Checkers::default`: f written on every square of cs. */
    static method PlacePawns(b: Board, cs: seq<Coord>, f: Figure) returns (r: Board)
      requires Shaped(b) && AllOnBoard(cs)
      ensures Shaped(r)
      ensures forall x, y :: 0 <= x < 8 && 0 <= y < 8 ==> r[x][y] == if (x, y) in cs then f else b[x][y]
    {
      r := b;
      var i := 0;
      while i < |cs|
        invariant i <= |cs| && Shaped(r)
        invariant forall x, y :: 0 <= x < 8 && 0 <= y < 8 ==> r[x][y] == if (x, y) in cs[..i] then f else b[x][y]
      {
        assert forall c :: c in cs[..i + 1] <==> c in cs[..i] || c == cs[i];
        r := Put(r, cs[i], f);
        i := i + 1;
      }
      assert cs[..i] == cs;
    }

    /** `step(action)`, for an action that announces at least one square. */
    method Step(action: nat)
      requires Valid() && action < UsizeBound && StepSpec(State(), action).Value?
      modifies this
      ensures Valid() && State() == StepSpec(old(State()), action).value
    {
      var coords, n := ParseUsizeAction(action);
      jumpsPerMove := jumpsPerMove + [n - 1];
      HopAlong(coords);
    }

    /** The loop of `step` over consecutive squares of the decoded path. */
    method HopAlong(coords: seq<Coord>)
      requires Valid() && AllOnBoard(coords)
      modifies this
      ensures Valid() && State() == Hops(old(State()), coords, 0)
    {
      ghost var s1 := State();
      var i := 0;
      while i + 1 < |coords|
        invariant i <= |coords| && Valid()
        invariant Hops(State(), coords, i) == Hops(s1, coords, 0)
        decreases |coords| - i
      {
        HopInPlace(coords[i], coords[i + 1]);
        i := i + 1;
      }
    }

    /** One pass of `step`'s loop over consecutive squares of the path. */
    method HopInPlace(start: Coord, end: Coord)
      requires Valid() && OnBoard(start) && OnBoard(end)
      modifies this
      ensures Valid() && State() == Hop(old(State()), start, end)
    {
      var mid := (AddDiff(start.0, end.0), AddDiff(start.1, end.1));
      if mid != start {
        jumps := jumps + [(start, end)];
        jumpedPiece := jumpedPiece + [board[mid.0][mid.1]];
        board := Put(board, mid, NoFigure);
      }
      board := Put(board, end, board[start.0][start.1]);
      board := Put(board, start, NoFigure);
    }
  }
}
