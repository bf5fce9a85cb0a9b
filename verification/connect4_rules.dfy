/**
 * The rules of connect four (`Connect4` in ARCHIVE/connect4.rs) as
 * functions of a state value: the board, the scan `evaluate` performs, the
 * legal columns, and what `step` and `undo` do.
 *
 * The board `[[Player; 5]; 8]` is one block of 40 cells: column x
 * (0..7, left to right) and row y (0..4, bottom to top) is cell x * 5 + y.
 */
module Connect4Rules {
  import opened Players
  import opened Outcomes
  import opened MinMax

  type CellIndex = i: nat | i < 40

  type Grid = g: seq<Player> | |g| == 40 witness seq(40, i => NoPlayer)

  /** The board with no stone. */
  const EmptyGrid: Grid := seq(40, i => NoPlayer)

  function Cell(x: nat, y: nat): CellIndex
    requires x < 8 && y < 5
  {
    x * 5 + y
  }

  /** The `(x, y)` pair pushed onto the history by `step`. */
  datatype Drop = Drop(x: nat, y: nat)

  /** The fields of a `Connect4`. */
  datatype Connect4State = Connect4State(player: Player, grid: Grid, history: seq<Drop>)

  /** `Connect4::default`: an empty board, White to move, no history. */
  const Initial: Connect4State := Connect4State(White, EmptyGrid, [])

  // ---------------------------------------------------------------------------
  // The scan of `evaluate`
  // ---------------------------------------------------------------------------

  /** The cells one scan loop reads, in order. */
  type Line = seq<CellIndex>

  /**
   * The run counters along a line from index i: a stone extends the run of
   * its colour and resets the other, an empty cell resets both, and the
   * first run to reach 4 names the winner.
   */
  function Scan(g: Grid, line: Line, i: nat, black: nat, white: nat): Player
    requires i <= |line|
    decreases g, |line| - i
  {
    if i == |line| then NoPlayer
    else
      var b := if g[line[i]] == Black then black + 1 else 0;
      var w := if g[line[i]] == White then white + 1 else 0;
      if b >= 4 then Black
      else if w >= 4 then White
      else Scan(g, line, i + 1, b, w)
  }

  /** One scan loop with fresh counters. */
  function LineWinner(g: Grid, line: Line): Player {
    Scan(g, line, 0, 0, 0)
  }

  /** The first of two answers that names a player. */
  function Or(p: Player, q: Player): Player {
    if p != NoPlayer then p else q
  }

  /** The answer of the first line from index k on that names a player. */
  function FirstWinner(g: Grid, lines: seq<Line>, k: nat): Player
    requires k <= |lines|
    decreases g, |lines| - k
  {
    if k == |lines| then NoPlayer else Or(LineWinner(g, lines[k]), FirstWinner(g, lines, k + 1))
  }

  /** Row y, left to right. */
  function RowLine(y: nat): Line
    requires y < 5
  {
    seq(8, x requires 0 <= x < 8 => Cell(x, y))
  }

  /** Column x, bottom to top. */
  function ColumnLine(x: nat): Line
    requires x < 8
  {
    seq(5, y requires 0 <= y < 5 => Cell(x, y))
  }

  /**
   * The cells the up-right scan from (x0, y0) reads: it goes on only while
   * the NEXT cell is on the board, so it never reads column 7 or row 4.
   */
  function RisingLine(x0: nat, y0: nat): Line
    requires x0 < 8 && y0 < 5
  {
    var n := Min(7 - x0, 4 - y0);
    seq<CellIndex>(n, i requires 0 <= i < n => Cell(x0 + i, y0 + i))
  }

  /** The cells the up-left scan from (x0, y0) reads: never column 0 or row 4. */
  function FallingLine(x0: nat, y0: nat): Line
    requires x0 < 8 && y0 < 5
  {
    var n := Min(x0, 4 - y0);
    seq<CellIndex>(n, i requires 0 <= i < n => Cell(x0 - i, y0 + i))
  }

  /** The k-th start of the up-right scans: (0, 4), (0, 3), ..., (0, 0), (1, 0), ..., (7, 0). */
  function RisingStart(k: nat): (nat, nat)
    requires k < 12
  {
    if k < 4 then (0, 4 - k) else (k - 4, 0)
  }

  /** The k-th start of the up-left scans: (7, 4), (7, 3), ..., (7, 0), (6, 0), ..., (0, 0). */
  function FallingStart(k: nat): (nat, nat)
    requires k < 12
  {
    if k < 4 then (7, 4 - k) else (11 - k, 0)
  }

  function Rows(): seq<Line> {
    seq(5, y requires 0 <= y < 5 => RowLine(y))
  }

  function Columns(): seq<Line> {
    seq(8, x requires 0 <= x < 8 => ColumnLine(x))
  }

  function RisingLines(): seq<Line> {
    seq(12, k requires 0 <= k < 12 => RisingLine(RisingStart(k).0, RisingStart(k).1))
  }

  function FallingLines(): seq<Line> {
    seq(12, k requires 0 <= k < 12 => FallingLine(FallingStart(k).0, FallingStart(k).1))
  }

  /** The k-th up-right scan reads Min(7 - x0, 4 - y0) cells up-right from its start (x0, y0). */
  lemma RisingLineCells(k: nat)
    requires k < 12
    ensures var (x0, y0) := RisingStart(k);
      && |RisingLines()[k]| == Min(7 - x0, 4 - y0)
      && forall i :: 0 <= i < |RisingLines()[k]| ==> RisingLines()[k][i] == Cell(x0 + i, y0 + i)
  {
  }

  /** The k-th up-left scan reads Min(x0, 4 - y0) cells up-left from its start (x0, y0). */
  lemma FallingLineCells(k: nat)
    requires k < 12
    ensures var (x0, y0) := FallingStart(k);
      && |FallingLines()[k]| == Min(x0, 4 - y0)
      && forall i :: 0 <= i < |FallingLines()[k]| ==> FallingLines()[k][i] == Cell(x0 - i, y0 + i)
  {
  }

  /** The 37 lines `evaluate` scans, in its order: rows, columns, up-right, then up-left diagonals. */
  function Lines(): seq<Line> {
    Rows() + Columns() + RisingLines() + FallingLines()
  }

  /** `evaluate`: the answer of the first scanned line that names a player. */
  function Winner(g: Grid): Player {
    FirstWinner(g, Lines(), 0)
  }

  /** Scanning lines b after lines a continues at the first line of b. */
  lemma {:induction false} FirstWinnerShift(g: Grid, a: seq<Line>, b: seq<Line>, j: nat)
    requires j <= |b|
    ensures FirstWinner(g, a + b, |a| + j) == FirstWinner(g, b, j)
    decreases |b| - j
  {
    if j < |b| {
      assert (a + b)[|a| + j] == b[j];
      FirstWinnerShift(g, a, b, j + 1);
    }
  }

  /** Scanning lines a then lines b answers as a does, or else as b does. */
  lemma {:induction false} FirstWinnerAppend(g: Grid, a: seq<Line>, b: seq<Line>, k: nat)
    requires k <= |a|
    ensures FirstWinner(g, a + b, k) == Or(FirstWinner(g, a, k), FirstWinner(g, b, 0))
    decreases |a| - k
  {
    if k == |a| {
      FirstWinnerShift(g, a, b, 0);
    } else {
      assert (a + b)[k] == a[k];
      FirstWinnerAppend(g, a, b, k + 1);
    }
  }

  /** Four groups of lines scanned one after the other. */
  lemma FourGroups(g: Grid, a: seq<Line>, b: seq<Line>, c: seq<Line>, d: seq<Line>)
    ensures FirstWinner(g, a + b + c + d, 0)
         == Or(FirstWinner(g, a, 0), Or(FirstWinner(g, b, 0), Or(FirstWinner(g, c, 0), FirstWinner(g, d, 0))))
  {
    FirstWinnerAppend(g, a + b + c, d, 0);
    FirstWinnerAppend(g, a + b, c, 0);
    FirstWinnerAppend(g, a, b, 0);
  }

  /** `evaluate` checks rows, then columns, then up-right, then up-left diagonals. */
  lemma WinnerGroups(g: Grid)
    ensures Winner(g)
         == Or(FirstWinner(g, Rows(), 0),
              Or(FirstWinner(g, Columns(), 0), Or(FirstWinner(g, RisingLines(), 0), FirstWinner(g, FallingLines(), 0))))
  {
    FourGroups(g, Rows(), Columns(), RisingLines(), FallingLines());
  }

  // ---------------------------------------------------------------------------
  // Four in a row
  // ---------------------------------------------------------------------------

  predicate HorizontalFour(g: Grid, c: Player, x: nat, y: nat) {
    x + 3 < 8 && y < 5
    && g[Cell(x, y)] == c && g[Cell(x + 1, y)] == c && g[Cell(x + 2, y)] == c && g[Cell(x + 3, y)] == c
  }

  predicate VerticalFour(g: Grid, c: Player, x: nat, y: nat) {
    x < 8 && y + 3 < 5
    && g[Cell(x, y)] == c && g[Cell(x, y + 1)] == c && g[Cell(x, y + 2)] == c && g[Cell(x, y + 3)] == c
  }

  /** Four stones from (x, y) going up and right. */
  predicate RisingFour(g: Grid, c: Player, x: nat, y: nat) {
    x + 3 < 8 && y + 3 < 5
    && g[Cell(x, y)] == c && g[Cell(x + 1, y + 1)] == c && g[Cell(x + 2, y + 2)] == c && g[Cell(x + 3, y + 3)] == c
  }

  /** Four stones from (x, y) going up and left. */
  predicate FallingFour(g: Grid, c: Player, x: nat, y: nat) {
    3 <= x < 8 && y + 3 < 5
    && g[Cell(x, y)] == c && g[Cell(x - 1, y + 1)] == c && g[Cell(x - 2, y + 2)] == c && g[Cell(x - 3, y + 3)] == c
  }

  /** Any four in a row, in any of the four directions. */
  predicate AnyFour(g: Grid, c: Player, x: nat, y: nat) {
    HorizontalFour(g, c, x, y) || VerticalFour(g, c, x, y) || RisingFour(g, c, x, y) || FallingFour(g, c, x, y)
  }

  /**
   * The fours the scan of `evaluate` can see: every row and column four, and
   * the diagonal fours that avoid row 4 and the column the scan stops before.
   */
  predicate VisibleFour(g: Grid, c: Player, x: nat, y: nat) {
    || HorizontalFour(g, c, x, y)
    || VerticalFour(g, c, x, y)
    || (RisingFour(g, c, x, y) && x + 3 < 7 && y + 3 < 4)
    || (FallingFour(g, c, x, y) && x >= 4 && y + 3 < 4)
  }

  // ---------------------------------------------------------------------------
  // What a scan finds
  // ---------------------------------------------------------------------------

  /** Four cells of colour c at indices j .. j + 3 of a line. */
  predicate FourAt(g: Grid, line: Line, j: nat, c: Player)
    requires j + 4 <= |line|
  {
    g[line[j]] == c && g[line[j + 1]] == c && g[line[j + 2]] == c && g[line[j + 3]] == c
  }

  /**
   * When the counters hold the lengths of the runs that end just before
   * index i, a scan names a player only where that player has four in a row.
   */
  lemma {:induction false} ScanSound(g: Grid, line: Line, i: nat, black: nat, white: nat)
    requires i <= |line|
    requires black < 4 && white < 4 && black <= i && white <= i
    requires forall k :: i - black <= k < i ==> g[line[k]] == Black
    requires forall k :: i - white <= k < i ==> g[line[k]] == White
    ensures Scan(g, line, i, black, white) != NoPlayer ==>
      exists j :: 0 <= j && j + 4 <= |line| && FourAt(g, line, j, Scan(g, line, i, black, white))
    decreases |line| - i
  {
    if i < |line| {
      var b := if g[line[i]] == Black then black + 1 else 0;
      var w := if g[line[i]] == White then white + 1 else 0;
      if b >= 4 {
        assert FourAt(g, line, i - 3, Black);
      } else if w >= 4 {
        assert FourAt(g, line, i - 3, White);
      } else {
        ScanSound(g, line, i + 1, b, w);
      }
    }
  }

  /** The counter of colour c. */
  function RunOf(c: Player, black: nat, white: nat): nat {
    if c == Black then black else white
  }

  /**
   * A scan that has not passed a four of colour c, and whose counter of c
   * covers the part of the four already read, names a player.
   */
  lemma {:induction false} ScanComplete(g: Grid, line: Line, i: nat, black: nat, white: nat, j: nat, c: Player)
    requires j + 4 <= |line| && FourAt(g, line, j, c) && c != NoPlayer
    requires i <= j + 3
    requires j <= i ==> RunOf(c, black, white) >= i - j
    ensures Scan(g, line, i, black, white) != NoPlayer
    decreases |line| - i
  {
    var b := if g[line[i]] == Black then black + 1 else 0;
    var w := if g[line[i]] == White then white + 1 else 0;
    if b < 4 && w < 4 {
      ScanComplete(g, line, i + 1, b, w, j, c);
    }
  }

  /** A line whose scan names a player has four in a row of that player. */
  lemma LineWinnerSound(g: Grid, line: Line)
    ensures LineWinner(g, line) != NoPlayer ==>
      exists j :: 0 <= j && j + 4 <= |line| && FourAt(g, line, j, LineWinner(g, line))
  {
    ScanSound(g, line, 0, 0, 0);
  }

  /** A line with four in a row names a player. */
  lemma LineWinnerComplete(g: Grid, line: Line, j: nat, c: Player)
    requires j + 4 <= |line| && FourAt(g, line, j, c) && c != NoPlayer
    ensures LineWinner(g, line) != NoPlayer
  {
    ScanComplete(g, line, 0, 0, 0, j, c);
  }

  /** The answer for a group of lines is the answer of one of its lines. */
  lemma {:induction false} FirstWinnerSound(g: Grid, lines: seq<Line>, k: nat)
    requires k <= |lines|
    ensures FirstWinner(g, lines, k) != NoPlayer ==>
      exists m :: k <= m < |lines| && LineWinner(g, lines[m]) == FirstWinner(g, lines, k)
    decreases |lines| - k
  {
    if k < |lines| {
      FirstWinnerSound(g, lines, k + 1);
    }
  }

  /** A group with a line that names a player names one. */
  lemma {:induction false} FirstWinnerComplete(g: Grid, lines: seq<Line>, k: nat, m: nat)
    requires k <= m < |lines| && LineWinner(g, lines[m]) != NoPlayer
    ensures FirstWinner(g, lines, k) != NoPlayer
    decreases m - k
  {
    if k < m {
      FirstWinnerComplete(g, lines, k + 1, m);
    }
  }

  /** The line of group `lines` that names c holds four in a row of c. */
  lemma GroupLine(g: Grid, lines: seq<Line>, c: Player) returns (m: nat, j: nat)
    requires c != NoPlayer && FirstWinner(g, lines, 0) == c
    ensures m < |lines| && j + 4 <= |lines[m]| && FourAt(g, lines[m], j, c)
  {
    FirstWinnerSound(g, lines, 0);
    m :| 0 <= m < |lines| && LineWinner(g, lines[m]) == c;
    LineWinnerSound(g, lines[m]);
    j :| 0 <= j && j + 4 <= |lines[m]| && FourAt(g, lines[m], j, c);
  }

  // ---------------------------------------------------------------------------
  // `evaluate` reports exactly the visible fours
  // ---------------------------------------------------------------------------

  lemma RowsSound(g: Grid, c: Player) returns (x: nat, y: nat)
    requires c != NoPlayer && FirstWinner(g, Rows(), 0) == c
    ensures HorizontalFour(g, c, x, y)
  {
    var m, j := GroupLine(g, Rows(), c);
    x, y := j, m;
  }

  lemma ColumnsSound(g: Grid, c: Player) returns (x: nat, y: nat)
    requires c != NoPlayer && FirstWinner(g, Columns(), 0) == c
    ensures VerticalFour(g, c, x, y)
  {
    var m, j := GroupLine(g, Columns(), c);
    x, y := m, j;
  }

  lemma RisingSound(g: Grid, c: Player) returns (x: nat, y: nat)
    requires c != NoPlayer && FirstWinner(g, RisingLines(), 0) == c
    ensures RisingFour(g, c, x, y) && x + 3 < 7 && y + 3 < 4
  {
    var m, j := GroupLine(g, RisingLines(), c);
    var (x0, y0) := RisingStart(m);
    x, y := x0 + j, y0 + j;
  }

  lemma FallingSound(g: Grid, c: Player) returns (x: nat, y: nat)
    requires c != NoPlayer && FirstWinner(g, FallingLines(), 0) == c
    ensures FallingFour(g, c, x, y) && x >= 4 && y + 3 < 4
  {
    var m, j := GroupLine(g, FallingLines(), c);
    var (x0, y0) := FallingStart(m);
    x, y := x0 - j, y0 + j;
  }

  /** `evaluate` names a player only when that player has a visible four. */
  lemma WinnerSound(g: Grid)
    ensures Winner(g) != NoPlayer ==> exists x: nat, y: nat :: VisibleFour(g, Winner(g), x, y)
  {
    var rows, columns := FirstWinner(g, Rows(), 0), FirstWinner(g, Columns(), 0);
    var rising, falling := FirstWinner(g, RisingLines(), 0), FirstWinner(g, FallingLines(), 0);
    WinnerGroups(g);
    if rows != NoPlayer {
      var x, y := RowsSound(g, rows);
      assert VisibleFour(g, rows, x, y);
    } else if columns != NoPlayer {
      var x, y := ColumnsSound(g, columns);
      assert VisibleFour(g, columns, x, y);
    } else if rising != NoPlayer {
      var x, y := RisingSound(g, rising);
      assert VisibleFour(g, rising, x, y);
    } else if falling != NoPlayer {
      var x, y := FallingSound(g, falling);
      assert VisibleFour(g, falling, x, y);
    }
  }

  lemma RowsComplete(g: Grid, c: Player, x: nat, y: nat)
    requires c != NoPlayer && HorizontalFour(g, c, x, y)
    ensures FirstWinner(g, Rows(), 0) != NoPlayer
  {
    assert FourAt(g, Rows()[y], x, c);
    LineWinnerComplete(g, Rows()[y], x, c);
    FirstWinnerComplete(g, Rows(), 0, y);
  }

  lemma ColumnsComplete(g: Grid, c: Player, x: nat, y: nat)
    requires c != NoPlayer && VerticalFour(g, c, x, y)
    ensures FirstWinner(g, Columns(), 0) != NoPlayer
  {
    assert FourAt(g, Columns()[x], y, c);
    LineWinnerComplete(g, Columns()[x], y, c);
    FirstWinnerComplete(g, Columns(), 0, x);
  }

  lemma RisingComplete(g: Grid, c: Player, x: nat, y: nat)
    requires c != NoPlayer && RisingFour(g, c, x, y) && x + 3 < 7 && y + 3 < 4
    ensures FirstWinner(g, RisingLines(), 0) != NoPlayer
  {
    assert FourAt(g, RisingLines()[x + 4], 0, c);
    LineWinnerComplete(g, RisingLines()[x + 4], 0, c);
    FirstWinnerComplete(g, RisingLines(), 0, x + 4);
  }

  lemma FallingComplete(g: Grid, c: Player, x: nat, y: nat)
    requires c != NoPlayer && FallingFour(g, c, x, y) && x >= 4 && y + 3 < 4
    ensures FirstWinner(g, FallingLines(), 0) != NoPlayer
  {
    assert FourAt(g, FallingLines()[11 - x], 0, c);
    LineWinnerComplete(g, FallingLines()[11 - x], 0, c);
    FirstWinnerComplete(g, FallingLines(), 0, 11 - x);
  }

  /** `evaluate` names a player whenever some player has a visible four. */
  lemma WinnerComplete(g: Grid, c: Player, x: nat, y: nat)
    requires c != NoPlayer && VisibleFour(g, c, x, y)
    ensures Winner(g) != NoPlayer
  {
    WinnerGroups(g);
    if HorizontalFour(g, c, x, y) {
      RowsComplete(g, c, x, y);
    } else if VerticalFour(g, c, x, y) {
      ColumnsComplete(g, c, x, y);
    } else if RisingFour(g, c, x, y) && x + 3 < 7 && y + 3 < 4 {
      RisingComplete(g, c, x, y);
    } else {
      FallingComplete(g, c, x, y);
    }
  }

  /** Nothing is reported on the empty board. */
  lemma EmptyGridNoWinner()
    ensures Winner(EmptyGrid) == NoPlayer
  {
    WinnerSound(EmptyGrid);
  }

  // ---------------------------------------------------------------------------
  // The diagonal scans stop one cell early
  // ---------------------------------------------------------------------------

  /** Black stones on (1, 1), (2, 2), (3, 3) and (4, 4), and nothing else. */
  const DiagonalGrid: Grid := seq(40, i => if i == 6 || i == 12 || i == 18 || i == 24 then Black else NoPlayer)

  lemma DiagonalGridHasNoVisibleFour()
    ensures forall c, x: nat, y: nat :: c != NoPlayer ==> !VisibleFour(DiagonalGrid, c, x, y)
  {
  }

  /** A diagonal four through row 4 goes unreported: `evaluate` answers None. */
  lemma DiagonalFourMissed()
    ensures RisingFour(DiagonalGrid, Black, 1, 1)
    ensures Winner(DiagonalGrid) == NoPlayer
  {
    WinnerSound(DiagonalGrid);
    DiagonalGridHasNoVisibleFour();
  }

  /** The cells of the up-right diagonal from (x0, y0), up to the edge of the board. */
  function FullRisingLine(x0: nat, y0: nat): Line
    requires x0 < 8 && y0 < 5
  {
    var n := Min(8 - x0, 5 - y0);
    seq<CellIndex>(n, i requires 0 <= i < n => Cell(x0 + i, y0 + i))
  }

  /** The cells of the up-left diagonal from (x0, y0), up to the edge of the board. */
  function FullFallingLine(x0: nat, y0: nat): Line
    requires x0 < 8 && y0 < 5
  {
    var n := Min(x0 + 1, 5 - y0);
    seq<CellIndex>(n, i requires 0 <= i < n => Cell(x0 - i, y0 + i))
  }

  function FullRisingLines(): seq<Line> {
    seq(12, k requires 0 <= k < 12 => FullRisingLine(RisingStart(k).0, RisingStart(k).1))
  }

  function FullFallingLines(): seq<Line> {
    seq(12, k requires 0 <= k < 12 => FullFallingLine(FallingStart(k).0, FallingStart(k).1))
  }

  /** `evaluate` with diagonal scans that read every cell of their diagonal. */
  function WinnerCorrected(g: Grid): Player {
    FirstWinner(g, Rows() + Columns() + FullRisingLines() + FullFallingLines(), 0)
  }

  lemma FullRisingSound(g: Grid, c: Player) returns (x: nat, y: nat)
    requires c != NoPlayer && FirstWinner(g, FullRisingLines(), 0) == c
    ensures RisingFour(g, c, x, y)
  {
    var m, j := GroupLine(g, FullRisingLines(), c);
    var (x0, y0) := RisingStart(m);
    x, y := x0 + j, y0 + j;
  }

  lemma FullFallingSound(g: Grid, c: Player) returns (x: nat, y: nat)
    requires c != NoPlayer && FirstWinner(g, FullFallingLines(), 0) == c
    ensures FallingFour(g, c, x, y)
  {
    var m, j := GroupLine(g, FullFallingLines(), c);
    var (x0, y0) := FallingStart(m);
    x, y := x0 - j, y0 + j;
  }

  /** The corrected scan names a player only when that player has four in a row. */
  lemma WinnerCorrectedSound(g: Grid)
    ensures WinnerCorrected(g) != NoPlayer ==> exists x: nat, y: nat :: AnyFour(g, WinnerCorrected(g), x, y)
  {
    var rows, columns := FirstWinner(g, Rows(), 0), FirstWinner(g, Columns(), 0);
    var rising, falling := FirstWinner(g, FullRisingLines(), 0), FirstWinner(g, FullFallingLines(), 0);
    FourGroups(g, Rows(), Columns(), FullRisingLines(), FullFallingLines());
    if rows != NoPlayer {
      var x, y := RowsSound(g, rows);
      assert AnyFour(g, rows, x, y);
    } else if columns != NoPlayer {
      var x, y := ColumnsSound(g, columns);
      assert AnyFour(g, columns, x, y);
    } else if rising != NoPlayer {
      var x, y := FullRisingSound(g, rising);
      assert AnyFour(g, rising, x, y);
    } else if falling != NoPlayer {
      var x, y := FullFallingSound(g, falling);
      assert AnyFour(g, falling, x, y);
    }
  }

  /** The diagonal of the corrected up-right scans that holds a rising four, and where. */
  lemma FullRisingComplete(g: Grid, c: Player, x: nat, y: nat)
    requires c != NoPlayer && RisingFour(g, c, x, y)
    ensures FirstWinner(g, FullRisingLines(), 0) != NoPlayer
  {
    var k, j := if y == 0 then x + 4 else if x == 0 then 3 else x + 3, if y == 0 || x == 0 then 0 else 1;
    assert FourAt(g, FullRisingLines()[k], j, c);
    LineWinnerComplete(g, FullRisingLines()[k], j, c);
    FirstWinnerComplete(g, FullRisingLines(), 0, k);
  }

  lemma FullFallingComplete(g: Grid, c: Player, x: nat, y: nat)
    requires c != NoPlayer && FallingFour(g, c, x, y)
    ensures FirstWinner(g, FullFallingLines(), 0) != NoPlayer
  {
    var k, j := if y == 0 then 11 - x else if x == 7 then 3 else 10 - x, if y == 0 || x == 7 then 0 else 1;
    assert FourAt(g, FullFallingLines()[k], j, c);
    LineWinnerComplete(g, FullFallingLines()[k], j, c);
    FirstWinnerComplete(g, FullFallingLines(), 0, k);
  }

  /** The corrected scan names a player whenever some player has four in a row. */
  lemma WinnerCorrectedComplete(g: Grid, c: Player, x: nat, y: nat)
    requires c != NoPlayer && AnyFour(g, c, x, y)
    ensures WinnerCorrected(g) != NoPlayer
  {
    FourGroups(g, Rows(), Columns(), FullRisingLines(), FullFallingLines());
    if HorizontalFour(g, c, x, y) {
      RowsComplete(g, c, x, y);
    } else if VerticalFour(g, c, x, y) {
      ColumnsComplete(g, c, x, y);
    } else if RisingFour(g, c, x, y) {
      FullRisingComplete(g, c, x, y);
    } else {
      FullFallingComplete(g, c, x, y);
    }
  }

  /** The corrected scan reports Black on the board the original misses. */
  lemma DiagonalFourFound()
    ensures WinnerCorrected(DiagonalGrid) == Black
  {
    WinnerCorrectedComplete(DiagonalGrid, Black, 1, 1);
    WinnerCorrectedSound(DiagonalGrid);
    var x: nat, y: nat :| AnyFour(DiagonalGrid, WinnerCorrected(DiagonalGrid), x, y);
    assert DiagonalGrid[Cell(x, y)] == WinnerCorrected(DiagonalGrid);
  }

  // ---------------------------------------------------------------------------
  // eval and get_legal_actions
  // ---------------------------------------------------------------------------

  /** `eval`: White scores (1, done), Black (-1, done), no winner (0, not done). */
  function EvalOf(winner: Player): Evaluation {
    match winner
    case Black => Evaluation(-1, true)
    case White => Evaluation(1, true)
    case NoPlayer => Evaluation(0, false)
  }

  /** The game is over exactly when a player has a visible four, and the score names that player. */
  lemma EvalReportsFour(g: Grid)
    ensures EvalOf(Winner(g)).done <==> exists c, x: nat, y: nat :: c != NoPlayer && VisibleFour(g, c, x, y)
    ensures EvalOf(Winner(g)).value == 1 ==> exists x: nat, y: nat :: VisibleFour(g, White, x, y)
    ensures EvalOf(Winner(g)).value == -1 ==> exists x: nat, y: nat :: VisibleFour(g, Black, x, y)
    ensures EvalOf(Winner(g)).value == 0 <==> !EvalOf(Winner(g)).done
  {
    WinnerSound(g);
    if exists c, x: nat, y: nat :: c != NoPlayer && VisibleFour(g, c, x, y) {
      var c, x: nat, y: nat :| c != NoPlayer && VisibleFour(g, c, x, y);
      WinnerComplete(g, c, x, y);
    }
  }

  /** Column x has room: its top cell (row 4) is empty. */
  predicate Open(g: Grid, x: nat)
    requires x < 8
  {
    g[Cell(x, 4)] == NoPlayer
  }

  /** The open columns below n, in ascending order. */
  function OpenColumns(g: Grid, n: nat): seq<nat>
    requires n <= 8
  {
    if n == 0 then [] else OpenColumns(g, n - 1) + (if Open(g, n - 1) then [n - 1] else [])
  }

  /** `get_legal_actions`: nothing once `evaluate` reports a winner, else the open columns. */
  function LegalColumns(g: Grid): seq<nat> {
    if Winner(g) != NoPlayer then [] else OpenColumns(g, 8)
  }

  lemma {:induction false} OpenColumnsMeaning(g: Grid, n: nat)
    requires n <= 8
    ensures forall x: nat :: x in OpenColumns(g, n) <==> x < n && Open(g, x)
    ensures forall i, j :: 0 <= i < j < |OpenColumns(g, n)| ==> OpenColumns(g, n)[i] < OpenColumns(g, n)[j]
  {
    if n > 0 {
      OpenColumnsMeaning(g, n - 1);
      var prefix := OpenColumns(g, n - 1);
      assert forall i :: 0 <= i < |prefix| ==> prefix[i] in prefix;
    }
  }

  /**
   * The legal actions are the open columns, in strictly ascending order,
   * while no player has a visible four, and none afterwards.
   */
  lemma LegalColumnsMeaning(g: Grid)
    ensures forall x: nat :: x in LegalColumns(g) <==> Winner(g) == NoPlayer && x < 8 && Open(g, x)
    ensures forall i, j :: 0 <= i < j < |LegalColumns(g)| ==> LegalColumns(g)[i] < LegalColumns(g)[j]
  {
    OpenColumnsMeaning(g, 8);
  }

  // ---------------------------------------------------------------------------
  // step and undo
  // ---------------------------------------------------------------------------

  /** `position(|&r| r == Player::None)` in column x from row y: the lowest empty row. */
  function LowestEmpty(g: Grid, x: nat, y: nat): (r: Option<nat>)
    requires x < 8 && y <= 5
    ensures r.Some? ==> y <= r.value < 5 && g[Cell(x, r.value)] == NoPlayer
    ensures r.Some? ==> forall k :: y <= k < r.value ==> g[Cell(x, k)] != NoPlayer
    ensures r.None? ==> forall k :: y <= k < 5 ==> g[Cell(x, k)] != NoPlayer
    decreases g, 5 - y
  {
    if y == 5 then None
    else if g[Cell(x, y)] == NoPlayer then Some(y)
    else LowestEmpty(g, x, y + 1)
  }

  /** This file's `Player::swap`: Black and White trade places and `Player::None` panics. */
  function SwapChecked(p: Player): (r: Outcome<Player>)
    ensures r.Panicked? <==> p == NoPlayer
    ensures r.Value? ==> r.value == Swap(p) && r.value != NoPlayer
  {
    match p
    case White => Value(Black)
    case Black => Value(White)
    case NoPlayer => Panicked
  }

  /**
   * `step(x)`: the stone of the player to move goes into the lowest empty
   * cell of column x, the player swaps and (x, y) is pushed.  A column past
   * the board, a full column and `Player::None` panic.
   */
  function StepSpec(s: Connect4State, x: nat): Outcome<Connect4State> {
    if x >= 8 then Panicked
    else
      match LowestEmpty(s.grid, x, 0)
      case None => Panicked
      case Some(y) =>
        match SwapChecked(s.player)
        case Panicked => Panicked
        case Value(next) => Value(Connect4State(next, s.grid[Cell(x, y) := s.player], s.history + [Drop(x, y)]))
  }

  /**
   * `undo`: pops (x, y), empties that cell and swaps the player back.  An
   * empty history, a cell off the board and `Player::None` panic.
   */
  function UndoSpec(s: Connect4State): Outcome<Connect4State> {
    if s.history == [] then Panicked
    else
      var d := s.history[|s.history| - 1];
      if d.x >= 8 || d.y >= 5 then Panicked
      else
        match SwapChecked(s.player)
        case Panicked => Panicked
        case Value(p) => Value(Connect4State(p, s.grid[Cell(d.x, d.y) := NoPlayer], s.history[..|s.history| - 1]))
  }

  /** Every cell of column x holds a stone. */
  predicate Full(g: Grid, x: nat)
    requires x < 8
  {
    forall y :: 0 <= y < 5 ==> g[Cell(x, y)] != NoPlayer
  }

  /**
   * `step` panics exactly on a column past the board, a full column or
   * `Player::None`; otherwise it fills the lowest empty cell of the column
   * with the stone of the player to move and changes nothing else.
   */
  lemma StepDrops(s: Connect4State, x: nat)
    ensures StepSpec(s, x).Panicked? <==> x >= 8 || Full(s.grid, x) || s.player == NoPlayer
    ensures StepSpec(s, x).Value? ==> exists y :: y < 5 && DroppedAt(s, x, y, StepSpec(s, x).value)
  {
    if x < 8 {
      var r := LowestEmpty(s.grid, x, 0);
      if r.Some? && s.player != NoPlayer {
        assert DroppedAt(s, x, r.value, StepSpec(s, x).value);
      }
    }
  }

  /** t is s with a stone of the player to move dropped on (x, y), the lowest empty cell of column x. */
  predicate DroppedAt(s: Connect4State, x: nat, y: nat, t: Connect4State)
    requires x < 8 && y < 5
  {
    && s.grid[Cell(x, y)] == NoPlayer
    && (forall k :: 0 <= k < y ==> s.grid[Cell(x, k)] != NoPlayer)
    && t.grid == s.grid[Cell(x, y) := s.player]
    && t.player == Swap(s.player)
    && t.history == s.history + [Drop(x, y)]
  }

  /** `undo` after `step` gives back board, player and history. */
  lemma UndoStep(s: Connect4State, x: nat)
    requires StepSpec(s, x).Value?
    ensures UndoSpec(StepSpec(s, x).value) == Value(s)
  {
    var t := StepSpec(s, x).value;
    var y := LowestEmpty(s.grid, x, 0).value;
    assert t.history[..|t.history| - 1] == s.history;
    assert t.grid[Cell(x, y) := NoPlayer] == s.grid;
    SwapInvolution(s.player);
  }

  /** Stones rest on stones: no occupied cell above an empty one. */
  predicate Stacked(g: Grid) {
    forall x, y :: 0 <= x < 8 && 0 < y < 5 && g[Cell(x, y)] != NoPlayer ==> g[Cell(x, y - 1)] != NoPlayer
  }

  /** `step` keeps the stones stacked. */
  lemma StepKeepsStacked(s: Connect4State, x: nat)
    requires Stacked(s.grid) && StepSpec(s, x).Value?
    ensures Stacked(StepSpec(s, x).value.grid)
  {
    var y := LowestEmpty(s.grid, x, 0).value;
    var g := StepSpec(s, x).value.grid;
    forall x', y' | 0 <= x' < 8 && 0 < y' < 5 && g[Cell(x', y')] != NoPlayer
      ensures g[Cell(x', y' - 1)] != NoPlayer
    {
      if x' == x && y' == y {
        assert s.grid[Cell(x, y - 1)] != NoPlayer;
      }
    }
  }

  /** A legal column can be stepped into. */
  lemma LegalColumnSteps(s: Connect4State, x: nat)
    requires x in LegalColumns(s.grid) && s.player != NoPlayer
    ensures StepSpec(s, x).Value?
  {
    LegalColumnsMeaning(s.grid);
    StepDrops(s, x);
  }

  // ---------------------------------------------------------------------------
  // Connect four as a `TwoPlayerGame`
  // ---------------------------------------------------------------------------

  /** The `TwoPlayerGame` implementation of `Connect4`. */
  function Connect4Game(): Game<Connect4State> {
    Game((s: Connect4State) => s.player, (s: Connect4State) => EvalOf(Winner(s.grid)),
      (s: Connect4State) => LegalColumns(s.grid), (s: Connect4State, x: nat) => StepSpec(s, x))
  }

  /** A state a `Connect4` can be in: a player to move and a history of cells on the board. */
  predicate ValidState(s: Connect4State) {
    s.player != NoPlayer && forall d :: d in s.history ==> d.x < 8 && d.y < 5
  }

  /** Valid states are closed under the legal actions of connect four. */
  lemma Connect4Closed()
    ensures Closed(Connect4Game(), ValidState)
  {
    var g := Connect4Game();
    forall s | ValidState(s)
      ensures MinScore <= g.eval(s).value <= -MinScore
      ensures forall a :: a in g.legalActions(s) ==> g.step(s, a).Value? && ValidState(g.step(s, a).value)
    {
      forall a | a in LegalColumns(s.grid)
        ensures StepSpec(s, a).Value? && ValidState(StepSpec(s, a).value)
      {
        LegalColumnSteps(s, a);
        NextValid(s, a);
      }
    }
  }

  /** `step` from a valid state leads to a valid state. */
  lemma NextValid(s: Connect4State, x: nat)
    requires ValidState(s) && StepSpec(s, x).Value?
    ensures ValidState(StepSpec(s, x).value)
  {
  }

  /**
   * A full board without a winner is not scored as a draw: there is no legal
   * action, so `negamax` returns (`f32::MIN`, None), the worst score for the
   * player to move.
   */
  lemma FullBoardScoresMin(s: Connect4State, depth: nat)
    requires 0 < depth && Winner(s.grid) == NoPlayer
    requires forall x :: 0 <= x < 8 ==> !Open(s.grid, x)
    ensures Negamax(Connect4Game(), s, depth) == Value(Scored(MinScore, None))
  {
    LegalColumnsMeaning(s.grid);
    if LegalColumns(s.grid) != [] {
      assert LegalColumns(s.grid)[0] in LegalColumns(s.grid);
    }
  }

  /**
   * Alpha-beta called with a window wider than every score, as (-inf, +inf)
   * is, returns the negamax value.
   */
  lemma AlphaBetaFullWindow(s: Connect4State, depth: nat)
    requires ValidState(s)
    ensures Negamax(Connect4Game(), s, depth).Value? && AlphaBeta(Connect4Game(), s, depth, MinScore - 1, -MinScore + 1).Value?
    ensures AlphaBeta(Connect4Game(), s, depth, MinScore - 1, -MinScore + 1).value.value
         == Negamax(Connect4Game(), s, depth).value.value
  {
    Connect4Closed();
    NegamaxNeverPanics(Connect4Game(), ValidState, s, depth);
    AlphaBetaExact(Connect4Game(), s, depth, MinScore - 1, -MinScore + 1);
  }
}
