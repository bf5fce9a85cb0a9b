/**
 * The `Connect4` game of ARCHIVE/connect4.rs as a class whose methods
 * update its fields in place: the player to move, the 8 x 5 board and the
 * history of dropped stones.  Every method is proved against the state
 * functions of Connect4Rules.
 */
module Connect4 {
  import opened Players
  import opened Outcomes
  import opened MinMax
  import opened Connect4Rules

  class Connect4 {
    var currentPlayer: Player
    /** The board, held by value as in the struct: cell (x, y) at index `Cell(x, y)`. */
    var board: Grid
    var history: seq<Drop>

    /** The fields as a state value. */
    function State(): Connect4State
      reads this
    {
      Connect4State(currentPlayer, board, history)
    }

    /** `Connect4::default`. */
    constructor ()
      ensures State() == Initial
    {
      currentPlayer := White;
      board := EmptyGrid;
      history := [];
    }

    /** `evaluate`: the first four-in-a-row the four scans meet. */
    method Evaluate() returns (p: Player)
      ensures p == Winner(board)
    {
      WinnerGroups(board);
      p := CheckRows();
      if p != NoPlayer {
        return;
      }
      p := CheckColumns();
      if p != NoPlayer {
        return;
      }
      p := CheckRising();
      if p != NoPlayer {
        return;
      }
      p := CheckFalling();
    }

    /** The horizontal check of `evaluate`: each row, left to right. */
    method CheckRows() returns (p: Player)
      ensures p == FirstWinner(board, Rows(), 0)
    {
      ghost var g := board;
      var y := 0;
      while y < 5
        invariant y <= 5
        invariant FirstWinner(g, Rows(), 0) == FirstWinner(g, Rows(), y)
      {
        var black, white := 0, 0;
        var x := 0;
        while x < 8
          invariant x <= 8
          invariant LineWinner(g, Rows()[y]) == Scan(g, Rows()[y], x, black, white)
        {
          match board[Cell(x, y)] {
            case Black => black, white := black + 1, 0;
            case White => black, white := 0, white + 1;
            case NoPlayer => black, white := 0, 0;
          }
          if black >= 4 {
            return Black;
          } else if white >= 4 {
            return White;
          }
          x := x + 1;
        }
        y := y + 1;
      }
      return NoPlayer;
    }

    /** The vertical check of `evaluate`: each column, bottom to top. */
    method CheckColumns() returns (p: Player)
      ensures p == FirstWinner(board, Columns(), 0)
    {
      ghost var g := board;
      var x := 0;
      while x < 8
        invariant x <= 8
        invariant FirstWinner(g, Columns(), 0) == FirstWinner(g, Columns(), x)
      {
        var black, white := 0, 0;
        var y := 0;
        while y < 5
          invariant y <= 5
          invariant LineWinner(g, Columns()[x]) == Scan(g, Columns()[x], y, black, white)
        {
          match board[Cell(x, y)] {
            case Black => black, white := black + 1, 0;
            case White => black, white := 0, white + 1;
            case NoPlayer => black, white := 0, 0;
          }
          if black >= 4 {
            return Black;
          } else if white >= 4 {
            return White;
          }
          y := y + 1;
        }
        x := x + 1;
      }
      return NoPlayer;
    }

    /** The "u-r" check of `evaluate`: up-right from each start, while the next cell is on the board. */
    method CheckRising() returns (p: Player)
      ensures p == FirstWinner(board, RisingLines(), 0)
    {
      var k := 0;
      while k < 12
        invariant k <= 12
        invariant FirstWinner(board, RisingLines(), 0) == FirstWinner(board, RisingLines(), k)
      {
        p := ScanRising(k);
        if p != NoPlayer {
          return;
        }
        k := k + 1;
      }
      return NoPlayer;
    }

    /** One up-right scan of `evaluate`, from the k-th start. */
    method ScanRising(k: nat) returns (p: Player)
      requires k < 12
      ensures p == LineWinner(board, RisingLines()[k])
    {
      var (x0, y0) := RisingStart(k);
      ghost var line := RisingLines()[k];
      RisingLineCells(k);
      var black, white := 0, 0;
      var xd, yd := x0, y0;
      while xd + 1 < 8 && yd + 1 < 5
        invariant x0 <= xd < 8 && yd - y0 == xd - x0 && yd < 5
        invariant xd - x0 <= |line|
        invariant LineWinner(board, line) == Scan(board, line, xd - x0, black, white)
        decreases 8 - xd
      {
        assert line[xd - x0] == Cell(xd, yd);
        match board[Cell(xd, yd)] {
          case Black => black, white := black + 1, 0;
          case White => black, white := 0, white + 1;
          case NoPlayer => black, white := 0, 0;
        }
        if black >= 4 {
          return Black;
        } else if white >= 4 {
          return White;
        }
        xd, yd := xd + 1, yd + 1;
      }
      return NoPlayer;
    }

    /** The "u-l" check of `evaluate`: up-left from each start, while the next cell is on the board. */
    method CheckFalling() returns (p: Player)
      ensures p == FirstWinner(board, FallingLines(), 0)
    {
      var k := 0;
      while k < 12
        invariant k <= 12
        invariant FirstWinner(board, FallingLines(), 0) == FirstWinner(board, FallingLines(), k)
      {
        p := ScanFalling(k);
        if p != NoPlayer {
          return;
        }
        k := k + 1;
      }
      return NoPlayer;
    }

    /** One up-left scan of `evaluate`, from the k-th start. */
    method ScanFalling(k: nat) returns (p: Player)
      requires k < 12
      ensures p == LineWinner(board, FallingLines()[k])
    {
      var (x0, y0) := FallingStart(k);
      ghost var line := FallingLines()[k];
      FallingLineCells(k);
      var black, white := 0, 0;
      var xd: int, yd: int := x0, y0;
      while 0 <= xd - 1 && yd + 1 < 5
        invariant 0 <= xd <= x0 && yd - y0 == x0 - xd && yd < 5
        invariant x0 - xd <= |line|
        invariant LineWinner(board, line) == Scan(board, line, x0 - xd, black, white)
        decreases xd
      {
        assert line[x0 - xd] == Cell(xd, yd);
        match board[Cell(xd, yd)] {
          case Black => black, white := black + 1, 0;
          case White => black, white := 0, white + 1;
          case NoPlayer => black, white := 0, 0;
        }
        if black >= 4 {
          return Black;
        } else if white >= 4 {
          return White;
        }
        xd, yd := xd - 1, yd + 1;
      }
      return NoPlayer;
    }

    /** `eval`: the score of the winner and whether the game is over. */
    method Eval() returns (e: Evaluation)
      ensures e == EvalOf(Winner(board))
    {
      var p := Evaluate();
      match p
      case Black => e := Evaluation(-1, true);
      case White => e := Evaluation(1, true);
      case NoPlayer => e := Evaluation(0, false);
    }

    /** `get_legal_actions`: nothing once `evaluate` names a winner, else the open columns. */
    method LegalActions() returns (actions: seq<nat>)
      ensures actions == LegalColumns(board)
    {
      var p := Evaluate();
      if p != NoPlayer {
        return [];
      }
      actions := OpenActions();
    }

    /** The mask of the columns whose top cell is empty, then the columns it marks, in order. */
    method OpenActions() returns (actions: seq<nat>)
      ensures actions == OpenColumns(board, 8)
    {
      ghost var g := board;
      var mask := new bool[8](i => false);
      var x := 0;
      while x < 8
        invariant x <= 8
        invariant forall c :: 0 <= c < x ==> mask[c] == Open(g, c)
      {
        mask[x] := board[Cell(x, 4)] == NoPlayer;
        x := x + 1;
      }
      actions := [];
      x := 0;
      while x < 8
        invariant x <= 8
        invariant actions == OpenColumns(g, x)
      {
        if mask[x] {
          actions := actions + [x];
        }
        x := x + 1;
      }
    }

    /**
     * `step(x)`: drops the stone of the player to move into the lowest empty
     * cell of column x, swaps the player and pushes the cell.
     */
    method Step(x: nat)
      requires StepSpec(State(), x).Value?
      modifies this
      ensures State() == StepSpec(old(State()), x).value
    {
      var y := 0;
      while board[Cell(x, y)] != NoPlayer
        invariant y < 5
        invariant LowestEmpty(board, x, 0) == LowestEmpty(board, x, y)
        decreases 5 - y
      {
        y := y + 1;
      }
      board := board[Cell(x, y) := currentPlayer];
      currentPlayer := Swap(currentPlayer);
      history := history + [Drop(x, y)];
    }

    /** `undo`: pops the last cell, empties it and swaps the player back. */
    method Undo()
      requires UndoSpec(State()).Value?
      modifies this
      ensures State() == UndoSpec(old(State())).value
    {
      var d := history[|history| - 1];
      history := history[..|history| - 1];
      board := board[Cell(d.x, d.y) := NoPlayer];
      currentPlayer := Swap(currentPlayer);
    }
  }
}
