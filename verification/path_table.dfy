/**
 * LOOKUP_PATH_WITHOUT_END of src/compile_time_constants.rs: for two squares
 * on a common rank, file or diagonal, the squares from the first one up to,
 * and not including, the second one.
 *
 * For every `from` square the generator walks eight arms outwards.  An arm
 * moves `to` by a fixed step on the square index (down for the arms marked
 * `Sub`, up for the others) as many times as the board has room in that
 * direction, and at each step stores the path grown so far before adding
 * `to` to it.  The table is a 64 x 64 array of values; the model keeps it as
 * a sequence of rows, one per `from` square, and an arm only writes the row
 * of its own `from` square.
 */
module PathTable {
  import opened Bitboards
  import opened Geometry
  import opened AttackTables

  /** The eight arms, in the order the generator walks them. */
  datatype Arm = Right | RightDown | Down | LeftDown | Left | LeftUp | Up | RightUp

  /** Whether the arm walks down the square indices (`to_sq -= step`). */
  predicate Sub(a: Arm) {
    match a
    case RightDown | Down | LeftDown | Left => true
    case _ => false
  }

  /** The distance in square indices of one step along the arm. */
  function StepLen(a: Arm): bv8 {
    match a
    case Right | Left => 1
    case RightDown | LeftUp => 7
    case Down | Up => 8
    case LeftDown | RightUp => 9
  }

  /** One step along the arm on square indices. */
  function Next(a: Arm, s: Square): bv8 {
    if Sub(a) then s - StepLen(a) else s + StepLen(a)
  }

  /** The first `rem` steps from `s` stay on the board. */
  predicate Fits(a: Arm, s: Square, rem: bv8)
    decreases rem
  {
    rem == 0 || (Next(a, s) < 64 && Fits(a, Next(a, s) as Square, rem - 1))
  }

  /** The squares an arm reaches from `s` in `rem` steps, in order. */
  function ArmTargets(a: Arm, s: Square, rem: bv8): seq<Target>
    requires Fits(a, s, rem)
    decreases rem
  {
    if rem == 0 then [] else [Target(Next(a, s) as Square)] + ArmTargets(a, Next(a, s) as Square, rem - 1)
  }

  // ---------------------------------------------------------------------------
  // The arm loop
  // ---------------------------------------------------------------------------

  /**
   * The writes of an arm loop into the row of its `from` square: each reached
   * square gets the current path, and is then added to the path.
   */
  function WritesAlong(row: seq<Bitboard>, path: Bitboard, w: seq<Target>): (row': seq<Bitboard>)
    requires |row| == 64
    ensures |row'| == 64
    decreases |w|
  {
    if w == [] then row
    else if w[0].Target? then WritesAlong(row[w[0].sq := path], AddTarget(path, w[0]), w[1..])
    else WritesAlong(row, path, w[1..])
  }

  /** One round of the arm loop, on the state of the loop. */
  lemma WritesStep(row: seq<Bitboard>, path: Bitboard, a: Arm, s: Square, rem: bv8, n: Square)
    requires |row| == 64 && Fits(a, s, rem) && rem > 0 && Next(a, s) == n
    ensures Fits(a, n, rem - 1)
    ensures WritesAlong(row, path, ArmTargets(a, s, rem))
      == WritesAlong(row[n := path], path | Bit(n), ArmTargets(a, n, rem - 1))
  {
    var w := ArmTargets(a, s, rem);
    assert w[1..] == ArmTargets(a, n, rem - 1);
  }

  /**
   * The `arm_loop!` macro: walk `count` steps along the arm from `from`,
   * storing at each reached square the path from `from` to just before it.
   */
  method ArmLoop(row: seq<Bitboard>, from: Square, a: Arm, count: bv8) returns (row': seq<Bitboard>)
    requires |row| == 64 && Fits(a, from, count)
    ensures row' == WritesAlong(row, Bit(from), ArmTargets(a, from, count))
  {
    row' := row;
    var path: Bitboard := Bit(from);
    var to: Square := from;
    var remaining := count;
    while remaining > 0
      invariant |row'| == 64 && Fits(a, to, remaining)
      invariant WritesAlong(row', path, ArmTargets(a, to, remaining)) == WritesAlong(row, Bit(from), ArmTargets(a, from, count))
      decreases remaining
    {
      var next := Next(a, to) as Square;
      WritesStep(row', path, a, to, remaining, next);
      to := next;
      row' := row'[to := path];
      path := path | Bit(to);
      remaining := remaining - 1;
    }
  }

  // ---------------------------------------------------------------------------
  // What the writes leave in the row
  // ---------------------------------------------------------------------------

  /** No square is listed twice. */
  predicate Distinct(w: seq<Target>)
    decreases |w|
  {
    w == [] || (w[0] !in w[1..] && Distinct(w[1..]))
  }

  /** The path the loop holds when it reaches `j`. */
  function PathAlong(path: Bitboard, w: seq<Target>, j: Target): Bitboard
    decreases |w|
  {
    if w == [] || w[0] == j then path else PathAlong(AddTarget(path, w[0]), w[1..], j)
  }

  /** The targets listed before `j`. */
  function Prefix(w: seq<Target>, j: Target): seq<Target>
    decreases |w|
  {
    if w == [] || w[0] == j then [] else [w[0]] + Prefix(w[1..], j)
  }

  lemma RowUpdate(row: seq<Bitboard>, s: Square, p: Bitboard, j: Square)
    requires |row| == 64
    ensures row[s := p][j] == if j == s then p else row[j]
  {
  }

  lemma InTail(w: seq<Target>, j: Target)
    requires w != []
    ensures j in w <==> w[0] == j || j in w[1..]
  {
    assert w == [w[0]] + w[1..];
  }

  /** A reached square holds the path at that point; the rest of the row is unchanged. */
  lemma {:induction false} WritesAlongAt(row: seq<Bitboard>, path: Bitboard, w: seq<Target>, j: Square)
    requires |row| == 64 && Distinct(w)
    ensures WritesAlong(row, path, w)[j] == if Target(j) in w then PathAlong(path, w, Target(j)) else row[j]
    decreases |w|
  {
    if w != [] {
      InTail(w, Target(j));
      if w[0].Target? {
        RowUpdate(row, w[0].sq, path, j);
        WritesAlongAt(row[w[0].sq := path], AddTarget(path, w[0]), w[1..], j);
      } else {
        WritesAlongAt(row, path, w[1..], j);
      }
    }
  }

  /** The path at a square is the starting path with every target listed before it added. */
  lemma {:induction false} PathAlongPrefix(path: Bitboard, w: seq<Target>, j: Target)
    ensures PathAlong(path, w, j) == AddTargets(path, Prefix(w, j))
    decreases |w|
  {
    if w != [] && w[0] != j {
      PathAlongPrefix(AddTarget(path, w[0]), w[1..], j);
      var p := Prefix(w, j);
      assert p[0] == w[0] && p[1..] == Prefix(w[1..], j);
    }
  }

  // ---------------------------------------------------------------------------
  // The arms on the board
  // ---------------------------------------------------------------------------

  /** `min` of the generator. */
  function Min(a: bv8, b: bv8): bv8 {
    if a > b then b else a
  }

  /** The number of steps the generator takes along the arm from file `x`, rank `y`. */
  function Reach(a: Arm, x: bv8, y: bv8): bv8
    requires x < 8 && y < 8
  {
    match a
    case Right => 7 - x
    case RightDown => Min(7 - x, y)
    case Down => y
    case LeftDown => Min(x, y)
    case Left => x
    case LeftUp => Min(x, 7 - y)
    case Up => 7 - y
    case RightUp => Min(7 - x, 7 - y)
  }

  /** The file one step along the arm. */
  function MoveX(a: Arm, x: bv8): bv8 {
    match a
    case Right | RightDown | RightUp => x + 1
    case Left | LeftDown | LeftUp => x - 1
    case Down | Up => x
  }

  /** The rank one step along the arm. */
  function MoveY(a: Arm, y: bv8): bv8 {
    match a
    case Up | LeftUp | RightUp => y + 1
    case Down | LeftDown | RightDown => y - 1
    case Left | Right => y
  }

  /** Square (tx, ty) lies on the arm from (x, y), the start excluded. */
  predicate OnArm(a: Arm, x: bv8, y: bv8, tx: bv8, ty: bv8) {
    match a
    case Right => ty == y && x < tx
    case Left => ty == y && tx < x
    case Up => tx == x && y < ty
    case Down => tx == x && ty < y
    case RightUp => x < tx && y < ty && tx - x == ty - y
    case RightDown => x < tx && ty < y && tx - x == y - ty
    case LeftDown => tx < x && ty < y && x - tx == y - ty
    case LeftUp => tx < x && y < ty && x - tx == ty - y
  }

  /** A step on the square index is a step on the board, and leaves one step less. */
  lemma NextMove(a: Arm, x: bv8, y: bv8, s: Square)
    requires x < 8 && y < 8 && s == SquareOf(x, y) && Reach(a, x, y) > 0
    ensures MoveX(a, x) < 8 && MoveY(a, y) < 8
    ensures Next(a, s) == SquareOf(MoveX(a, x), MoveY(a, y))
    ensures Reach(a, MoveX(a, x), MoveY(a, y)) == Reach(a, x, y) - 1
  {
    match a
    case Right => NextMoveRight(a, x, y, s);
    case RightDown => NextMoveRightDown(a, x, y, s);
    case Down => NextMoveDown(a, x, y, s);
    case LeftDown => NextMoveLeftDown(a, x, y, s);
    case Left => NextMoveLeft(a, x, y, s);
    case LeftUp => NextMoveLeftUp(a, x, y, s);
    case Up => NextMoveUp(a, x, y, s);
    case RightUp => NextMoveRightUp(a, x, y, s);
  }

  lemma NextMoveRight(a: Arm, x: bv8, y: bv8, s: Square)
    requires a == Right && x < 8 && y < 8 && s == SquareOf(x, y) && Reach(a, x, y) > 0
    ensures MoveX(a, x) < 8 && MoveY(a, y) < 8
    ensures Next(a, s) == SquareOf(MoveX(a, x), MoveY(a, y))
    ensures Reach(a, MoveX(a, x), MoveY(a, y)) == Reach(a, x, y) - 1
  {
  }

  lemma NextMoveRightDown(a: Arm, x: bv8, y: bv8, s: Square)
    requires a == RightDown && x < 8 && y < 8 && s == SquareOf(x, y) && Reach(a, x, y) > 0
    ensures MoveX(a, x) < 8 && MoveY(a, y) < 8
    ensures Next(a, s) == SquareOf(MoveX(a, x), MoveY(a, y))
    ensures Reach(a, MoveX(a, x), MoveY(a, y)) == Reach(a, x, y) - 1
  {
  }

  lemma NextMoveDown(a: Arm, x: bv8, y: bv8, s: Square)
    requires a == Down && x < 8 && y < 8 && s == SquareOf(x, y) && Reach(a, x, y) > 0
    ensures MoveX(a, x) < 8 && MoveY(a, y) < 8
    ensures Next(a, s) == SquareOf(MoveX(a, x), MoveY(a, y))
    ensures Reach(a, MoveX(a, x), MoveY(a, y)) == Reach(a, x, y) - 1
  {
  }

  lemma NextMoveLeftDown(a: Arm, x: bv8, y: bv8, s: Square)
    requires a == LeftDown && x < 8 && y < 8 && s == SquareOf(x, y) && Reach(a, x, y) > 0
    ensures MoveX(a, x) < 8 && MoveY(a, y) < 8
    ensures Next(a, s) == SquareOf(MoveX(a, x), MoveY(a, y))
    ensures Reach(a, MoveX(a, x), MoveY(a, y)) == Reach(a, x, y) - 1
  {
  }

  lemma NextMoveLeft(a: Arm, x: bv8, y: bv8, s: Square)
    requires a == Left && x < 8 && y < 8 && s == SquareOf(x, y) && Reach(a, x, y) > 0
    ensures MoveX(a, x) < 8 && MoveY(a, y) < 8
    ensures Next(a, s) == SquareOf(MoveX(a, x), MoveY(a, y))
    ensures Reach(a, MoveX(a, x), MoveY(a, y)) == Reach(a, x, y) - 1
  {
  }

  lemma NextMoveLeftUp(a: Arm, x: bv8, y: bv8, s: Square)
    requires a == LeftUp && x < 8 && y < 8 && s == SquareOf(x, y) && Reach(a, x, y) > 0
    ensures MoveX(a, x) < 8 && MoveY(a, y) < 8
    ensures Next(a, s) == SquareOf(MoveX(a, x), MoveY(a, y))
    ensures Reach(a, MoveX(a, x), MoveY(a, y)) == Reach(a, x, y) - 1
  {
  }

  lemma NextMoveUp(a: Arm, x: bv8, y: bv8, s: Square)
    requires a == Up && x < 8 && y < 8 && s == SquareOf(x, y) && Reach(a, x, y) > 0
    ensures MoveX(a, x) < 8 && MoveY(a, y) < 8
    ensures Next(a, s) == SquareOf(MoveX(a, x), MoveY(a, y))
    ensures Reach(a, MoveX(a, x), MoveY(a, y)) == Reach(a, x, y) - 1
  {
  }

  lemma NextMoveRightUp(a: Arm, x: bv8, y: bv8, s: Square)
    requires a == RightUp && x < 8 && y < 8 && s == SquareOf(x, y) && Reach(a, x, y) > 0
    ensures MoveX(a, x) < 8 && MoveY(a, y) < 8
    ensures Next(a, s) == SquareOf(MoveX(a, x), MoveY(a, y))
    ensures Reach(a, MoveX(a, x), MoveY(a, y)) == Reach(a, x, y) - 1
  {
  }

  /** Past its first square, an arm continues as the arm from that square. */
  lemma ArmStep(a: Arm, x: bv8, y: bv8, tx: bv8, ty: bv8)
    requires x < 8 && y < 8 && tx < 8 && ty < 8
    ensures Reach(a, x, y) == 0 ==> !OnArm(a, x, y, tx, ty)
    ensures Reach(a, x, y) > 0 ==>
      (OnArm(a, x, y, tx, ty) <==>
        (tx == MoveX(a, x) && ty == MoveY(a, y)) || OnArm(a, MoveX(a, x), MoveY(a, y), tx, ty))
  {
    match a
    case Right => ArmStepRight(x, y, tx, ty);
    case RightDown => ArmStepRightDown(x, y, tx, ty);
    case Down => ArmStepDown(x, y, tx, ty);
    case LeftDown => ArmStepLeftDown(x, y, tx, ty);
    case Left => ArmStepLeft(x, y, tx, ty);
    case LeftUp => ArmStepLeftUp(x, y, tx, ty);
    case Up => ArmStepUp(x, y, tx, ty);
    case RightUp => ArmStepRightUp(x, y, tx, ty);
  }

  lemma ArmStepRight(x: bv8, y: bv8, tx: bv8, ty: bv8)
    requires x < 8 && y < 8 && tx < 8 && ty < 8
    ensures Reach(Right, x, y) == 0 ==> !OnArm(Right, x, y, tx, ty)
    ensures Reach(Right, x, y) > 0 ==>
      (OnArm(Right, x, y, tx, ty) <==>
        (tx == MoveX(Right, x) && ty == MoveY(Right, y)) || OnArm(Right, MoveX(Right, x), MoveY(Right, y), tx, ty))
  {
  }

  lemma ArmStepRightDown(x: bv8, y: bv8, tx: bv8, ty: bv8)
    requires x < 8 && y < 8 && tx < 8 && ty < 8
    ensures Reach(RightDown, x, y) == 0 ==> !OnArm(RightDown, x, y, tx, ty)
    ensures Reach(RightDown, x, y) > 0 ==>
      (OnArm(RightDown, x, y, tx, ty) <==>
        (tx == MoveX(RightDown, x) && ty == MoveY(RightDown, y)) || OnArm(RightDown, MoveX(RightDown, x), MoveY(RightDown, y), tx, ty))
  {
  }

  lemma ArmStepDown(x: bv8, y: bv8, tx: bv8, ty: bv8)
    requires x < 8 && y < 8 && tx < 8 && ty < 8
    ensures Reach(Down, x, y) == 0 ==> !OnArm(Down, x, y, tx, ty)
    ensures Reach(Down, x, y) > 0 ==>
      (OnArm(Down, x, y, tx, ty) <==>
        (tx == MoveX(Down, x) && ty == MoveY(Down, y)) || OnArm(Down, MoveX(Down, x), MoveY(Down, y), tx, ty))
  {
  }

  lemma ArmStepLeftDown(x: bv8, y: bv8, tx: bv8, ty: bv8)
    requires x < 8 && y < 8 && tx < 8 && ty < 8
    ensures Reach(LeftDown, x, y) == 0 ==> !OnArm(LeftDown, x, y, tx, ty)
    ensures Reach(LeftDown, x, y) > 0 ==>
      (OnArm(LeftDown, x, y, tx, ty) <==>
        (tx == MoveX(LeftDown, x) && ty == MoveY(LeftDown, y)) || OnArm(LeftDown, MoveX(LeftDown, x), MoveY(LeftDown, y), tx, ty))
  {
  }

  lemma ArmStepLeft(x: bv8, y: bv8, tx: bv8, ty: bv8)
    requires x < 8 && y < 8 && tx < 8 && ty < 8
    ensures Reach(Left, x, y) == 0 ==> !OnArm(Left, x, y, tx, ty)
    ensures Reach(Left, x, y) > 0 ==>
      (OnArm(Left, x, y, tx, ty) <==>
        (tx == MoveX(Left, x) && ty == MoveY(Left, y)) || OnArm(Left, MoveX(Left, x), MoveY(Left, y), tx, ty))
  {
  }

  lemma ArmStepLeftUp(x: bv8, y: bv8, tx: bv8, ty: bv8)
    requires x < 8 && y < 8 && tx < 8 && ty < 8
    ensures Reach(LeftUp, x, y) == 0 ==> !OnArm(LeftUp, x, y, tx, ty)
    ensures Reach(LeftUp, x, y) > 0 ==>
      (OnArm(LeftUp, x, y, tx, ty) <==>
        (tx == MoveX(LeftUp, x) && ty == MoveY(LeftUp, y)) || OnArm(LeftUp, MoveX(LeftUp, x), MoveY(LeftUp, y), tx, ty))
  {
  }

  lemma ArmStepUp(x: bv8, y: bv8, tx: bv8, ty: bv8)
    requires x < 8 && y < 8 && tx < 8 && ty < 8
    ensures Reach(Up, x, y) == 0 ==> !OnArm(Up, x, y, tx, ty)
    ensures Reach(Up, x, y) > 0 ==>
      (OnArm(Up, x, y, tx, ty) <==>
        (tx == MoveX(Up, x) && ty == MoveY(Up, y)) || OnArm(Up, MoveX(Up, x), MoveY(Up, y), tx, ty))
  {
  }

  lemma ArmStepRightUp(x: bv8, y: bv8, tx: bv8, ty: bv8)
    requires x < 8 && y < 8 && tx < 8 && ty < 8
    ensures Reach(RightUp, x, y) == 0 ==> !OnArm(RightUp, x, y, tx, ty)
    ensures Reach(RightUp, x, y) > 0 ==>
      (OnArm(RightUp, x, y, tx, ty) <==>
        (tx == MoveX(RightUp, x) && ty == MoveY(RightUp, y)) || OnArm(RightUp, MoveX(RightUp, x), MoveY(RightUp, y), tx, ty))
  {
  }

  /** An arm never returns to a square it has left. */
  lemma ArmOneWay(a: Arm, x: bv8, y: bv8, tx: bv8, ty: bv8)
    ensures !OnArm(a, x, y, x, y)
    ensures !(OnArm(a, x, y, tx, ty) && OnArm(a, tx, ty, x, y))
  {
  }

  // ---------------------------------------------------------------------------
  // The squares an arm reaches
  // ---------------------------------------------------------------------------

  /** The generator's step count keeps every arm on the board. */
  lemma {:induction false} FitsReach(a: Arm, x: bv8, y: bv8, s: Square)
    requires x < 8 && y < 8 && s == SquareOf(x, y)
    ensures Fits(a, s, Reach(a, x, y))
    decreases Reach(a, x, y)
  {
    if Reach(a, x, y) > 0 {
      NextMove(a, x, y, s);
      var mx, my := MoveX(a, x), MoveY(a, y);
      FitsReach(a, mx, my, SquareOf(mx, my));
    }
  }

  /** The first square of a non-empty walk, and the walk after it. */
  lemma ArmTargetsSplit(a: Arm, s: Square, rem: bv8, n: Square)
    requires Fits(a, s, rem) && rem > 0 && Next(a, s) == n
    ensures Fits(a, n, rem - 1)
    ensures ArmTargets(a, s, rem) == [Target(n)] + ArmTargets(a, n, rem - 1)
  {
  }

  /** One step of an arm, on names for the step's results. */
  lemma ArmMove(a: Arm, x: bv8, y: bv8, s: Square, r: bv8, mx: bv8, my: bv8)
    requires x < 8 && y < 8 && s == SquareOf(x, y) && r == Reach(a, x, y) && r > 0
    requires mx == MoveX(a, x) && my == MoveY(a, y)
    ensures mx < 8 && my < 8 && Next(a, s) == SquareOf(mx, my) && Reach(a, mx, my) == r - 1
    ensures forall tx: bv8, ty: bv8 {:trigger OnArm(a, x, y, tx, ty)} | tx < 8 && ty < 8 ::
      OnArm(a, x, y, tx, ty) <==> (tx == mx && ty == my) || OnArm(a, mx, my, tx, ty)
    ensures !OnArm(a, mx, my, mx, my)
    ensures forall tx: bv8, ty: bv8 {:trigger OnArm(a, mx, my, tx, ty)} ::
      OnArm(a, mx, my, tx, ty) ==> !OnArm(a, tx, ty, mx, my)
  {
    NextMove(a, x, y, s);
    ArmOneWay(a, mx, my, mx, my);
    forall tx: bv8, ty: bv8 | tx < 8 && ty < 8
      ensures OnArm(a, x, y, tx, ty) <==> (tx == mx && ty == my) || OnArm(a, mx, my, tx, ty)
    {
      ArmStep(a, x, y, tx, ty);
    }
    forall tx: bv8, ty: bv8
      ensures OnArm(a, mx, my, tx, ty) ==> !OnArm(a, tx, ty, mx, my)
    {
      ArmOneWay(a, mx, my, tx, ty);
    }
  }

  /** The walk of an arm reaches exactly the squares on the arm. */
  lemma {:induction false} ArmTargetsOnArm(a: Arm, x: bv8, y: bv8, s: Square, r: bv8, tx: bv8, ty: bv8)
    requires x < 8 && y < 8 && s == SquareOf(x, y) && tx < 8 && ty < 8 && r == Reach(a, x, y)
    requires Fits(a, s, r)
    ensures Target(SquareOf(tx, ty)) in ArmTargets(a, s, r) <==> OnArm(a, x, y, tx, ty)
    decreases r
  {
    if r > 0 {
      var mx, my := MoveX(a, x), MoveY(a, y);
      ArmMove(a, x, y, s, r, mx, my);
      var n := SquareOf(mx, my);
      ArmTargetsSplit(a, s, r, n);
      ArmTargetsOnArm(a, mx, my, n, r - 1, tx, ty);
      InTail(ArmTargets(a, s, r), Target(SquareOf(tx, ty)));
      SquareOfInjective(mx, my, tx, ty);
    } else {
      ArmStep(a, x, y, tx, ty);
    }
  }

  /** The walk of an arm reaches no square twice. */
  lemma {:induction false} ArmTargetsDistinct(a: Arm, x: bv8, y: bv8, s: Square, r: bv8)
    requires x < 8 && y < 8 && s == SquareOf(x, y) && r == Reach(a, x, y)
    requires Fits(a, s, r)
    ensures Distinct(ArmTargets(a, s, r))
    decreases r
  {
    if r > 0 {
      var mx, my := MoveX(a, x), MoveY(a, y);
      ArmMove(a, x, y, s, r, mx, my);
      var n := SquareOf(mx, my);
      ArmTargetsSplit(a, s, r, n);
      ArmTargetsDistinct(a, mx, my, n, r - 1);
      ArmTargetsOnArm(a, mx, my, n, r - 1, mx, my);
    }
  }

  /** An arm with a square on it has room for a step. */
  lemma ArmNonEmpty(a: Arm, x: bv8, y: bv8, jx: bv8, jy: bv8)
    requires x < 8 && y < 8 && jx < 8 && jy < 8 && OnArm(a, x, y, jx, jy)
    ensures Reach(a, x, y) > 0
  {
    ArmStep(a, x, y, jx, jy);
  }

  /** The first step of a walk that has room for one: the walk continues from the next square. */
  lemma ArmStepOnce(a: Arm, x: bv8, y: bv8, s: Square, r: bv8) returns (mx: bv8, my: bv8, n: Square, r': bv8)
    requires x < 8 && y < 8 && s == SquareOf(x, y) && r == Reach(a, x, y) && Fits(a, s, r) && r > 0
    ensures mx == MoveX(a, x) && my == MoveY(a, y)
    ensures mx < 8 && my < 8 && n == SquareOf(mx, my) && r' < r && r' == Reach(a, mx, my) && Fits(a, n, r')
    ensures ArmTargets(a, s, r) == [Target(n)] + ArmTargets(a, n, r')
  {
    NextMove(a, x, y, s);
    mx, my := MoveX(a, x), MoveY(a, y);
    n := SquareOf(mx, my);
    r' := r - 1;
    ArmTargetsSplit(a, s, r, n);
  }

  /** The first step of an arm towards a square on it: the next square either is that square or still has it
      on its arm. */
  lemma ArmStepTowards(a: Arm, x: bv8, y: bv8, s: Square, r: bv8, jx: bv8, jy: bv8) returns (mx: bv8, my: bv8, n: Square, r': bv8)
    requires x < 8 && y < 8 && s == SquareOf(x, y) && r == Reach(a, x, y) && Fits(a, s, r)
    requires jx < 8 && jy < 8 && OnArm(a, x, y, jx, jy)
    ensures mx < 8 && my < 8 && n == SquareOf(mx, my) && r' < r && r' == Reach(a, mx, my) && Fits(a, n, r')
    ensures ArmTargets(a, s, r) == [Target(n)] + ArmTargets(a, n, r')
    ensures n == SquareOf(jx, jy) <==> jx == mx && jy == my
    ensures jx != mx || jy != my ==> OnArm(a, mx, my, jx, jy)
  {
    ArmNonEmpty(a, x, y, jx, jy);
    mx, my, n, r' := ArmStepOnce(a, x, y, s, r);
    SquareOfInjective(mx, my, jx, jy);
    ArmFarther(a, x, y, mx, my, jx, jy);
  }

  /** A square of the arm other than the first step is on the arm of the first step. */
  lemma ArmFarther(a: Arm, x: bv8, y: bv8, mx: bv8, my: bv8, jx: bv8, jy: bv8)
    requires x < 8 && y < 8 && jx < 8 && jy < 8 && mx == MoveX(a, x) && my == MoveY(a, y)
    requires OnArm(a, x, y, jx, jy)
    ensures jx != mx || jy != my ==> OnArm(a, mx, my, jx, jy)
  {
    ArmStep(a, x, y, jx, jy);
  }

  /** From a square of the arm on, the walk is the walk from that square. */
  lemma {:induction false} ArmTargetsSuffix(a: Arm, x: bv8, y: bv8, s: Square, r: bv8, jx: bv8, jy: bv8, js: Square, jr: bv8)
    requires x < 8 && y < 8 && s == SquareOf(x, y) && r == Reach(a, x, y) && Fits(a, s, r)
    requires jx < 8 && jy < 8 && js == SquareOf(jx, jy) && jr == Reach(a, jx, jy) && Fits(a, js, jr)
    requires OnArm(a, x, y, jx, jy)
    ensures ArmTargets(a, s, r) == Prefix(ArmTargets(a, s, r), Target(js)) + [Target(js)] + ArmTargets(a, js, jr)
    decreases r
  {
    var mx, my, n, r' := ArmStepTowards(a, x, y, s, r, jx, jy);
    if n == js {
      PrefixHead(Target(js), ArmTargets(a, js, jr));
    } else {
      ArmTargetsSuffix(a, mx, my, n, r', jx, jy, js, jr);
      PrefixCons(Target(n), ArmTargets(a, n, r'), Target(js), ArmTargets(a, js, jr));
    }
  }

  /** A list that starts with `j` splits at `j` with nothing before it. */
  lemma PrefixHead(j: Target, q: seq<Target>)
    ensures [j] + q == Prefix([j] + q, j) + [j] + q
  {
    assert Prefix([j] + q, j) == [];
  }

  /** Splitting at `j` is kept when a different target is put in front. */
  lemma PrefixCons(h: Target, rest: seq<Target>, j: Target, q: seq<Target>)
    requires h != j && rest == Prefix(rest, j) + [j] + q
    ensures [h] + rest == Prefix([h] + rest, j) + [j] + q
  {
    var p := Prefix(rest, j);
    assert ([h] + rest)[1..] == rest;
    assert Prefix([h] + rest, j) == [h] + p;
    assert [h] + (p + [j] + q) == ([h] + p) + [j] + q;
  }

  /** In a list without repeats, what comes before `j` is what is neither `j` nor after it. */
  lemma DistinctSplit(p: seq<Target>, j: Target, q: seq<Target>, t: Target)
    requires Distinct(p + [j] + q)
    ensures t in p <==> t in p + [j] + q && t != j && t !in q
  {
    DistinctParts(p, [j] + q);
    assert p + [j] + q == p + ([j] + q);
  }

  lemma {:induction false} DistinctParts(p: seq<Target>, q: seq<Target>)
    requires Distinct(p + q)
    ensures forall t :: t in p ==> t !in q
    ensures Distinct(q) && (q != [] ==> q[0] !in q[1..])
    decreases |p|
  {
    if p == [] {
      assert p + q == q;
    } else {
      assert (p + q)[1..] == p[1..] + q;
      DistinctParts(p[1..], q);
      forall t | t in p
        ensures t !in q
      {
        if t != p[0] {
          assert t in p[1..];
        }
      }
    }
  }

  /** Before a square of the arm, the walk reaches exactly the squares of the arm that are not at or beyond it. */
  lemma ArmTargetsPrefix(a: Arm, x: bv8, y: bv8, s: Square, r: bv8, tx: bv8, ty: bv8, jx: bv8, jy: bv8)
    requires x < 8 && y < 8 && s == SquareOf(x, y) && r == Reach(a, x, y)
    requires tx < 8 && ty < 8 && jx < 8 && jy < 8
    requires Fits(a, s, r) && OnArm(a, x, y, jx, jy)
    ensures Target(SquareOf(tx, ty)) in Prefix(ArmTargets(a, s, r), Target(SquareOf(jx, jy)))
      <==> OnArm(a, x, y, tx, ty) && (tx, ty) != (jx, jy) && !OnArm(a, jx, jy, tx, ty)
  {
    var js, jr := SquareOf(jx, jy), Reach(a, jx, jy);
    FitsReach(a, jx, jy, js);
    ArmTargetsSuffix(a, x, y, s, r, jx, jy, js, jr);
    ArmTargetsDistinct(a, x, y, s, r);
    var w := ArmTargets(a, s, r);
    DistinctSplit(Prefix(w, Target(js)), Target(js), ArmTargets(a, js, jr), Target(SquareOf(tx, ty)));
    ArmTargetsOnArm(a, x, y, s, r, tx, ty);
    ArmTargetsOnArm(a, jx, jy, js, jr, tx, ty);
    SquareOfInjective(tx, ty, jx, jy);
  }

  /** Of two squares on an arm, the nearer one has the farther one on its own arm, and only then. */
  lemma ArmBetween(a: Arm, x: bv8, y: bv8, tx: bv8, ty: bv8, jx: bv8, jy: bv8)
    requires x < 8 && y < 8 && tx < 8 && ty < 8 && jx < 8 && jy < 8
    requires OnArm(a, x, y, tx, ty) && OnArm(a, x, y, jx, jy)
    ensures (tx != jx || ty != jy) && !OnArm(a, jx, jy, tx, ty) <==> OnArm(a, tx, ty, jx, jy)
  {
    match a
    case Right => ArmBetweenRight(a, x, y, tx, ty, jx, jy);
    case RightDown => ArmBetweenRightDown(a, x, y, tx, ty, jx, jy);
    case Down => ArmBetweenDown(a, x, y, tx, ty, jx, jy);
    case LeftDown => ArmBetweenLeftDown(a, x, y, tx, ty, jx, jy);
    case Left => ArmBetweenLeft(a, x, y, tx, ty, jx, jy);
    case LeftUp => ArmBetweenLeftUp(a, x, y, tx, ty, jx, jy);
    case Up => ArmBetweenUp(a, x, y, tx, ty, jx, jy);
    case RightUp => ArmBetweenRightUp(a, x, y, tx, ty, jx, jy);
  }

  lemma ArmBetweenRight(a: Arm, x: bv8, y: bv8, tx: bv8, ty: bv8, jx: bv8, jy: bv8)
    requires a == Right && x < 8 && y < 8 && tx < 8 && ty < 8 && jx < 8 && jy < 8
    requires OnArm(a, x, y, tx, ty) && OnArm(a, x, y, jx, jy)
    ensures (tx != jx || ty != jy) && !OnArm(a, jx, jy, tx, ty) <==> OnArm(a, tx, ty, jx, jy)
  {
  }

  lemma ArmBetweenRightDown(a: Arm, x: bv8, y: bv8, tx: bv8, ty: bv8, jx: bv8, jy: bv8)
    requires a == RightDown && x < 8 && y < 8 && tx < 8 && ty < 8 && jx < 8 && jy < 8
    requires OnArm(a, x, y, tx, ty) && OnArm(a, x, y, jx, jy)
    ensures (tx != jx || ty != jy) && !OnArm(a, jx, jy, tx, ty) <==> OnArm(a, tx, ty, jx, jy)
  {
  }

  lemma ArmBetweenDown(a: Arm, x: bv8, y: bv8, tx: bv8, ty: bv8, jx: bv8, jy: bv8)
    requires a == Down && x < 8 && y < 8 && tx < 8 && ty < 8 && jx < 8 && jy < 8
    requires OnArm(a, x, y, tx, ty) && OnArm(a, x, y, jx, jy)
    ensures (tx != jx || ty != jy) && !OnArm(a, jx, jy, tx, ty) <==> OnArm(a, tx, ty, jx, jy)
  {
  }

  lemma ArmBetweenLeftDown(a: Arm, x: bv8, y: bv8, tx: bv8, ty: bv8, jx: bv8, jy: bv8)
    requires a == LeftDown && x < 8 && y < 8 && tx < 8 && ty < 8 && jx < 8 && jy < 8
    requires OnArm(a, x, y, tx, ty) && OnArm(a, x, y, jx, jy)
    ensures (tx != jx || ty != jy) && !OnArm(a, jx, jy, tx, ty) <==> OnArm(a, tx, ty, jx, jy)
  {
  }

  lemma ArmBetweenLeft(a: Arm, x: bv8, y: bv8, tx: bv8, ty: bv8, jx: bv8, jy: bv8)
    requires a == Left && x < 8 && y < 8 && tx < 8 && ty < 8 && jx < 8 && jy < 8
    requires OnArm(a, x, y, tx, ty) && OnArm(a, x, y, jx, jy)
    ensures (tx != jx || ty != jy) && !OnArm(a, jx, jy, tx, ty) <==> OnArm(a, tx, ty, jx, jy)
  {
  }

  lemma ArmBetweenLeftUp(a: Arm, x: bv8, y: bv8, tx: bv8, ty: bv8, jx: bv8, jy: bv8)
    requires a == LeftUp && x < 8 && y < 8 && tx < 8 && ty < 8 && jx < 8 && jy < 8
    requires OnArm(a, x, y, tx, ty) && OnArm(a, x, y, jx, jy)
    ensures (tx != jx || ty != jy) && !OnArm(a, jx, jy, tx, ty) <==> OnArm(a, tx, ty, jx, jy)
  {
  }

  lemma ArmBetweenUp(a: Arm, x: bv8, y: bv8, tx: bv8, ty: bv8, jx: bv8, jy: bv8)
    requires a == Up && x < 8 && y < 8 && tx < 8 && ty < 8 && jx < 8 && jy < 8
    requires OnArm(a, x, y, tx, ty) && OnArm(a, x, y, jx, jy)
    ensures (tx != jx || ty != jy) && !OnArm(a, jx, jy, tx, ty) <==> OnArm(a, tx, ty, jx, jy)
  {
  }

  lemma ArmBetweenRightUp(a: Arm, x: bv8, y: bv8, tx: bv8, ty: bv8, jx: bv8, jy: bv8)
    requires a == RightUp && x < 8 && y < 8 && tx < 8 && ty < 8 && jx < 8 && jy < 8
    requires OnArm(a, x, y, tx, ty) && OnArm(a, x, y, jx, jy)
    ensures (tx != jx || ty != jy) && !OnArm(a, jx, jy, tx, ty) <==> OnArm(a, tx, ty, jx, jy)
  {
  }

  // ---------------------------------------------------------------------------
  // The row of a `from` square
  // ---------------------------------------------------------------------------

  /** The row after the arm loop of arm `a` from file `x`, rank `y`, with the generator's step count. */
  function ArmRow(row: seq<Bitboard>, a: Arm, x: bv8, y: bv8): (row': seq<Bitboard>)
    requires |row| == 64 && x < 8 && y < 8
    ensures |row'| == 64
  {
    var s := SquareOf(x, y);
    FitsReach(a, x, y, s);
    WritesAlong(row, Bit(s), ArmTargets(a, s, Reach(a, x, y)))
  }

  /** The path the arm loop of arm `a` stores at square (jx, jy). */
  function ArmEntry(a: Arm, x: bv8, y: bv8, jx: bv8, jy: bv8): Bitboard
    requires x < 8 && y < 8 && jx < 8 && jy < 8
  {
    var s := SquareOf(x, y);
    FitsReach(a, x, y, s);
    AddTargets(Bit(s), Prefix(ArmTargets(a, s, Reach(a, x, y)), Target(SquareOf(jx, jy))))
  }

  /** The arm loop writes the squares of its arm and leaves the rest of the row alone. */
  lemma ArmRowAt(row: seq<Bitboard>, a: Arm, x: bv8, y: bv8, jx: bv8, jy: bv8)
    requires |row| == 64 && x < 8 && y < 8 && jx < 8 && jy < 8
    ensures ArmRow(row, a, x, y)[SquareOf(jx, jy)]
      == if OnArm(a, x, y, jx, jy) then ArmEntry(a, x, y, jx, jy) else row[SquareOf(jx, jy)]
  {
    var s, r, j := SquareOf(x, y), Reach(a, x, y), SquareOf(jx, jy);
    FitsReach(a, x, y, s);
    var w := ArmTargets(a, s, r);
    ArmTargetsDistinct(a, x, y, s, r);
    WritesAlongAt(row, Bit(s), w, j);
    ArmTargetsOnArm(a, x, y, s, r, jx, jy);
    PathAlongPrefix(Bit(s), w, Target(j));
  }

  /** The path stored for a square of the arm holds the start and the squares strictly between. */
  lemma ArmEntryMembers(a: Arm, x: bv8, y: bv8, jx: bv8, jy: bv8, tx: bv8, ty: bv8)
    requires x < 8 && y < 8 && jx < 8 && jy < 8 && tx < 8 && ty < 8 && OnArm(a, x, y, jx, jy)
    ensures Has(ArmEntry(a, x, y, jx, jy), SquareOf(tx, ty))
      <==> (tx == x && ty == y) || (OnArm(a, x, y, tx, ty) && (tx != jx || ty != jy) && !OnArm(a, jx, jy, tx, ty))
  {
    var s, r, t := SquareOf(x, y), Reach(a, x, y), SquareOf(tx, ty);
    FitsReach(a, x, y, s);
    HasAddTargets(Bit(s), Prefix(ArmTargets(a, s, r), Target(SquareOf(jx, jy))), t);
    HasBit(s, t);
    SquareOfInjective(x, y, tx, ty);
    ArmTargetsPrefix(a, x, y, s, r, tx, ty, jx, jy);
    ArmOneWay(a, x, y, tx, ty);
  }

  // ---------------------------------------------------------------------------
  // Which arm a square lies on
  // ---------------------------------------------------------------------------

  /** How a square lies from another: on one of the eight arms, or on none. */
  datatype Line = Unaligned | Along(arm: Arm)

  /** The arm from (x, y) that (tx, ty) lies on, if any (the arms do not overlap, see `ArmOfOnArm`). */
  function ArmOf(x: bv8, y: bv8, tx: bv8, ty: bv8): Line {
    if OnArm(Right, x, y, tx, ty) then Along(Right)
    else if OnArm(RightDown, x, y, tx, ty) then Along(RightDown)
    else if OnArm(Down, x, y, tx, ty) then Along(Down)
    else if OnArm(LeftDown, x, y, tx, ty) then Along(LeftDown)
    else if OnArm(Left, x, y, tx, ty) then Along(Left)
    else if OnArm(LeftUp, x, y, tx, ty) then Along(LeftUp)
    else if OnArm(Up, x, y, tx, ty) then Along(Up)
    else if OnArm(RightUp, x, y, tx, ty) then Along(RightUp)
    else Unaligned
  }

  /** A square lies on an arm exactly when that arm is the one `ArmOf` names, so on at most one arm. */
  lemma ArmOfOnArm(a: Arm, x: bv8, y: bv8, tx: bv8, ty: bv8)
    ensures ArmOf(x, y, tx, ty) == Along(a) <==> OnArm(a, x, y, tx, ty)
  {
    match a
    case Right => ArmOfOnArmRight(a, x, y, tx, ty);
    case RightDown => ArmOfOnArmRightDown(a, x, y, tx, ty);
    case Down => ArmOfOnArmDown(a, x, y, tx, ty);
    case LeftDown => ArmOfOnArmLeftDown(a, x, y, tx, ty);
    case Left => ArmOfOnArmLeft(a, x, y, tx, ty);
    case LeftUp => ArmOfOnArmLeftUp(a, x, y, tx, ty);
    case Up => ArmOfOnArmUp(a, x, y, tx, ty);
    case RightUp => ArmOfOnArmRightUp(a, x, y, tx, ty);
  }

  lemma ArmOfOnArmRight(a: Arm, x: bv8, y: bv8, tx: bv8, ty: bv8)
    requires a == Right
    ensures ArmOf(x, y, tx, ty) == Along(a) <==> OnArm(a, x, y, tx, ty)
  {
  }

  lemma ArmOfOnArmRightDown(a: Arm, x: bv8, y: bv8, tx: bv8, ty: bv8)
    requires a == RightDown
    ensures ArmOf(x, y, tx, ty) == Along(a) <==> OnArm(a, x, y, tx, ty)
  {
  }

  lemma ArmOfOnArmDown(a: Arm, x: bv8, y: bv8, tx: bv8, ty: bv8)
    requires a == Down
    ensures ArmOf(x, y, tx, ty) == Along(a) <==> OnArm(a, x, y, tx, ty)
  {
  }

  lemma ArmOfOnArmLeftDown(a: Arm, x: bv8, y: bv8, tx: bv8, ty: bv8)
    requires a == LeftDown
    ensures ArmOf(x, y, tx, ty) == Along(a) <==> OnArm(a, x, y, tx, ty)
  {
  }

  lemma ArmOfOnArmLeft(a: Arm, x: bv8, y: bv8, tx: bv8, ty: bv8)
    requires a == Left
    ensures ArmOf(x, y, tx, ty) == Along(a) <==> OnArm(a, x, y, tx, ty)
  {
  }

  lemma ArmOfOnArmLeftUp(a: Arm, x: bv8, y: bv8, tx: bv8, ty: bv8)
    requires a == LeftUp
    ensures ArmOf(x, y, tx, ty) == Along(a) <==> OnArm(a, x, y, tx, ty)
  {
  }

  lemma ArmOfOnArmUp(a: Arm, x: bv8, y: bv8, tx: bv8, ty: bv8)
    requires a == Up
    ensures ArmOf(x, y, tx, ty) == Along(a) <==> OnArm(a, x, y, tx, ty)
  {
  }

  lemma ArmOfOnArmRightUp(a: Arm, x: bv8, y: bv8, tx: bv8, ty: bv8)
    requires a == RightUp
    ensures ArmOf(x, y, tx, ty) == Along(a) <==> OnArm(a, x, y, tx, ty)
  {
  }

  // ---------------------------------------------------------------------------
  // The table
  // ---------------------------------------------------------------------------

  /** A row of the table before any arm has written to it. */
  function Zeros(): (row: seq<Bitboard>)
    ensures |row| == 64 && forall j :: 0 <= j < 64 ==> row[j] == 0
  {
    seq(64, _ => 0)
  }

  /** The arms in the order the generator walks them. */
  const GeneratorArms: seq<Arm> := [Right, RightDown, Down, LeftDown, Left, LeftUp, Up, RightUp]

  /** The position of an arm in `GeneratorArms`. */
  function ArmIndex(a: Arm): (k: nat)
    ensures k < 8 && GeneratorArms[k] == a
  {
    match a
    case Right => 0
    case RightDown => 1
    case Down => 2
    case LeftDown => 3
    case Left => 4
    case LeftUp => 5
    case Up => 6
    case RightUp => 7
  }

  /** Every arm of `GeneratorArms` is listed once. */
  lemma GeneratorArmsIndex(k: nat)
    requires k < 8
    ensures ArmIndex(GeneratorArms[k]) == k
  {
  }

  /** A row after the arm loops of `from` square (x, y) for the arms from position `k` of the generator on. */
  function ArmsRow(row: seq<Bitboard>, x: bv8, y: bv8, k: nat): (row': seq<Bitboard>)
    requires |row| == 64 && x < 8 && y < 8 && k <= 8
    ensures |row'| == 64
    decreases 8 - k
  {
    if k == 8 then row else ArmsRow(ArmRow(row, GeneratorArms[k], x, y), x, y, k + 1)
  }

  /** The row of `from` square (x, y) in the finished table: the eight arm loops on an empty row. */
  function PathRow(x: bv8, y: bv8): (row: seq<Bitboard>)
    requires x < 8 && y < 8
    ensures |row| == 64
  {
    ArmsRow(Zeros(), x, y, 0)
  }

  /** An entry is written by the arm its square lies on, if that arm is still to come. */
  lemma {:induction false} ArmsRowAt(row: seq<Bitboard>, x: bv8, y: bv8, k: nat, jx: bv8, jy: bv8)
    requires |row| == 64 && x < 8 && y < 8 && k <= 8 && jx < 8 && jy < 8
    ensures ArmsRow(row, x, y, k)[SquareOf(jx, jy)]
      == match ArmOf(x, y, jx, jy)
         case Along(a) => if k <= ArmIndex(a) then ArmEntry(a, x, y, jx, jy) else row[SquareOf(jx, jy)]
         case Unaligned => row[SquareOf(jx, jy)]
    decreases 8 - k
  {
    if k < 8 {
      var b := GeneratorArms[k];
      GeneratorArmsIndex(k);
      ArmRowAt(row, b, x, y, jx, jy);
      ArmOfOnArm(b, x, y, jx, jy);
      ArmsRowAt(ArmRow(row, b, x, y), x, y, k + 1, jx, jy);
    }
  }

  /** Each entry of a row is written by the one arm its square lies on, and is empty off the arms. */
  lemma PathRowAt(x: bv8, y: bv8, jx: bv8, jy: bv8)
    requires x < 8 && y < 8 && jx < 8 && jy < 8
    ensures PathRow(x, y)[SquareOf(jx, jy)]
      == match ArmOf(x, y, jx, jy) case Unaligned => 0 case Along(a) => ArmEntry(a, x, y, jx, jy)
  {
    ArmsRowAt(Zeros(), x, y, 0, jx, jy);
  }

  /**
   * For `to` on an arm from `from`, the entry holds `from` and exactly the
   * squares strictly between the two.
   */
  lemma PathEntryMembers(a: Arm, x: bv8, y: bv8, jx: bv8, jy: bv8, tx: bv8, ty: bv8)
    requires x < 8 && y < 8 && jx < 8 && jy < 8 && tx < 8 && ty < 8 && OnArm(a, x, y, jx, jy)
    ensures Has(PathRow(x, y)[SquareOf(jx, jy)], SquareOf(tx, ty))
      <==> (tx == x && ty == y) || (OnArm(a, x, y, tx, ty) && OnArm(a, tx, ty, jx, jy))
  {
    PathRowAt(x, y, jx, jy);
    ArmOfOnArm(a, x, y, jx, jy);
    ArmEntryMembers(a, x, y, jx, jy, tx, ty);
    if OnArm(a, x, y, tx, ty) {
      ArmBetween(a, x, y, tx, ty, jx, jy);
    }
  }

  /** For `to` on an arm from `from`, the entry holds `from` and not `to`. */
  lemma PathEntryEnds(a: Arm, x: bv8, y: bv8, jx: bv8, jy: bv8)
    requires x < 8 && y < 8 && jx < 8 && jy < 8 && OnArm(a, x, y, jx, jy)
    ensures Has(PathRow(x, y)[SquareOf(jx, jy)], SquareOf(x, y))
    ensures !Has(PathRow(x, y)[SquareOf(jx, jy)], SquareOf(jx, jy))
  {
    PathEntryMembers(a, x, y, jx, jy, x, y);
    PathEntryMembers(a, x, y, jx, jy, jx, jy);
    ArmOneWay(a, x, y, jx, jy);
  }

  /** For `to` on none of the arms from `from` (`to == from` included), the entry is empty. */
  lemma PathEntryUnaligned(x: bv8, y: bv8, jx: bv8, jy: bv8)
    requires x < 8 && y < 8 && jx < 8 && jy < 8
    requires forall a: Arm :: !OnArm(a, x, y, jx, jy)
    ensures PathRow(x, y)[SquareOf(jx, jy)] == 0
  {
    PathRowAt(x, y, jx, jy);
    match ArmOf(x, y, jx, jy)
    case Unaligned =>
    case Along(b) => ArmOfOnArm(b, x, y, jx, jy);
  }

  /** The entry of a square for itself is empty. */
  lemma PathEntrySameSquare(x: bv8, y: bv8)
    requires x < 8 && y < 8
    ensures PathRow(x, y)[SquareOf(x, y)] == 0
  {
    forall a: Arm
      ensures !OnArm(a, x, y, x, y)
    {
      ArmOneWay(a, x, y, x, y);
    }
    PathEntryUnaligned(x, y, x, y);
  }

  /** The arm loop with the generator's count for arm `a` produces `ArmRow`. */
  lemma ArmLoopRow(row: seq<Bitboard>, a: Arm, x: bv8, y: bv8, from: Square, count: bv8)
    requires |row| == 64 && x < 8 && y < 8 && from == SquareOf(x, y) && count == Reach(a, x, y)
    ensures Fits(a, from, count)
    ensures WritesAlong(row, Bit(from), ArmTargets(a, from, count)) == ArmRow(row, a, x, y)
  {
    FitsReach(a, x, y, from);
  }

  /** The eight `arm_loop!` expansions for `from` square (x, y), with the generator's counts. */
  method ArmLoops(row: seq<Bitboard>, from: Square, x: bv8, y: bv8) returns (row': seq<Bitboard>)
    requires |row| == 64 && x < 8 && y < 8 && from == SquareOf(x, y)
    ensures row' == ArmsRow(row, x, y, 0)
  {
    row' := row;
    ArmLoopRow(row', Right, x, y, from, 7 - x);
    ArmsRowStep(row', x, y, 0);
    row' := ArmLoop(row', from, Right, 7 - x);
    ArmLoopRow(row', RightDown, x, y, from, Min(7 - x, y));
    ArmsRowStep(row', x, y, 1);
    row' := ArmLoop(row', from, RightDown, Min(7 - x, y));
    ArmLoopRow(row', Down, x, y, from, y);
    ArmsRowStep(row', x, y, 2);
    row' := ArmLoop(row', from, Down, y);
    ArmLoopRow(row', LeftDown, x, y, from, Min(x, y));
    ArmsRowStep(row', x, y, 3);
    row' := ArmLoop(row', from, LeftDown, Min(x, y));
    ArmLoopRow(row', Left, x, y, from, x);
    ArmsRowStep(row', x, y, 4);
    row' := ArmLoop(row', from, Left, x);
    ArmLoopRow(row', LeftUp, x, y, from, Min(x, 7 - y));
    ArmsRowStep(row', x, y, 5);
    row' := ArmLoop(row', from, LeftUp, Min(x, 7 - y));
    ArmLoopRow(row', Up, x, y, from, 7 - y);
    ArmsRowStep(row', x, y, 6);
    row' := ArmLoop(row', from, Up, 7 - y);
    ArmLoopRow(row', RightUp, x, y, from, Min(7 - x, 7 - y));
    ArmsRowStep(row', x, y, 7);
    row' := ArmLoop(row', from, RightUp, Min(7 - x, 7 - y));
  }

  /** One arm loop of the generator's sequence. */
  lemma ArmsRowStep(row: seq<Bitboard>, x: bv8, y: bv8, k: nat)
    requires |row| == 64 && x < 8 && y < 8 && k < 8
    ensures ArmsRow(row, x, y, k) == ArmsRow(ArmRow(row, GeneratorArms[k], x, y), x, y, k + 1)
  {
  }

  /** Storing the row of `from` extends the finished part of the table by one row. */
  lemma TableStep(lookup: seq<seq<Bitboard>>, from: Square, row: seq<Bitboard>, want: Square -> seq<Bitboard>,
                  lookup': seq<seq<Bitboard>>)
    requires |lookup| == 64 && row == want(from) && lookup' == lookup[from := row]
    requires forall s: Square :: s < from ==> lookup[s] == want(s)
    requires forall i :: from as int <= i < 64 ==> lookup[i] == Zeros()
    ensures |lookup'| == 64
    ensures forall s: Square :: s <= from ==> lookup'[s] == want(s)
    ensures forall i :: from as int < i < 64 ==> lookup'[i] == Zeros()
  {
  }

  method BuildPathTable() returns (lookup: seq<seq<Bitboard>>)
    ensures |lookup| == 64
    ensures forall from: Square :: lookup[from] == PathRow(File(from), Rank(from))
  {
    var want: Square -> seq<Bitboard> := (s: Square) => PathRow(File(s), Rank(s));
    lookup := seq(64, _ => Zeros());
    var from: bv8 := 0;
    while from < 64
      invariant from <= 64 && |lookup| == 64
      invariant forall s: Square :: s < from ==> lookup[s] == want(s)
      invariant forall i :: from as int <= i < 64 ==> lookup[i] == Zeros()
      decreases 64 - from
    {
      var x, y := from % 8, from / 8;
      SquareOfCoordinates(from);
      var row := ArmLoops(lookup[from], from, x, y);
      TableStep(lookup, from, row, want, lookup[from := row]);
      lookup := lookup[from := row];
      from := from + 1;
    }
  }
}
