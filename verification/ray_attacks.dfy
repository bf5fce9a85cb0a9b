/**
 * `attacked_by_plus` and `attacked_by_x` of src/pext_consts.rs (commented out
 * in the repository; the model follows its text).
 *
 * Both unfold a compacted occupancy index onto the relevant squares of `sq`
 * and then walk the four arms of a rook-like ("plus") or bishop-like ("x")
 * piece outwards, setting every square they reach and stopping right after
 * the first occupied one.  The arms and their step counts are those of the
 * path generator (module PathTable).
 */
module RayAttacks {
  import opened Bitboards
  import opened Geometry
  import opened AttackTables
  import opened PathTable
  import opened PextTables

  // ---------------------------------------------------------------------------
  // Casting a ray along a list of squares
  // ---------------------------------------------------------------------------

  /** `t` is a square and it is occupied. */
  predicate Occupied(occ: Bitboard, t: Target) {
    t.Target? && Has(occ, t.sq)
  }

  /** The squares of `w` up to and including the first occupied one. */
  function Ray(occ: Bitboard, w: seq<Target>): seq<Target>
    decreases |w|
  {
    if w == [] then []
    else if Occupied(occ, w[0]) then [w[0]]
    else [w[0]] + Ray(occ, w[1..])
  }

  /** No square of `w` is occupied. */
  predicate Clear(occ: Bitboard, w: seq<Target>)
    decreases |w|
  {
    w == [] || (!Occupied(occ, w[0]) && Clear(occ, w[1..]))
  }

  /** A ray reaches a square of its list exactly when nothing before that square is occupied. */
  lemma {:induction false} RayMembers(occ: Bitboard, w: seq<Target>, j: Target)
    ensures j in Ray(occ, w) <==> j in w && Clear(occ, Prefix(w, j))
    decreases |w|
  {
    if w != [] {
      InTail(w, j);
      if w[0] != j {
        RayMembers(occ, w[1..], j);
        var p := Prefix(w, j);
        assert p[0] == w[0] && p[1..] == Prefix(w[1..], j);
        if !Occupied(occ, w[0]) {
          InTail(Ray(occ, w), j);
        }
      }
    }
  }

  /** No square of `b` is occupied. */
  ghost predicate Free(occ: Bitboard, b: Bitboard) {
    forall u: Square :: Has(b, u) ==> !Has(occ, u)
  }

  /** Adding one target keeps a board free exactly when the target is free. */
  lemma FreeAddTarget(occ: Bitboard, p: Bitboard, c: Target)
    ensures Free(occ, AddTarget(p, c)) <==> Free(occ, p) && !Occupied(occ, c)
  {
    forall u: Square
      ensures Has(AddTarget(p, c), u) <==> Has(p, u) || (c.Target? && c.sq == u)
    {
      HasAddTarget(p, c, u);
    }
  }

  /** A list of squares is clear exactly when the board of its squares is free. */
  lemma {:induction false} ClearFree(occ: Bitboard, p: Bitboard, w: seq<Target>)
    ensures Free(occ, AddTargets(p, w)) <==> Free(occ, p) && Clear(occ, w)
    decreases |w|
  {
    if w != [] {
      FreeAddTarget(occ, p, w[0]);
      ClearFree(occ, AddTarget(p, w[0]), w[1..]);
    }
  }

  /** The empty board is free. */
  lemma FreeZero(occ: Bitboard)
    ensures Free(occ, 0)
  {
    forall u: Square
      ensures !Has(0, u)
    {
      HasZero(u);
    }
  }

  // ---------------------------------------------------------------------------
  // Rays along the arms of the board
  // ---------------------------------------------------------------------------

  /** The squares the arm `a` from (x, y) attacks on the board `occ`. */
  function ArmRay(a: Arm, x: bv8, y: bv8, occ: Bitboard): seq<Target>
    requires x < 8 && y < 8
  {
    var s := SquareOf(x, y);
    FitsReach(a, x, y, s);
    Ray(occ, ArmTargets(a, s, Reach(a, x, y)))
  }

  /** The squares of the arm `a` from (x, y) strictly before (jx, jy). */
  function Between(a: Arm, x: bv8, y: bv8, jx: bv8, jy: bv8): Bitboard
    requires x < 8 && y < 8 && jx < 8 && jy < 8
  {
    var s := SquareOf(x, y);
    FitsReach(a, x, y, s);
    AddTargets(0, Prefix(ArmTargets(a, s, Reach(a, x, y)), Target(SquareOf(jx, jy))))
  }

  /** For a square (jx, jy) on the arm, Between holds exactly the squares strictly between (x, y) and it. */
  lemma BetweenMembers(a: Arm, x: bv8, y: bv8, jx: bv8, jy: bv8, tx: bv8, ty: bv8)
    requires x < 8 && y < 8 && jx < 8 && jy < 8 && tx < 8 && ty < 8 && OnArm(a, x, y, jx, jy)
    ensures Has(Between(a, x, y, jx, jy), SquareOf(tx, ty))
      <==> OnArm(a, x, y, tx, ty) && OnArm(a, tx, ty, jx, jy)
  {
    var s, r, t := SquareOf(x, y), Reach(a, x, y), SquareOf(tx, ty);
    FitsReach(a, x, y, s);
    HasAddTargets(0, Prefix(ArmTargets(a, s, r), Target(SquareOf(jx, jy))), t);
    HasZero(t);
    ArmTargetsPrefix(a, x, y, s, r, tx, ty, jx, jy);
    if OnArm(a, x, y, tx, ty) {
      ArmBetween(a, x, y, tx, ty, jx, jy);
    }
  }

  /** An arm attacks exactly the squares on it with no occupied square strictly in between. */
  lemma ArmRayMembers(a: Arm, x: bv8, y: bv8, occ: Bitboard, tx: bv8, ty: bv8)
    requires x < 8 && y < 8 && tx < 8 && ty < 8
    ensures Has(AddTargets(0, ArmRay(a, x, y, occ)), SquareOf(tx, ty)) <==> ArmAttacks(a, x, y, occ, tx, ty)
  {
    var s, r, t := SquareOf(x, y), Reach(a, x, y), SquareOf(tx, ty);
    FitsReach(a, x, y, s);
    var w := ArmTargets(a, s, r);
    HasAddTargets(0, Ray(occ, w), t);
    HasZero(t);
    RayMembers(occ, w, Target(t));
    ArmTargetsOnArm(a, x, y, s, r, tx, ty);
    ClearFree(occ, 0, Prefix(w, Target(t)));
    FreeZero(occ);
  }

  // ---------------------------------------------------------------------------
  // The arm walk
  // ---------------------------------------------------------------------------

  /** The ray along a list that starts with `h`. */
  lemma RayCons(occ: Bitboard, h: Target, rest: seq<Target>)
    ensures Ray(occ, [h] + rest) == if Occupied(occ, h) then [h] else [h] + Ray(occ, rest)
  {
    assert ([h] + rest)[0] == h && ([h] + rest)[1..] == rest;
  }

  /** Adding the targets of a list that starts with `h`. */
  lemma AddTargetsCons(acc: Bitboard, h: Target, rest: seq<Target>)
    ensures AddTargets(acc, [h] + rest) == AddTargets(AddTarget(acc, h), rest)
  {
    assert ([h] + rest)[0] == h && ([h] + rest)[1..] == rest;
  }

  /** Adding the one target of a singleton list. */
  lemma AddTargetsSingle(acc: Bitboard, n: Square)
    ensures AddTargets(acc, [Target(n)]) == acc | Bit(n)
  {
    AddTargetsCons(acc, Target(n), []);
  }

  /** One step of the walk: the next square is attacked, and the walk stops there if it is occupied. */
  lemma RayStep(acc: Bitboard, occ: Bitboard, a: Arm, s: Square, rem: bv8, n: Square)
    requires Fits(a, s, rem) && rem > 0 && Next(a, s) == n
    ensures Fits(a, n, rem - 1)
    ensures Has(occ, n) ==> AddTargets(acc, Ray(occ, ArmTargets(a, s, rem))) == acc | Bit(n)
    ensures !Has(occ, n) ==>
      AddTargets(acc, Ray(occ, ArmTargets(a, s, rem))) == AddTargets(acc | Bit(n), Ray(occ, ArmTargets(a, n, rem - 1)))
  {
    ArmTargetsSplit(a, s, rem, n);
    var rest := ArmTargets(a, n, rem - 1);
    RayCons(occ, Target(n), rest);
    AddTargetsSingle(acc, n);
    AddTargetsCons(acc, Target(n), Ray(occ, rest));
  }

  /**
   * One arm of `attacked_by_plus` / `attacked_by_x`: step `walking_sq`
   * `count` times, setting each square reached and stopping after the first
   * occupied one.
   */
  method WalkArm(attacked: Bitboard, occupancy: Bitboard, sq: Square, a: Arm, count: bv8)
    returns (attacked': Bitboard)
    requires Fits(a, sq, count)
    ensures attacked' == AddTargets(attacked, Ray(occupancy, ArmTargets(a, sq, count)))
  {
    attacked' := attacked;
    var walking := sq;
    var remaining := count;
    while remaining > 0
      invariant Fits(a, walking, remaining)
      invariant AddTargets(attacked', Ray(occupancy, ArmTargets(a, walking, remaining)))
        == AddTargets(attacked, Ray(occupancy, ArmTargets(a, sq, count)))
      decreases remaining
    {
      var next := Next(a, walking) as Square;
      RayStep(attacked', occupancy, a, walking, remaining, next);
      walking := next;
      attacked' := attacked' | Bit(walking);
      remaining := remaining - 1;
      if Has(occupancy, walking) {
        break;
      }
    }
  }

  // ---------------------------------------------------------------------------
  // attacked_by_plus and attacked_by_x
  // ---------------------------------------------------------------------------

  /** The squares a rook-like piece on (x, y) attacks on the board `occ`: right, left, lower and upper arm. */
  function PlusAttacks(x: bv8, y: bv8, occ: Bitboard): Bitboard
    requires x < 8 && y < 8
  {
    AddTargets(AddTargets(AddTargets(AddTargets(0,
      ArmRay(Right, x, y, occ)), ArmRay(Left, x, y, occ)), ArmRay(Down, x, y, occ)), ArmRay(Up, x, y, occ))
  }

  /** The squares a bishop-like piece on (x, y) attacks on the board `occ`: the four diagonal arms. */
  function XAttacks(x: bv8, y: bv8, occ: Bitboard): Bitboard
    requires x < 8 && y < 8
  {
    AddTargets(AddTargets(AddTargets(AddTargets(0,
      ArmRay(RightUp, x, y, occ)), ArmRay(RightDown, x, y, occ)), ArmRay(LeftDown, x, y, occ)), ArmRay(LeftUp, x, y, occ))
  }

  /** `unfold_occupancy_plus`: the occupancy index unfolded onto the plus relevant squares of `sq`. */
  method UnfoldOccupancyPlus(sq: Square, occupancy: Bitboard) returns (occ: Bitboard)
    ensures occ == Pdep(occupancy, PlusRelevant(File(sq), Rank(sq)))
  {
    occ := InversePext(occupancy, PlusRelevant(sq % 8, sq / 8));
  }

  /** `unfold_occupancy_x`: the occupancy index unfolded onto the x relevant squares of `sq`. */
  method UnfoldOccupancyX(sq: Square, occupancy: Bitboard) returns (occ: Bitboard)
    ensures occ == Pdep(occupancy, XRelevant(File(sq), Rank(sq)))
  {
    occ := InversePext(occupancy, XRelevant(sq % 8, sq / 8));
  }

  /** `attacked_by_plus`: the rook-like attacks from `sq` for the occupancy index `occupancy`. */
  method AttackedByPlus(sq: Square, occupancy: Bitboard) returns (attacked: Bitboard)
    ensures attacked == PlusAttacks(File(sq), Rank(sq), Pdep(occupancy, PlusRelevant(File(sq), Rank(sq))))
  {
    var occ := UnfoldOccupancyPlus(sq, occupancy);
    attacked := 0;
    var x, y := sq % 8, sq / 8;
    SquareOfCoordinates(sq);
    FitsReach(Right, x, y, sq);
    attacked := WalkArm(attacked, occ, sq, Right, 7 - x);
    FitsReach(Left, x, y, sq);
    attacked := WalkArm(attacked, occ, sq, Left, x);
    FitsReach(Down, x, y, sq);
    attacked := WalkArm(attacked, occ, sq, Down, y);
    FitsReach(Up, x, y, sq);
    attacked := WalkArm(attacked, occ, sq, Up, 7 - y);
  }

  /** `attacked_by_x`: the bishop-like attacks from `sq` for the occupancy index `occupancy`. */
  method AttackedByX(sq: Square, occupancy: Bitboard) returns (attacked: Bitboard)
    ensures attacked == XAttacks(File(sq), Rank(sq), Pdep(occupancy, XRelevant(File(sq), Rank(sq))))
  {
    var occ := UnfoldOccupancyX(sq, occupancy);
    attacked := 0;
    var x, y := sq % 8, sq / 8;
    SquareOfCoordinates(sq);
    FitsReach(RightUp, x, y, sq);
    attacked := WalkArm(attacked, occ, sq, RightUp, Min(7 - x, 7 - y));
    FitsReach(RightDown, x, y, sq);
    attacked := WalkArm(attacked, occ, sq, RightDown, Min(7 - x, y));
    FitsReach(LeftDown, x, y, sq);
    attacked := WalkArm(attacked, occ, sq, LeftDown, Min(x, y));
    FitsReach(LeftUp, x, y, sq);
    attacked := WalkArm(attacked, occ, sq, LeftUp, Min(x, 7 - y));
  }

  // ---------------------------------------------------------------------------
  // What the attack sets hold
  // ---------------------------------------------------------------------------

  /** (tx, ty) is on the arm `a` from (x, y) and no square strictly between is occupied. */
  ghost predicate ArmAttacks(a: Arm, x: bv8, y: bv8, occ: Bitboard, tx: bv8, ty: bv8)
    requires x < 8 && y < 8 && tx < 8 && ty < 8
  {
    OnArm(a, x, y, tx, ty) && Free(occ, Between(a, x, y, tx, ty))
  }

  /** Adding the targets of `w` to `p` is the union of `p` and the board of `w`. */
  lemma HasAddTargetsUnion(p: Bitboard, w: seq<Target>, t: Square)
    ensures Has(AddTargets(p, w), t) <==> Has(p, t) || Has(AddTargets(0, w), t)
  {
    HasAddTargets(p, w, t);
    HasAddTargets(0, w, t);
    HasZero(t);
  }

  /** A square is in the union of an arm's ray and `p` when it is in `p` or the arm attacks it. */
  lemma HasArmRay(p: Bitboard, a: Arm, x: bv8, y: bv8, occ: Bitboard, tx: bv8, ty: bv8)
    requires x < 8 && y < 8 && tx < 8 && ty < 8
    ensures Has(AddTargets(p, ArmRay(a, x, y, occ)), SquareOf(tx, ty))
      <==> Has(p, SquareOf(tx, ty)) || ArmAttacks(a, x, y, occ, tx, ty)
  {
    HasAddTargetsUnion(p, ArmRay(a, x, y, occ), SquareOf(tx, ty));
    ArmRayMembers(a, x, y, occ, tx, ty);
  }

  /** On the empty board an arm attacks all of its squares. */
  lemma ArmAttacksEmpty(a: Arm, x: bv8, y: bv8, tx: bv8, ty: bv8)
    requires x < 8 && y < 8 && tx < 8 && ty < 8
    ensures ArmAttacks(a, x, y, 0, tx, ty) <==> OnArm(a, x, y, tx, ty)
  {
    FreeOnEmpty(Between(a, x, y, tx, ty));
  }

  /** A square is in the union of two arms' rays and `p` when it is in `p` or one of the arms attacks it. */
  lemma HasTwoArms(p: Bitboard, a1: Arm, a2: Arm, x: bv8, y: bv8, occ: Bitboard, tx: bv8, ty: bv8)
    requires x < 8 && y < 8 && tx < 8 && ty < 8
    ensures Has(AddTargets(AddTargets(p, ArmRay(a1, x, y, occ)), ArmRay(a2, x, y, occ)), SquareOf(tx, ty))
      <==> Has(p, SquareOf(tx, ty)) || ArmAttacks(a1, x, y, occ, tx, ty) || ArmAttacks(a2, x, y, occ, tx, ty)
  {
    HasArmRay(p, a1, x, y, occ, tx, ty);
    HasArmRay(AddTargets(p, ArmRay(a1, x, y, occ)), a2, x, y, occ, tx, ty);
  }

  /** The union of four arms' rays holds exactly the squares one of the arms attacks. */
  lemma HasFourArms(a1: Arm, a2: Arm, a3: Arm, a4: Arm, x: bv8, y: bv8, occ: Bitboard, tx: bv8, ty: bv8)
    requires x < 8 && y < 8 && tx < 8 && ty < 8
    ensures Has(AddTargets(AddTargets(AddTargets(AddTargets(0,
        ArmRay(a1, x, y, occ)), ArmRay(a2, x, y, occ)), ArmRay(a3, x, y, occ)), ArmRay(a4, x, y, occ)), SquareOf(tx, ty))
      <==> (ArmAttacks(a1, x, y, occ, tx, ty) || ArmAttacks(a2, x, y, occ, tx, ty)
        || ArmAttacks(a3, x, y, occ, tx, ty) || ArmAttacks(a4, x, y, occ, tx, ty))
  {
    var p := AddTargets(AddTargets(0, ArmRay(a1, x, y, occ)), ArmRay(a2, x, y, occ));
    HasZero(SquareOf(tx, ty));
    HasTwoArms(0, a1, a2, x, y, occ, tx, ty);
    HasTwoArms(p, a3, a4, x, y, occ, tx, ty);
  }

  /** `attacked_by_plus` holds exactly the squares one of the four straight arms attacks. */
  lemma PlusAttacksMembers(x: bv8, y: bv8, occ: Bitboard, tx: bv8, ty: bv8)
    requires x < 8 && y < 8 && tx < 8 && ty < 8
    ensures Has(PlusAttacks(x, y, occ), SquareOf(tx, ty))
      <==> (ArmAttacks(Right, x, y, occ, tx, ty) || ArmAttacks(Left, x, y, occ, tx, ty)
        || ArmAttacks(Down, x, y, occ, tx, ty) || ArmAttacks(Up, x, y, occ, tx, ty))
  {
    HasFourArms(Right, Left, Down, Up, x, y, occ, tx, ty);
  }

  /** `attacked_by_x` holds exactly the squares one of the four diagonal arms attacks. */
  lemma XAttacksMembers(x: bv8, y: bv8, occ: Bitboard, tx: bv8, ty: bv8)
    requires x < 8 && y < 8 && tx < 8 && ty < 8
    ensures Has(XAttacks(x, y, occ), SquareOf(tx, ty))
      <==> (ArmAttacks(RightUp, x, y, occ, tx, ty) || ArmAttacks(RightDown, x, y, occ, tx, ty)
        || ArmAttacks(LeftDown, x, y, occ, tx, ty) || ArmAttacks(LeftUp, x, y, occ, tx, ty))
  {
    HasFourArms(RightUp, RightDown, LeftDown, LeftUp, x, y, occ, tx, ty);
  }

  /** The four straight arms cover the rank and file of (x, y), without (x, y). */
  lemma StraightArms(x: bv8, y: bv8, tx: bv8, ty: bv8)
    requires x < 8 && y < 8 && tx < 8 && ty < 8
    ensures OnArm(Right, x, y, tx, ty) || OnArm(Left, x, y, tx, ty) || OnArm(Down, x, y, tx, ty) || OnArm(Up, x, y, tx, ty)
      <==> (tx == x || ty == y) && (tx != x || ty != y)
  {
  }

  /** Each diagonal arm is one quadrant of the diagonals of (x, y). */
  lemma DiagonalArmRightUp(x: bv8, y: bv8, tx: bv8, ty: bv8)
    requires x < 8 && y < 8 && tx < 8 && ty < 8
    ensures OnArm(RightUp, x, y, tx, ty) <==> x < tx && y < ty && Dist(x, tx) == Dist(y, ty)
  {
  }

  lemma DiagonalArmRightDown(x: bv8, y: bv8, tx: bv8, ty: bv8)
    requires x < 8 && y < 8 && tx < 8 && ty < 8
    ensures OnArm(RightDown, x, y, tx, ty) <==> x < tx && ty < y && Dist(x, tx) == Dist(y, ty)
  {
  }

  lemma DiagonalArmLeftDown(x: bv8, y: bv8, tx: bv8, ty: bv8)
    requires x < 8 && y < 8 && tx < 8 && ty < 8
    ensures OnArm(LeftDown, x, y, tx, ty) <==> tx < x && ty < y && Dist(x, tx) == Dist(y, ty)
  {
  }

  lemma DiagonalArmLeftUp(x: bv8, y: bv8, tx: bv8, ty: bv8)
    requires x < 8 && y < 8 && tx < 8 && ty < 8
    ensures OnArm(LeftUp, x, y, tx, ty) <==> tx < x && y < ty && Dist(x, tx) == Dist(y, ty)
  {
  }

  /** Equal distances from (x, y) to another square put that square off both lines through (x, y). */
  lemma DiagonalOffLines(x: bv8, y: bv8, tx: bv8, ty: bv8)
    requires x < 8 && y < 8 && tx < 8 && ty < 8
    ensures Dist(x, tx) == Dist(y, ty) && (tx != x || ty != y) ==> tx != x && ty != y
  {
  }

  /** The four diagonal arms cover the diagonals of (x, y), without (x, y). */
  lemma DiagonalArms(x: bv8, y: bv8, tx: bv8, ty: bv8)
    requires x < 8 && y < 8 && tx < 8 && ty < 8
    ensures OnArm(RightUp, x, y, tx, ty) || OnArm(RightDown, x, y, tx, ty)
        || OnArm(LeftDown, x, y, tx, ty) || OnArm(LeftUp, x, y, tx, ty)
      <==> Dist(x, tx) == Dist(y, ty) && (tx != x || ty != y)
  {
    DiagonalArmRightUp(x, y, tx, ty);
    DiagonalArmRightDown(x, y, tx, ty);
    DiagonalArmLeftDown(x, y, tx, ty);
    DiagonalArmLeftUp(x, y, tx, ty);
    DiagonalOffLines(x, y, tx, ty);
  }

  /** Nothing is occupied on the empty board. */
  lemma FreeOnEmpty(b: Bitboard)
    ensures Free(0, b)
  {
    forall u: Square
      ensures !Has(0, u)
    {
      HasZero(u);
    }
  }

  /** A piece never attacks its own square. */
  lemma AttacksNotSelf(x: bv8, y: bv8, occ: Bitboard)
    requires x < 8 && y < 8
    ensures !Has(PlusAttacks(x, y, occ), SquareOf(x, y)) && !Has(XAttacks(x, y, occ), SquareOf(x, y))
  {
    PlusAttacksMembers(x, y, occ, x, y);
    XAttacksMembers(x, y, occ, x, y);
    StraightArms(x, y, x, y);
    DiagonalArms(x, y, x, y);
  }

  /** On the empty board a rook-like piece attacks its whole rank and file. */
  lemma PlusAttacksEmpty(x: bv8, y: bv8, tx: bv8, ty: bv8)
    requires x < 8 && y < 8 && tx < 8 && ty < 8
    ensures Has(PlusAttacks(x, y, 0), SquareOf(tx, ty)) <==> (tx == x || ty == y) && (tx != x || ty != y)
  {
    PlusAttacksMembers(x, y, 0, tx, ty);
    StraightArms(x, y, tx, ty);
    ArmAttacksEmpty(Right, x, y, tx, ty);
    ArmAttacksEmpty(Left, x, y, tx, ty);
    ArmAttacksEmpty(Down, x, y, tx, ty);
    ArmAttacksEmpty(Up, x, y, tx, ty);
  }

  /** On the empty board a bishop-like piece attacks both its diagonals. */
  lemma XAttacksEmpty(x: bv8, y: bv8, tx: bv8, ty: bv8)
    requires x < 8 && y < 8 && tx < 8 && ty < 8
    ensures Has(XAttacks(x, y, 0), SquareOf(tx, ty)) <==> Dist(x, tx) == Dist(y, ty) && (tx != x || ty != y)
  {
    XAttacksMembers(x, y, 0, tx, ty);
    DiagonalArms(x, y, tx, ty);
    ArmAttacksEmpty(RightUp, x, y, tx, ty);
    ArmAttacksEmpty(RightDown, x, y, tx, ty);
    ArmAttacksEmpty(LeftDown, x, y, tx, ty);
    ArmAttacksEmpty(LeftUp, x, y, tx, ty);
  }

  /** An arm attacks only squares on itself. */
  lemma ArmAttacksOnArm(a: Arm, x: bv8, y: bv8, occ: Bitboard, tx: bv8, ty: bv8)
    requires x < 8 && y < 8 && tx < 8 && ty < 8
    ensures ArmAttacks(a, x, y, occ, tx, ty) ==> OnArm(a, x, y, tx, ty)
  {
  }

  /** An attacked square lies on one of the arms. */
  lemma XAttacksOnArms(x: bv8, y: bv8, occ: Bitboard, tx: bv8, ty: bv8)
    requires x < 8 && y < 8 && tx < 8 && ty < 8
    ensures Has(XAttacks(x, y, occ), SquareOf(tx, ty)) ==>
      OnArm(RightUp, x, y, tx, ty) || OnArm(RightDown, x, y, tx, ty) || OnArm(LeftDown, x, y, tx, ty) || OnArm(LeftUp, x, y, tx, ty)
  {
    XAttacksMembers(x, y, occ, tx, ty);
    ArmAttacksOnArm(RightUp, x, y, occ, tx, ty);
    ArmAttacksOnArm(RightDown, x, y, occ, tx, ty);
    ArmAttacksOnArm(LeftDown, x, y, occ, tx, ty);
    ArmAttacksOnArm(LeftUp, x, y, occ, tx, ty);
  }

  lemma PlusAttacksOnArms(x: bv8, y: bv8, occ: Bitboard, tx: bv8, ty: bv8)
    requires x < 8 && y < 8 && tx < 8 && ty < 8
    ensures Has(PlusAttacks(x, y, occ), SquareOf(tx, ty)) ==>
      OnArm(Right, x, y, tx, ty) || OnArm(Left, x, y, tx, ty) || OnArm(Down, x, y, tx, ty) || OnArm(Up, x, y, tx, ty)
  {
    PlusAttacksMembers(x, y, occ, tx, ty);
    ArmAttacksOnArm(Right, x, y, occ, tx, ty);
    ArmAttacksOnArm(Left, x, y, occ, tx, ty);
    ArmAttacksOnArm(Down, x, y, occ, tx, ty);
    ArmAttacksOnArm(Up, x, y, occ, tx, ty);
  }

  /** Whatever the occupancy, a bishop-like piece attacks only squares on its diagonals other than its own. */
  lemma XAttacksOnDiagonals(x: bv8, y: bv8, occ: Bitboard, tx: bv8, ty: bv8)
    requires x < 8 && y < 8 && tx < 8 && ty < 8
    ensures Has(XAttacks(x, y, occ), SquareOf(tx, ty)) ==> Dist(x, tx) == Dist(y, ty) && (tx != x || ty != y)
  {
    XAttacksOnArms(x, y, occ, tx, ty);
    DiagonalArms(x, y, tx, ty);
  }

  /** Whatever the occupancy, a rook-like piece attacks only squares on its rank or file other than its own. */
  lemma PlusAttacksOnLines(x: bv8, y: bv8, occ: Bitboard, tx: bv8, ty: bv8)
    requires x < 8 && y < 8 && tx < 8 && ty < 8
    ensures Has(PlusAttacks(x, y, occ), SquareOf(tx, ty)) ==> (tx == x || ty == y) && (tx != x || ty != y)
  {
    PlusAttacksOnArms(x, y, occ, tx, ty);
    StraightArms(x, y, tx, ty);
  }

  /** Whatever the occupancy, a bishop-like piece attacks only squares of X_MASK other than its own. */
  lemma XAttacksWithinMask(x: bv8, y: bv8, occ: Bitboard, tx: bv8, ty: bv8)
    requires x < 8 && y < 8 && tx < 8 && ty < 8
    ensures Has(XAttacks(x, y, occ), SquareOf(tx, ty))
      ==> Has(XMask(x, y), SquareOf(tx, ty)) && (tx != x || ty != y)
  {
    XAttacksOnDiagonals(x, y, occ, tx, ty);
    XMaskMembers(x, y, tx, ty);
  }

  /** Whatever the occupancy, a rook-like piece attacks only squares of PLUS_MASK other than its own. */
  lemma PlusAttacksWithinMask(x: bv8, y: bv8, occ: Bitboard, tx: bv8, ty: bv8)
    requires x < 8 && y < 8 && tx < 8 && ty < 8
    ensures Has(PlusAttacks(x, y, occ), SquareOf(tx, ty))
      ==> Has(PlusMask(x, y), SquareOf(tx, ty)) && (tx != x || ty != y)
  {
    PlusAttacksOnLines(x, y, occ, tx, ty);
    PlusMaskMembers(x, y, tx, ty);
  }
}
