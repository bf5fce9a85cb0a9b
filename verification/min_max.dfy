/**
 * The game-independent search of src/min_max.rs: the `TwoPlayerGame`
 * interface, `negamax` and `negamax_alpha_beta`, as functions of a game
 * state.
 *
 * Scores are `f32` in the source, but the search only negates, compares and
 * takes maxima of them, so they are exact integers here, with `f32::MIN` as
 * the starting value of every maximum.
 */
module MinMax {
  import opened Players
  import opened Outcomes

  /** `f32::MIN`, exactly. */
  const MinScore: int := -340282346638528859811704183484516925440

  /** What `eval` returns: a score from White's side and whether the game is over. */
  datatype Evaluation = Evaluation(value: int, done: bool)

  /** What a search returns: the value for the player to move and the action kept. */
  datatype Scored = Scored(value: int, action: Option<nat>)

  /**
   * A `TwoPlayerGame` as functions of its state.  `step` may panic.  `undo`
   * has no counterpart: after a child is searched the search goes on from
   * the state it stepped from, which is what `undo` gives back in a game
   * whose `undo` inverts `step`.
   */
  datatype Game<!S> = Game(
    currentPlayer: S -> Player,
    eval: S -> Evaluation,
    legalActions: S -> seq<nat>,
    step: (S, nat) -> Outcome<S>)

  /** `f32::max` on scores that are never NaN. */
  function Max(a: int, b: int): int {
    if a < b then b else a
  }

  function Min(a: int, b: int): int {
    if a < b then a else b
  }

  /**
   * The value of a finished or depth-0 state for the player to move: the
   * evaluation times +1 for White and -1 for Black; `Player::None` panics.
   */
  function LeafValue(p: Player, value: int): (r: Outcome<int>)
    ensures r.Panicked? <==> p == NoPlayer
    ensures p == White ==> r == Value(value)
    ensures p == Black ==> r == Value(-value)
  {
    match p
    case Black => Value(-value)
    case White => Value(value)
    case NoPlayer => Panicked
  }

  // ---------------------------------------------------------------------------
  // negamax
  // ---------------------------------------------------------------------------

  /** `negamax(game, depth)` started in state s. */
  function Negamax<S>(g: Game<S>, s: S, depth: nat): Outcome<Scored>
    decreases depth, 1
  {
    var e := g.eval(s);
    if depth == 0 || e.done then
      match LeafValue(g.currentPlayer(s), e.value)
      case Panicked => Panicked
      case Value(v) => Value(Scored(v, None))
    else
      Best(g, s, depth, g.legalActions(s), 0, MinScore, None)
  }

  /** `-negamax(game, depth - 1).0` after `step(a)`. */
  function Child<S>(g: Game<S>, s: S, depth: nat, a: nat): Outcome<int>
    requires 0 < depth
    decreases depth, 0, 0
  {
    match g.step(s, a)
    case Panicked => Panicked
    case Value(next) =>
      match Negamax(g, next, depth - 1)
      case Panicked => Panicked
      case Value(r) => Value(-r.value)
  }

  /**
   * The loop of `negamax` from the i-th action on, with the best value and
   * action so far: an action is kept only when it strictly improves the value.
   */
  function Best<S>(g: Game<S>, s: S, depth: nat, actions: seq<nat>, i: nat,
                   bestVal: int, bestAction: Option<nat>): Outcome<Scored>
    requires 0 < depth && i <= |actions|
    decreases depth, 0, |actions| - i + 1
  {
    if i == |actions| then Value(Scored(bestVal, bestAction))
    else
      match Child(g, s, depth, actions[i])
      case Panicked => Panicked
      case Value(v) =>
        var newVal := Max(bestVal, v);
        if newVal > bestVal then Best(g, s, depth, actions, i + 1, newVal, Some(actions[i]))
        else Best(g, s, depth, actions, i + 1, bestVal, bestAction)
  }

  // ---------------------------------------------------------------------------
  // negamax_alpha_beta
  // ---------------------------------------------------------------------------

  /** `negamax_alpha_beta(game, depth, alpha, beta)` started in state s. */
  function AlphaBeta<S>(g: Game<S>, s: S, depth: nat, alpha: int, beta: int): Outcome<Scored>
    decreases depth, 1
  {
    var e := g.eval(s);
    if depth == 0 || e.done then
      match LeafValue(g.currentPlayer(s), e.value)
      case Panicked => Panicked
      case Value(v) => Value(Scored(v, None))
    else
      BestCut(g, s, depth, g.legalActions(s), 0, MinScore, None, alpha, beta)
  }

  /** `-negamax_alpha_beta(game, depth - 1, -beta, -alpha).0` after `step(a)`. */
  function ChildCut<S>(g: Game<S>, s: S, depth: nat, a: nat, alpha: int, beta: int): Outcome<int>
    requires 0 < depth
    decreases depth, 0, 0
  {
    match g.step(s, a)
    case Panicked => Panicked
    case Value(next) =>
      match AlphaBeta(g, next, depth - 1, -beta, -alpha)
      case Panicked => Panicked
      case Value(r) => Value(-r.value)
  }

  /**
   * The loop of `negamax_alpha_beta` from the i-th action on: alpha rises to
   * the best value, and the loop stops after the first child that brings
   * alpha up to beta.
   */
  function BestCut<S>(g: Game<S>, s: S, depth: nat, actions: seq<nat>, i: nat,
                      bestVal: int, bestAction: Option<nat>, alpha: int, beta: int): Outcome<Scored>
    requires 0 < depth && i <= |actions|
    decreases depth, 0, |actions| - i + 1
  {
    if i == |actions| then Value(Scored(bestVal, bestAction))
    else
      match ChildCut(g, s, depth, actions[i], alpha, beta)
      case Panicked => Panicked
      case Value(v) =>
        var newVal := Max(bestVal, v);
        var newAlpha := Max(alpha, newVal);
        var val := if newVal > bestVal then newVal else bestVal;
        var act := if newVal > bestVal then Some(actions[i]) else bestAction;
        if newAlpha >= beta then Value(Scored(val, act))
        else BestCut(g, s, depth, actions, i + 1, val, act, newAlpha, beta)
  }

  // ---------------------------------------------------------------------------
  // negamax is a maximum with the first-best tie rule
  // ---------------------------------------------------------------------------

  /** The loop never lowers the best value. */
  lemma {:induction false} BestAtLeast<S>(g: Game<S>, s: S, depth: nat, actions: seq<nat>, i: nat,
                                          bestVal: int, bestAction: Option<nat>)
    requires 0 < depth && i <= |actions|
    requires Best(g, s, depth, actions, i, bestVal, bestAction).Value?
    ensures Best(g, s, depth, actions, i, bestVal, bestAction).value.value >= bestVal
    decreases |actions| - i
  {
    if i < |actions| {
      var v := Child(g, s, depth, actions[i]).value;
      if Max(bestVal, v) > bestVal {
        BestAtLeast(g, s, depth, actions, i + 1, Max(bestVal, v), Some(actions[i]));
      } else {
        BestAtLeast(g, s, depth, actions, i + 1, bestVal, bestAction);
      }
    }
  }

  /** From index i on, every child is searched and none beats the value returned. */
  lemma {:induction false} BestBoundsChildren<S>(g: Game<S>, s: S, depth: nat, actions: seq<nat>, i: nat,
                                                 bestVal: int, bestAction: Option<nat>)
    requires 0 < depth && i <= |actions|
    requires Best(g, s, depth, actions, i, bestVal, bestAction).Value?
    ensures forall k :: i <= k < |actions| ==> Child(g, s, depth, actions[k]).Value?
    ensures forall k :: i <= k < |actions| ==>
      Child(g, s, depth, actions[k]).value <= Best(g, s, depth, actions, i, bestVal, bestAction).value.value
    decreases |actions| - i
  {
    if i < |actions| {
      var v := Child(g, s, depth, actions[i]).value;
      if Max(bestVal, v) > bestVal {
        BestBoundsChildren(g, s, depth, actions, i + 1, v, Some(actions[i]));
        BestAtLeast(g, s, depth, actions, i + 1, v, Some(actions[i]));
      } else {
        BestBoundsChildren(g, s, depth, actions, i + 1, bestVal, bestAction);
        BestAtLeast(g, s, depth, actions, i + 1, bestVal, bestAction);
      }
    }
  }

  /**
   * From index i on, the value returned is bestVal, with bestAction kept, or
   * the value of a child; in the second case the action kept is the first
   * one whose child has that value.
   */
  lemma {:induction false} BestKeepsFirst<S>(g: Game<S>, s: S, depth: nat, actions: seq<nat>, i: nat,
                                             bestVal: int, bestAction: Option<nat>)
    requires 0 < depth && i <= |actions|
    requires Best(g, s, depth, actions, i, bestVal, bestAction).Value?
    ensures var r := Best(g, s, depth, actions, i, bestVal, bestAction).value;
      || (r.value == bestVal && r.action == bestAction)
      || (r.value > bestVal && exists k :: i <= k < |actions| && FirstWith(g, s, depth, actions, i, k, r))
    decreases |actions| - i
  {
    if i < |actions| {
      var v := Child(g, s, depth, actions[i]).value;
      var r := Best(g, s, depth, actions, i, bestVal, bestAction).value;
      if Max(bestVal, v) > bestVal {
        BestKeepsFirst(g, s, depth, actions, i + 1, v, Some(actions[i]));
        if r.value == v {
          assert FirstWith(g, s, depth, actions, i, i, r);
        } else {
          var k :| i + 1 <= k < |actions| && FirstWith(g, s, depth, actions, i + 1, k, r);
          assert FirstWith(g, s, depth, actions, i, k, r);
        }
      } else {
        BestKeepsFirst(g, s, depth, actions, i + 1, bestVal, bestAction);
        if r.value > bestVal {
          var k :| i + 1 <= k < |actions| && FirstWith(g, s, depth, actions, i + 1, k, r);
          assert FirstWith(g, s, depth, actions, i, k, r);
        }
      }
    }
  }

  /**
   * Action k is kept with value r: its child has value r.value and every
   * child from index i up to k has a smaller one.
   */
  predicate FirstWith<S>(g: Game<S>, s: S, depth: nat, actions: seq<nat>, i: nat, k: nat, r: Scored)
    requires 0 < depth && i <= k < |actions|
  {
    && r.action == Some(actions[k])
    && Child(g, s, depth, actions[k]) == Value(r.value)
    && forall j :: i <= j < k ==> Child(g, s, depth, actions[j]).Value? && Child(g, s, depth, actions[j]).value < r.value
  }

  /**
   * Away from a leaf, `negamax` returns the maximum of `f32::MIN` and the
   * negated child values.  It keeps no action when no child value exceeds
   * `f32::MIN`, in particular when there are no legal actions, and
   * otherwise the first action whose child value is that maximum.
   */
  lemma NegamaxIsFirstMaximum<S>(g: Game<S>, s: S, depth: nat)
    requires 0 < depth && !g.eval(s).done
    requires Negamax(g, s, depth).Value?
    ensures var r := Negamax(g, s, depth).value;
      var actions := g.legalActions(s);
      && (forall k :: 0 <= k < |actions| ==> Child(g, s, depth, actions[k]).Value?)
      && (forall k :: 0 <= k < |actions| ==> Child(g, s, depth, actions[k]).value <= r.value)
      && MinScore <= r.value
      && (r.action.None? <==> r.value == MinScore)
      && (r.value > MinScore ==> exists k :: 0 <= k < |actions| && FirstWith(g, s, depth, actions, 0, k, r))
  {
    BestBoundsChildren(g, s, depth, g.legalActions(s), 0, MinScore, None);
    BestAtLeast(g, s, depth, g.legalActions(s), 0, MinScore, None);
    BestKeepsFirst(g, s, depth, g.legalActions(s), 0, MinScore, None);
  }

  // ---------------------------------------------------------------------------
  // alpha-beta agrees with negamax
  // ---------------------------------------------------------------------------

  /** x limited to the window [lo, hi]. */
  function Clamp(x: int, lo: int, hi: int): int {
    Max(lo, Min(x, hi))
  }

  /** Negating a value mirrors the window. */
  lemma ClampNegate(x: int, lo: int, hi: int)
    requires lo <= hi
    ensures Clamp(-x, lo, hi) == -Clamp(x, -hi, -lo)
  {
  }

  /**
   * The Knuth-Moore property of fail-soft alpha-beta: whenever alpha < beta,
   * `negamax_alpha_beta` and `negamax` agree once both are limited to the
   * window, and alpha-beta panics only where negamax does.
   */
  lemma {:induction false} AlphaBetaAgrees<S>(g: Game<S>, s: S, depth: nat, alpha: int, beta: int)
    requires alpha < beta
    requires Negamax(g, s, depth).Value?
    ensures AlphaBeta(g, s, depth, alpha, beta).Value?
    ensures Clamp(AlphaBeta(g, s, depth, alpha, beta).value.value, alpha, beta)
         == Clamp(Negamax(g, s, depth).value.value, alpha, beta)
    decreases depth, 1
  {
    if depth != 0 && !g.eval(s).done {
      BestCutAgrees(g, s, depth, g.legalActions(s), 0, MinScore, None, alpha, MinScore, None, alpha, beta);
    }
  }

  /** One child: the alpha-beta value and the negamax value agree in the window [a, beta]. */
  lemma {:induction false} ChildCutAgrees<S>(g: Game<S>, s: S, depth: nat, x: nat, a: int, beta: int)
    requires 0 < depth && a < beta
    requires Child(g, s, depth, x).Value?
    ensures ChildCut(g, s, depth, x, a, beta).Value?
    ensures Clamp(ChildCut(g, s, depth, x, a, beta).value, a, beta) == Clamp(Child(g, s, depth, x).value, a, beta)
    decreases depth, 0, 0
  {
    var next := g.step(s, x).value;
    AlphaBetaAgrees(g, next, depth - 1, -beta, -a);
    ClampNegate(AlphaBeta(g, next, depth - 1, -beta, -a).value.value, a, beta);
    ClampNegate(Negamax(g, next, depth - 1).value.value, a, beta);
  }

  /**
   * The two loops side by side: alpha-beta has reached value cutVal with
   * alpha a, negamax value bestVal; the window view of both is the same and
   * a lies between the original alpha and that view.
   */
  lemma {:induction false} BestCutAgrees<S>(g: Game<S>, s: S, depth: nat, actions: seq<nat>, i: nat,
                                            cutVal: int, cutAction: Option<nat>, a: int,
                                            bestVal: int, bestAction: Option<nat>, alpha: int, beta: int)
    requires 0 < depth && i <= |actions|
    requires alpha <= a < beta && a <= Clamp(cutVal, alpha, beta)
    requires Clamp(cutVal, alpha, beta) == Clamp(bestVal, alpha, beta)
    requires Best(g, s, depth, actions, i, bestVal, bestAction).Value?
    ensures BestCut(g, s, depth, actions, i, cutVal, cutAction, a, beta).Value?
    ensures Clamp(BestCut(g, s, depth, actions, i, cutVal, cutAction, a, beta).value.value, alpha, beta)
         == Clamp(Best(g, s, depth, actions, i, bestVal, bestAction).value.value, alpha, beta)
    decreases depth, 0, |actions| - i + 1
  {
    if i < |actions| {
      var x := actions[i];
      ChildCutAgrees(g, s, depth, x, a, beta);
      var c := ChildCut(g, s, depth, x, a, beta).value;
      var m := Child(g, s, depth, x).value;
      var newCut := Max(cutVal, c);
      var newAlpha := Max(a, newCut);
      var newBest := Max(bestVal, m);
      var cutAct := if newCut > cutVal then Some(x) else cutAction;
      var bestAct := if newBest > bestVal then Some(x) else bestAction;
      WindowStep(cutVal, bestVal, c, m, a, alpha, beta);
      if newAlpha >= beta {
        BestAtLeast(g, s, depth, actions, i + 1, newBest, bestAct);
      } else {
        BestCutAgrees(g, s, depth, actions, i + 1, newCut, cutAct, newAlpha, newBest, bestAct, alpha, beta);
      }
    }
  }

  /** The arithmetic of one step of the two loops. */
  lemma WindowStep(cutVal: int, bestVal: int, c: int, m: int, a: int, alpha: int, beta: int)
    requires alpha <= a < beta && a <= Clamp(cutVal, alpha, beta)
    requires Clamp(cutVal, alpha, beta) == Clamp(bestVal, alpha, beta)
    requires Clamp(c, a, beta) == Clamp(m, a, beta)
    ensures Clamp(Max(cutVal, c), alpha, beta) == Clamp(Max(bestVal, m), alpha, beta)
    ensures Max(a, Max(cutVal, c)) <= Clamp(Max(cutVal, c), alpha, beta) || Max(a, Max(cutVal, c)) >= beta
    ensures Max(a, Max(cutVal, c)) >= beta ==> Max(bestVal, m) >= beta
  {
  }

  /** With a window that holds the negamax value, alpha-beta returns exactly that value. */
  lemma AlphaBetaExact<S>(g: Game<S>, s: S, depth: nat, alpha: int, beta: int)
    requires Negamax(g, s, depth).Value?
    requires alpha < Negamax(g, s, depth).value.value < beta
    ensures AlphaBeta(g, s, depth, alpha, beta).Value?
    ensures AlphaBeta(g, s, depth, alpha, beta).value.value == Negamax(g, s, depth).value.value
  {
    AlphaBetaAgrees(g, s, depth, alpha, beta);
  }

  // ---------------------------------------------------------------------------
  // Games whose states stay valid
  // ---------------------------------------------------------------------------

  /**
   * The states in inv have a player to move and an evaluation between
   * `f32::MIN` and `f32::MAX`, and their legal actions step without a panic
   * to states in inv.
   */
  ghost predicate Closed<S(!new)>(g: Game<S>, inv: S -> bool) {
    forall s :: inv(s) ==>
      && g.currentPlayer(s) != NoPlayer
      && MinScore <= g.eval(s).value <= -MinScore
      && forall a :: a in g.legalActions(s) ==> g.step(s, a).Value? && inv(g.step(s, a).value)
  }

  /** In such a game `negamax` never panics and its value lies between `f32::MIN` and `f32::MAX`. */
  lemma {:induction false} NegamaxNeverPanics<S(!new)>(g: Game<S>, inv: S -> bool, s: S, depth: nat)
    requires Closed(g, inv) && inv(s)
    ensures Negamax(g, s, depth).Value?
    ensures MinScore <= Negamax(g, s, depth).value.value <= -MinScore
    decreases depth, 1
  {
    if depth > 0 && !g.eval(s).done {
      BestNeverPanics(g, inv, s, depth, 0, MinScore, None);
    }
  }

  lemma {:induction false} BestNeverPanics<S(!new)>(g: Game<S>, inv: S -> bool, s: S, depth: nat, i: nat,
                                              bestVal: int, bestAction: Option<nat>)
    requires Closed(g, inv) && inv(s) && 0 < depth && i <= |g.legalActions(s)|
    requires MinScore <= bestVal <= -MinScore
    ensures Best(g, s, depth, g.legalActions(s), i, bestVal, bestAction).Value?
    ensures MinScore <= Best(g, s, depth, g.legalActions(s), i, bestVal, bestAction).value.value <= -MinScore
    decreases depth, 0, |g.legalActions(s)| - i + 1
  {
    var actions := g.legalActions(s);
    if i < |actions| {
      var x := actions[i];
      assert x in g.legalActions(s);
      NegamaxNeverPanics(g, inv, g.step(s, x).value, depth - 1);
      var v := Child(g, s, depth, x).value;
      if Max(bestVal, v) > bestVal {
        BestNeverPanics(g, inv, s, depth, i + 1, Max(bestVal, v), Some(x));
      } else {
        BestNeverPanics(g, inv, s, depth, i + 1, bestVal, bestAction);
      }
    }
  }

  // ---------------------------------------------------------------------------
  // One iteration of the search loops
  // ---------------------------------------------------------------------------

  /** `negamax` from s to the given depth returns r. */
  predicate Searched<S>(g: Game<S>, s: S, depth: nat, r: Scored) {
    Negamax(g, s, depth) == Value(r)
  }

  /** `negamax_alpha_beta` from s to the given depth within (alpha, beta) returns r. */
  predicate CutSearched<S>(g: Game<S>, s: S, depth: nat, alpha: int, beta: int, r: Scored) {
    AlphaBeta(g, s, depth, alpha, beta) == Value(r)
  }

  /** The child reached by action a is worth v to the player at s. */
  predicate ChildWorth<S>(g: Game<S>, s: S, depth: nat, a: nat, v: int)
    requires 0 < depth
  {
    Child(g, s, depth, a) == Value(v)
  }

  /** A child's value is the negated value of the state its action steps to. */
  lemma ChildValue<S>(g: Game<S>, s: S, depth: nat, a: nat, next: S, r: Scored)
    requires 0 < depth && g.step(s, a) == Value(next) && Searched(g, next, depth - 1, r)
    ensures ChildWorth(g, s, depth, a, -r.value)
  {
  }

  /** The same for the children of alpha-beta, searched with the window negated and swapped. */
  lemma ChildCutValue<S>(g: Game<S>, s: S, depth: nat, a: nat, alpha: int, beta: int, next: S, r: Scored)
    requires 0 < depth && g.step(s, a) == Value(next) && CutSearched(g, next, depth - 1, -beta, -alpha, r)
    ensures ChildCut(g, s, depth, a, alpha, beta) == Value(-r.value)
  {
  }

  /** The i-th iteration of `negamax`'s loop, once the child's value is known. */
  lemma BestIteration<S>(g: Game<S>, s: S, depth: nat, actions: seq<nat>, i: nat,
                         bestVal: int, bestAction: Option<nat>, v: int)
    requires 0 < depth && i < |actions| && ChildWorth(g, s, depth, actions[i], v)
    ensures Best(g, s, depth, actions, i, bestVal, bestAction)
         == if Max(bestVal, v) > bestVal
            then Best(g, s, depth, actions, i + 1, Max(bestVal, v), Some(actions[i]))
            else Best(g, s, depth, actions, i + 1, bestVal, bestAction)
  {
  }

  /** The i-th iteration of `negamax_alpha_beta`'s loop, once the child's value is known. */
  lemma BestCutIteration<S>(g: Game<S>, s: S, depth: nat, actions: seq<nat>, i: nat,
                            bestVal: int, bestAction: Option<nat>, alpha: int, beta: int, v: int)
    requires 0 < depth && i < |actions| && ChildCut(g, s, depth, actions[i], alpha, beta) == Value(v)
    ensures
      var newVal := Max(bestVal, v);
      var val := if newVal > bestVal then newVal else bestVal;
      var act := if newVal > bestVal then Some(actions[i]) else bestAction;
      BestCut(g, s, depth, actions, i, bestVal, bestAction, alpha, beta)
        == (if Max(alpha, newVal) >= beta then Value(Scored(val, act))
            else BestCut(g, s, depth, actions, i + 1, val, act, Max(alpha, newVal), beta))
  {
  }
}
