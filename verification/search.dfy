/**
 * `negamax` and `negamax_alpha_beta` of src/min_max.rs run on a `Connect4`:
 * each child is searched by stepping the game in place, recursing and
 * undoing the step.  Both searches leave the game as they found it and
 * return what the search functions of MinMax compute for its state.
 */
module Search {
  import opened Players
  import opened Outcomes
  import MinMax
  import opened Connect4Rules
  import opened Connect4

  /** Every action of the list can be stepped from s. */
  predicate Steppable(s: Connect4State, actions: seq<nat>) {
    forall k :: 0 <= k < |actions| ==> StepSpec(s, actions[k]).Value?
  }

  /** The legal actions can be stepped from a valid state. */
  lemma LegalSteppable(s: Connect4State)
    requires ValidState(s)
    ensures Steppable(s, LegalColumns(s.grid))
  {
    var actions := LegalColumns(s.grid);
    forall k | 0 <= k < |actions|
      ensures StepSpec(s, actions[k]).Value?
    {
      LegalColumnSteps(s, actions[k]);
    }
  }

  /**
   * `negamax(game, depth)`: the leaf score for the player to move, or the
   * first legal action whose child has the greatest negated value.
   */
  method Negamax(game: Connect4, depth: nat) returns (value: int, action: Option<nat>)
    requires ValidState(game.State())
    modifies game
    ensures game.State() == old(game.State())
    ensures MinMax.Searched(Connect4Game(), old(game.State()), depth, MinMax.Scored(value, action))
    decreases depth, 2
  {
    ghost var s := game.State();
    var e := game.Eval();
    if depth == 0 || e.done {
      var coeff := if game.currentPlayer == Black then -1 else 1;
      return coeff * e.value, None;
    }
    var actions := game.LegalActions();
    LegalSteppable(s);
    value, action := NegamaxLoop(game, depth, actions);
  }

  /**
   * The loop of `negamax` over the legal actions: each child's negated value
   * replaces the best so far, and its action the best action, when greater.
   */
  method NegamaxLoop(game: Connect4, depth: nat, actions: seq<nat>) returns (value: int, action: Option<nat>)
    requires ValidState(game.State()) && 0 < depth && Steppable(game.State(), actions)
    modifies game
    ensures game.State() == old(game.State())
    ensures MinMax.Best(Connect4Game(), old(game.State()), depth, actions, 0, MinMax.MinScore, None)
         == Value(MinMax.Scored(value, action))
    decreases depth, 1
  {
    ghost var s := game.State();
    value, action := MinMax.MinScore, None;
    var i := 0;
    while i < |actions|
      invariant i <= |actions|
      invariant game.State() == s
      invariant MinMax.Best(Connect4Game(), s, depth, actions, 0, MinMax.MinScore, None)
             == MinMax.Best(Connect4Game(), s, depth, actions, i, value, action)
    {
      var a := actions[i];
      var v := NegamaxChild(game, depth, a);
      MinMax.BestIteration(Connect4Game(), s, depth, actions, i, value, action, v);
      var newVal := MinMax.Max(value, v);
      if newVal > value {
        value := newVal;
        action := Some(a);
      }
      i := i + 1;
    }
  }

  /** One pass of `negamax`'s loop: `step(action)`, the search one level down, `undo()`. */
  method NegamaxChild(game: Connect4, depth: nat, a: nat) returns (v: int)
    requires ValidState(game.State()) && 0 < depth && StepSpec(game.State(), a).Value?
    modifies game
    ensures game.State() == old(game.State())
    ensures MinMax.ChildWorth(Connect4Game(), old(game.State()), depth, a, v)
    decreases depth, 0
  {
    ghost var s := game.State();
    NextValid(s, a);
    UndoStep(s, a);
    game.Step(a);
    var value, childAction := Negamax(game, depth - 1);
    MinMax.ChildValue(Connect4Game(), s, depth, a, StepSpec(s, a).value, MinMax.Scored(value, childAction));
    game.Undo();
    v := -value;
  }

  /**
   * `negamax_alpha_beta(game, depth, alpha, beta)`: as `negamax`, but each
   * child is searched within (-beta, -alpha), alpha rises to the best value
   * and the loop stops once alpha reaches beta.
   */
  method NegamaxAlphaBeta(game: Connect4, depth: nat, alpha: int, beta: int) returns (value: int, action: Option<nat>)
    requires ValidState(game.State())
    modifies game
    ensures game.State() == old(game.State())
    ensures MinMax.CutSearched(Connect4Game(), old(game.State()), depth, alpha, beta, MinMax.Scored(value, action))
    decreases depth, 2
  {
    ghost var s := game.State();
    var e := game.Eval();
    if depth == 0 || e.done {
      var coeff := if game.currentPlayer == Black then -1 else 1;
      return coeff * e.value, None;
    }
    var actions := game.LegalActions();
    LegalSteppable(s);
    value, action := AlphaBetaLoop(game, depth, actions, alpha, beta);
  }

  /**
   * The loop of `negamax_alpha_beta`: as `negamax`'s, raising alpha to each
   * new value and leaving the loop once alpha reaches beta.
   */
  method AlphaBetaLoop(game: Connect4, depth: nat, actions: seq<nat>, alpha: int, beta: int)
    returns (value: int, action: Option<nat>)
    requires ValidState(game.State()) && 0 < depth && Steppable(game.State(), actions)
    modifies game
    ensures game.State() == old(game.State())
    ensures MinMax.BestCut(Connect4Game(), old(game.State()), depth, actions, 0, MinMax.MinScore, None, alpha, beta)
         == Value(MinMax.Scored(value, action))
    decreases depth, 1
  {
    ghost var s := game.State();
    value, action := MinMax.MinScore, None;
    var a := alpha;
    var i := 0;
    while i < |actions|
      invariant i <= |actions|
      invariant game.State() == s
      invariant MinMax.BestCut(Connect4Game(), s, depth, actions, 0, MinMax.MinScore, None, alpha, beta)
             == MinMax.BestCut(Connect4Game(), s, depth, actions, i, value, action, a, beta)
    {
      var x := actions[i];
      var v := AlphaBetaChild(game, depth, x, a, beta);
      MinMax.BestCutIteration(Connect4Game(), s, depth, actions, i, value, action, a, beta, v);
      var newVal := MinMax.Max(value, v);
      a := MinMax.Max(a, newVal);
      if newVal > value {
        value := newVal;
        action := Some(x);
      }
      if a >= beta {
        return;
      }
      i := i + 1;
    }
  }

  /** One pass of `negamax_alpha_beta`'s loop: the child is searched within (-beta, -alpha). */
  method AlphaBetaChild(game: Connect4, depth: nat, x: nat, alpha: int, beta: int) returns (v: int)
    requires ValidState(game.State()) && 0 < depth && StepSpec(game.State(), x).Value?
    modifies game
    ensures game.State() == old(game.State())
    ensures MinMax.ChildCut(Connect4Game(), old(game.State()), depth, x, alpha, beta) == Value(v)
    decreases depth, 0
  {
    ghost var s := game.State();
    NextValid(s, x);
    UndoStep(s, x);
    game.Step(x);
    var value, childAction := NegamaxAlphaBeta(game, depth - 1, -beta, -alpha);
    MinMax.ChildCutValue(Connect4Game(), s, depth, x, alpha, beta, StepSpec(s, x).value, MinMax.Scored(value, childAction));
    game.Undo();
    v := -value;
  }
}
