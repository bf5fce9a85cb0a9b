/**
 * The side to move (`Player` in src/min_max.rs), shared by the chess
 * position and the search.
 */
module Players {

  /** `Player::None`, `Player::Black`, `Player::White`. */
  datatype Player = NoPlayer | Black | White

  /** `Player::swap`: Black and White trade places and `None` stays. */
  function Swap(p: Player): (q: Player)
    ensures p == Black <==> q == White
    ensures p == White <==> q == Black
    ensures p == NoPlayer <==> q == NoPlayer
  {
    match p
    case NoPlayer => NoPlayer
    case Black => White
    case White => Black
  }

  /** Swapping twice gives the player back. */
  lemma SwapInvolution(p: Player)
    ensures Swap(Swap(p)) == p
  {
  }
}
