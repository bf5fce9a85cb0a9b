/**
 * The two ways a computation of the engine can end that are not a plain
 * value: a Rust `Option` and a panic.
 */
module Outcomes {

  datatype Option<T> = None | Some(value: T)

  /** A panic of the source, or the value it computes. */
  datatype Outcome<T> = Value(value: T) | Panicked
}
