/** The optional value and the returned-or-raised outcome of a call into a player. */
module Outcomes {

  /** A value that may be absent (a player's memory starts as None). */
  datatype Option<T> = None | Some(value: T)

  /** What a call into code outside the model produced: a value, or an exception. */
  datatype Outcome<T> = Returned(value: T) | Raised
}
