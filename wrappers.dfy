/** Option and Result, used for the values the game may not produce
    (no spawn cell, an empty level file). */
module Wrappers {
  datatype Option<+T> = None | Some(value: T)

  datatype Result<+T, +E> = Success(value: T) | Failure(error: E)
}
