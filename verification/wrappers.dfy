/** Failure-compatible wrappers standing for Java's `null` results and thrown index errors. */
module Wrappers {

  /** A value or nothing; `None` stands for a `null` return in the game code. */
  datatype Option<+T> = None | Some(value: T)

  /** A value or an out-of-range failure; `OutOfBounds` stands for an
      `IndexOutOfBoundsException` thrown by a grid accessor. */
  datatype Result<+T> = Ok(value: T) | OutOfBounds
}
