/** The optional-value datatype shared by the other modules. */
module Wrappers {

  /** Kotlin's nullable values: `None` plays the part of `null`. */
  datatype Option<+T> = None | Some(value: T)
}
