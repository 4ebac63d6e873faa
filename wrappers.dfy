/** Small failure-carrying datatypes shared by the stores. */
module Wrappers {

  /** A value or its absence; the stores' `T | null`. */
  datatype Option<+T> = None | Some(value: T)

  /** Success, or a failure carrying an error; a thrown error in the program. */
  datatype Outcome<+E> = Pass | Fail(error: E)
}
