/** The optional value used throughout the model for JavaScript's
    "present or undefined/null" distinction. */
module Wrappers {
  datatype Option<+T> = None | Some(value: T)
}
