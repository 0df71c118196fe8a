/** The optional value used across the model: a null pointer, a missing
    association or the end-of-file character. */
module Wrappers {
  datatype Option<+T> = None | Some(value: T)
}
