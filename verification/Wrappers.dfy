/** The optional value used throughout the model for `null`, `undefined` and absent keys. */
module Wrappers {
  datatype Option<+T> = None | Some(value: T)
}
