/** Option, as used for every fallible step of the model. */
module Wrappers {
  datatype Option<+T> = None | Some(value: T)
}
