/** The optional-value datatype used by the path and filesystem models. */
module Wrappers {

  datatype Option<+T> = None | Some(value: T)
}
