/** The optional-value datatype used for computations that can fail. */
module Wrappers {

  datatype Option<+T> = None | Some(value: T)
}
