/** The optional-value datatype used across the model for values that the
    JavaScript source may leave `undefined`. */
module Wrappers {

  datatype Option<+T> = None | Some(value: T)
}
