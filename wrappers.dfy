/** The optional-value type used wherever the JavaScript source has `undefined`. */
module Wrappers {

  datatype Option<+T> = None | Some(value: T)
}
