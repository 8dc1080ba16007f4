/** The optional-value datatype shared by the other modules. */
module Wrappers {

  /** A value that may be missing: a JavaScript field that is `undefined` or `null` is `None`. */
  datatype Option<+T> = None | Some(value: T)
}
