/** The optional-value datatype used for missing or unparsable request fields. */
module Wrappers {
  datatype Option<+T> = None | Some(value: T)
}
