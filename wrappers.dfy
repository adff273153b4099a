/** The optional-value datatype used by the matcher. */
module Wrappers {

  datatype Option<+T> = None | Some(value: T)
}
