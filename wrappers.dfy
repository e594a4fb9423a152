/** The optional value used by reports that are produced only in some states. */
module Wrappers {
  datatype Option<+T> = None | Some(value: T)
}
