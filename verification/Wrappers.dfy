/** A value or none, for the source's optionals. */
module Wrappers {

  datatype Option<+T> = None | Some(value: T)
}
