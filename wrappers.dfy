/** An optional value, for the fields the CV record may leave out. */
module Wrappers {
  datatype Option<+T> = None | Some(value: T)
}
