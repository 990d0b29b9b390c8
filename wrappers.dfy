/** A value that may be absent: SQL NULL, a missing JSON field, a missing header. */
module Wrappers {

  datatype Option<+T> = None | Some(value: T)
}
