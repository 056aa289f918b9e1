/** The optional value used for JSON nulls, missing files and caught exceptions. */
module Wrappers {

  datatype Option<+T> = None | Some(value: T)
}
