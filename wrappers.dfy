/** The optional value used for nullable columns and files that may not exist. */
module Wrappers {
  datatype Option<+T> = None | Some(value: T)
}
