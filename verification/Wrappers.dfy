/** The optional value used where the source returns a value with an error or an "ok" flag. */
module Wrappers {
  datatype Option<+T> = None | Some(value: T)
}
