/** The Option type used where the source returns an `Option` or where a lookup can fail. */
module Wrappers {
  datatype Option<+T> = None | Some(value: T)
}
