/** The usual optional value, for JavaScript's `null` and for values that may be absent. */
module Wrappers {

  datatype Option<+T> = None | Some(value: T)
}
