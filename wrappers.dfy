/** Option, the stock wrapper for a value that may be missing (a `null` or an absent field). */
module Wrappers {

  datatype Option<+T> = None | Some(value: T)
}
