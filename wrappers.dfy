/** A value that may be missing: JavaScript's `null` / `undefined`, or an absent field. */
module Wrappers {
  datatype Option<+T> = None | Some(value: T)
}
