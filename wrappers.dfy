/** An optional value: JavaScript's `null` / `undefined` for a value that may be absent. */
module Wrappers {
  datatype Option<+T> = None | Some(value: T)
}
