/** JavaScript's `undefined`/`null` results, as an option value. */
module Wrappers {
  datatype Option<+T> = None | Some(value: T)
}
