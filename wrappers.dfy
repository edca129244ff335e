/** An optional value, for JavaScript's `undefined` and `null` results. */
module Wrappers {

  datatype Option<+T> = None | Some(value: T)
}
