/** The usual optional-value wrapper, used for JavaScript's `undefined` fields and for "no side effect". */
module Wrappers {
  datatype Option<+T> = None | Some(value: T)
}
