/** Option: a JavaScript value that may be `false`/`undefined` instead of a real one. */
module Wrappers {
  datatype Option<+T> = None | Some(value: T)
}
