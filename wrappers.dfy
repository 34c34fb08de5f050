/** The optional value used wherever the app's code has `undefined` or `null`. */
module Wrappers {

  datatype Option<+T> = None | Some(value: T)
}
