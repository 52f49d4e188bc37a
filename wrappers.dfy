/** The optional value used wherever JavaScript would produce `undefined`. */
module Wrappers {
  datatype Option<+T> = None | Some(value: T)
}
