/** The Option datatype shared by the other modules. */
module Wrappers {

  /** A value that may be absent: JavaScript's `undefined` where the source destructures
      past the end of an array or reads a missing property. */
  datatype Option<+T> = None | Some(value: T)
}
