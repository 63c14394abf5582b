/** The optional-value datatype used for the component's nullable state. */
module Wrappers {

  /** A value that may be absent: JavaScript's `null` or `undefined` become `None`. */
  datatype Option<+T> = None | Some(value: T)
}
