/** The optional-value wrapper the model needs. */
module Wrappers {

  /** A value that may be absent: `None` plays the role of Python's `None`. */
  datatype Option<+T> = None | Some(value: T)
}
