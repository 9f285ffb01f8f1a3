/** The optional values the rest of the model uses for Python's `None`. */
module Wrappers {
  datatype Option<+T> = None | Some(value: T)
}
