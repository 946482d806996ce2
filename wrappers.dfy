/** The Python `None` / value convention used throughout the model. */
module Wrappers {

  /** `None` is Python's `None`; `Some(v)` is any other value `v`. */
  datatype Option<+T> = None | Some(value: T)
}
