/** The optional value shared by every module of the model (Python's `X | None`). */
module Wrappers {
  datatype Option<+T> = None | Some(value: T)
}
