/** Result and option types shared by every component. */
module Wrappers {
  datatype Option<+T> = None | Some(value: T)

  /** Raised stands for a Python exception leaving the call. */
  datatype Result<+T, +E> = Returned(value: T) | Raised(error: E)
}
