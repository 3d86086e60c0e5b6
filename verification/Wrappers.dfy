/** A value that may be absent: Go's nil pointer, missing map key or unset field. */
module Wrappers {
  datatype Option<T> = None | Some(value: T)
}
