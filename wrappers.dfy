/** A value that may be absent: a nullable image handle, a refused export. */
module Wrappers {
  datatype Option<+T> = None | Some(value: T)
}
