/** A value that may be absent: PHP's null, a missing row, a missing key. */
module Wrappers {
  datatype Option<T> = None | Some(value: T)
}
