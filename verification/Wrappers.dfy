/** The stand-in for `std::optional` and for pointers that may be null. */
module Wrappers {
  datatype Option<+T> = None | Some(value: T)
}
