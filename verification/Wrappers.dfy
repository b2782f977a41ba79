/** The optional value used wherever the compiler returns a nullable pointer or `std::optional`. */
module Wrappers {
  datatype Option<+T> = None | Some(value: T)
}
