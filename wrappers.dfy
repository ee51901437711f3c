/** The optional value used for `std::string::npos` results and absent game paths. */
module Wrappers {
  datatype Option<T> = None | Some(value: T)
}
