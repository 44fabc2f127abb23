/** The optional value used wherever the C++ code uses a null pointer or an absent result. */
module Wrappers {
  datatype Option<+T> = None | Some(value: T)
}
