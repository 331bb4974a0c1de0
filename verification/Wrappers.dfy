/** The usual optional value, in place of std::optional and of the npos sentinel. */
module Wrappers {
  datatype Option<+T> = None | Some(value: T)
}
