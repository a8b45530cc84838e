/** A value that may be absent: the model's stand-in for a null handle
    or for std::string::npos. */
module Wrappers {

  datatype Option<+T> = None | Some(value: T)
}
