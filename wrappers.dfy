/** The optional value that stands for Go's nil references and nil errors. */
module Wrappers {
  datatype Option<+T> = None | Some(value: T)
}
