/** The optional value shared by every model of this project. */
module Wrappers {
  datatype Option<+T> = None | Some(value: T)
}
