/** The datatype that stands for the source's nil pointers and absent results. */
module Wrappers {
  datatype Option<+T> = None | Some(value: T)
}
