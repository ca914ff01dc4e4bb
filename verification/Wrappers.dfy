/** Result types shared by the models. */
module Wrappers {

  /** A value that may be absent: the source's NULL pointers and None. */
  datatype Option<+T> = None | Some(value: T)
}
