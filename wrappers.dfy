/** Option, standing for the not-a-number results of the source's float code. */
module Wrappers {

  datatype Option<+T> = None | Some(value: T)
}
