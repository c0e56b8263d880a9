/** The optional value used for results that the C code leaves undefined. */
module Wrappers {

  datatype Option<+T> = None | Some(value: T)
}
