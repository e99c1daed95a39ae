/** The optional value used for partial evaluations and for a non-blocking `get`. */
module Wrappers {

  datatype Option<+T> = None | Some(value: T)
}
