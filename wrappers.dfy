/** An optional value, standing for Go's nil-able results and pointers. */
module Wrappers {

  datatype Option<+T> = None | Some(value: T)
}
