/** The optional value used for the driver's pending read destination. */
module Wrappers {

  datatype Option<+T> = None | Some(value: T)
}
