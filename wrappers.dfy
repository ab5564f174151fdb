/** The optional value used for a streamed delta that may be absent and for a driver run
    that ends without a result. */
module Wrappers {

  datatype Option<+T> = None | Some(value: T)
}
