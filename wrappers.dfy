/** The optional value used where the proxy's Go code returns a value or nothing. */
module Wrappers {

  datatype Option<+T> = None | Some(value: T)
}
