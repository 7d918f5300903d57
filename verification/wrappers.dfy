/** The optional value used where the configuration may define nothing. */
module Wrappers {

  datatype Option<+T> = None | Some(value: T)
}
