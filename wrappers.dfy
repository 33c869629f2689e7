/** The optional value returned by the JSON decoding oracle. */
module Wrappers {

  datatype Option<+T> = None | Some(value: T)

}
