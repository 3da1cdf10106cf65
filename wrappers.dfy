/** The optional value used for PHP's nullable arguments and settings. */
module Wrappers {
  datatype Option<+T> = None | Some(value: T)
}
