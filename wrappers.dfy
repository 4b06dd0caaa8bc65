/** The optional value used for parses and fetches that can fail. */
module Wrappers {
  datatype Option<+T> = None | Some(value: T)
}
