/** The usual optional value, for the absent header and the verifier's answer. */
module Wrappers {
  datatype Option<+T> = None | Some(value: T)
}
