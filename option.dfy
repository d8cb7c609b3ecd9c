/** The optional value returned by the scans and the round generator. */
module Opt {
  datatype Option<T> = None | Some(value: T)
}
