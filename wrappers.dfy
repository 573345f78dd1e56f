/** The optional value used for a cell that did not parse and for a load that failed. */
module Wrappers {
  datatype Option<+T> = None | Some(value: T)
}
