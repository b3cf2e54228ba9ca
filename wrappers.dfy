/** The optional value that Swift's `firstIndex(where:)` returns. */
module Wrappers {

  datatype Option<+T> = None | Some(value: T)
}
