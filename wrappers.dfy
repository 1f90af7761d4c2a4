/** The optional value used for results that may be absent ("no data", an index with no symbol). */
module Wrappers {
  datatype Option<+T> = None | Some(value: T)
}
