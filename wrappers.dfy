/** Optional values: a SQL NULL, a missing row, a JavaScript `undefined`. */
module Wrappers {

  datatype Option<+T> = None | Some(value: T)
}
