/** Optional values: a record cell is either a string or unset (Python `None`, pandas `NaN`). */
module Wrappers {

  datatype Option<+T> = None | Some(value: T)
}
