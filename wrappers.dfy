/** Optional values: Python's `str | None` results. */
module Wrappers {

  datatype Option<+T> = None | Some(value: T)
}
