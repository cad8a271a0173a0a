/** Optional values, standing for Python's None / pandas' missing cells. */
module Wrappers {

  datatype Option<+T> = None | Some(value: T)
}
