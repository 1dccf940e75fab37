/** Optional values, standing for JavaScript `null` and for a missing JSON field. */
module Wrappers {

  datatype Option<+T> = None | Some(value: T)
}
