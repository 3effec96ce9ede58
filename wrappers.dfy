/** Optional values: a request parameter that may be absent, a row that may be missing. */
module Wrappers {

  datatype Option<+T> = None | Some(value: T)

}
