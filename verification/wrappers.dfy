/** Optional values, for the nullable references of the page. */
module Wrappers {

  datatype Option<+T> = None | Some(value: T)
}
