/** Optional values: the outcome of a search that may not settle on an answer. */
module Wrappers {

  datatype Option<+T> = None | Some(value: T)
}
