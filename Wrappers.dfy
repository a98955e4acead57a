/** Optional values: a regular-expression match that may fail, a parse that may fail. */
module Wrappers {

  datatype Option<+T> = None | Some(value: T)
}
