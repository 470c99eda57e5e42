/** Optional values: a PHP value that may be null or missing. */
module Wrappers {

  datatype Option<+T> = None | Some(value: T)

}
