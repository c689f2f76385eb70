/** Optional values: the `null`-or-record results of the store's lookups. */
module Wrappers {

  datatype Option<+T> = None | Some(value: T)
}
