/** Optional values: a hovered or selected line that may be absent, a question
    that an empty pool cannot supply. */
module Wrappers {
  datatype Option<T> = None | Some(value: T)
}
