/** Optional values, used wherever the Go code has a lookup that may find
    nothing, an unset context key, or a parse that may fail. */
module Wrappers {

  datatype Option<+T> = None | Some(value: T)
}
