/** Optional values: the model's stand-in for a TypeScript field or result
    that may be `undefined` or `null`. */
module Wrappers {

  datatype Option<+T> = None | Some(value: T)
}
