/** Optional values: the model's counterpart of a TypeScript field or
    parameter that may be `undefined`. */
module Wrappers {

  datatype Option<+T> = None | Some(value: T)
}
