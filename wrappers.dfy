/** Optional values: the model's rendering of JavaScript's `null` / `undefined` fields. */
module Wrappers {

  datatype Option<+T> = None | Some(value: T)

}
