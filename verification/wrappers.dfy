/** Optional values: the model's stand-in for JavaScript's `undefined` results
    (`Array.prototype.find` with no match, an omitted optional form field). */
module Wrappers {
  datatype Option<+T> = None | Some(value: T)
}
