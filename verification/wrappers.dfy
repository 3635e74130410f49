/** Optional values: the model's stand-in for JavaScript's `undefined`, and for
    the "no such value" answer of the parsers. */
module Wrappers {

  datatype Option<+T> = None | Some(value: T)
}
