/** Optional values: `None` stands for JavaScript's `undefined`/`null` or for a failed parse. */
module Wrappers {

  datatype Option<+T> = None | Some(value: T)
}
