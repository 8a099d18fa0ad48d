/** Optional values: `None` stands for JavaScript's `undefined`/`null` results and thrown errors. */
module Wrappers {

  datatype Option<+T> = None | Some(value: T)

}
