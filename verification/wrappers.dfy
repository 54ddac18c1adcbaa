/** The optional-value datatype used for JavaScript `null`/`undefined` results. */
module Wrappers {

  datatype Option<+T> = None | Some(value: T)
}
