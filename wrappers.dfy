/** The usual optional-value wrapper, used for JavaScript values that may be
    `undefined` (a missing table entry, an unset option, a search that found
    nothing). */
module Wrappers {

  datatype Option<+T> = None | Some(value: T)
}
