/** Option: a value that may be absent (JavaScript's `undefined`/`null`, or a
    foreign call that failed). */
module Wrappers {

  datatype Option<+T> = None | Some(value: T)
}
