/** The Some/None datatype used wherever the program can see `undefined`
    (a missing array element, a missing field, a `find` that matches nothing)
    or NaN (a failed numeric coercion, an invalid date). */
module Wrappers {

  datatype Option<+T> = None | Some(value: T)
}
