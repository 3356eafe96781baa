/** Option and Result: the absent-or-present value (JavaScript's
    `null`/`undefined` versus a value) and the success-or-failure outcome
    (a value versus a thrown error or rejected promise). */
module Wrappers {

  datatype Option<+T> = None | Some(value: T)

  datatype Result<+R, +E> = Ok(value: R) | Err(error: E)
}
