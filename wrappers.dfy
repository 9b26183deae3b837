/** Option and Result, used wherever the scripts either produce nothing or raise. */
module Wrappers {

  datatype Option<+T> = None | Some(value: T)

  /** `Failure` stands for a Python exception that ends the script. */
  datatype Result<+R, +E> = Success(value: R) | Failure(error: E)
}
