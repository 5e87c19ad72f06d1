/** Result and outcome values shared by the other modules: the exceptions the
    preprocessor raises become the `Err` side of a `Result` or the `Fail`
    side of an `Outcome`. */
module Wrappers {

  /** The exceptions raised by the preprocessor. */
  datatype Error =
    | ValueError(msg: string)   // bad package name, grid without XC/YC
    | AssertionError            // a nearest-neighbour index out of range
    | IndexError                // gathering at an index past the end of an array
    | AttributeError            // reading an attribute that was never set

  datatype Option<T> = None | Some(value: T)

  datatype Result<T> = Ok(value: T) | Err(error: Error)

  /** The outcome of an operation that returns nothing but may raise. */
  datatype Outcome = Pass | Fail(error: Error)
}
