/** The run-time errors the analysis script can stop with, and a result type
    that carries either a value or one of them. */
module Outcome {

  /** The Python exceptions the script can raise on an input file that can be opened:
      too few tokens on a line, a token that is not a number, a sky-chart bin
      that does not exist, and a mean taken over nothing. */
  datatype Error =
    | IndexError
    | ValueError
    | KeyError(key: int)
    | ZeroDivisionError

  datatype Result<+T> = Success(value: T) | Failure(error: Error)
}
