/** The two wrappers the model uses: a value that may be missing, and a run that may fail. */
module Wrappers {

  /** A cell that may be missing. pandas and numpy mark such a cell with NaN. */
  datatype Option<+T> = None | Some(value: T)

  /** The outcome of a screening run: a table, or the exception the script raises. */
  datatype Result<+R, +E> = Success(value: R) | Failure(error: E)
}
