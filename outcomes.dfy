/** Results of calls the scripts cannot see into. */
module Outcomes {

  datatype Option<T> = None | Some(value: T)

  /** What a call into a model or an imaging library produced: a value, or the text of the exception it raised. */
  datatype Outcome<T> = Ok(value: T) | Err(msg: string)

  /** A comma-separated file a script writes: its name, its header row and its data rows, one record per row. */
  datatype Csv<R> = Csv(file: string, header: seq<string>, rows: seq<R>)

  /**
   * How a script ends: `exit(status)` on one of its guards, an exception nobody catches
   * (its text), or a normal finish with what it wrote.
   */
  datatype Run<T> = Exited(status: int) | Raised(error: string) | Finished(output: T)
}
