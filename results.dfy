/** Failure-compatible wrappers for the Python exceptions the parser can raise.

    The only exceptions the parsing code can raise on its input are the
    `ValueError` of `int()`/`float()` on text that is not a number and the
    `IndexError` of `line.split('"')[1]` / `tc_str.split('+')[1]` when the
    separator is missing.  An exception is never caught inside the parser, so
    it aborts the whole run. */
module Results {

  datatype Error = ValueError | IndexError

  datatype Option<+T> = None | Some(value: T)

  datatype Result<+T> = Ok(value: T) | Err(error: Error) {
    predicate IsFailure() { Err? }

    function PropagateFailure<U>(): Result<U>
      requires Err?
    {
      Err(error)
    }

    function Extract(): T
      requires Ok?
    {
      value
    }
  }

  /** The outcome of a statement sequence that has no value: it either ran to
      the end or raised. */
  datatype Outcome = Pass | Fail(error: Error)
}
