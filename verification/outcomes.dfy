/** The ways a pipeline step can end: a value, a dropped row, or one of the
    Python exceptions that escape the step. */
module Outcomes {

  /** The exception classes the modelled code lets escape. The converter's
      own `StopProcessing` is not here: it never escapes a row and is the
      `Skip` stage below. */
  datatype Failure =
    | KeyError           // a dict lookup of a missing key
    | IndexError         // indexing an empty list
    | ValueError         // float()/strptime() failures, duplicate test codes
    | TypeError          // comparing a str or None with a number, calling None
    | AttributeError     // a str method called on a value that is not a str
    | AssertionError     // a failed `assert` in the pipeline
    | IntegrityError     // the ledger's unique index on (lab, filename)
    | UnboundLocalError  // a variable read before it was bound
    | FileNotFoundError  // a missing file that is not caught
    | ForeignStopProcessing  // a `StopProcessing` of another module, which the converter does not catch

  datatype Option<+T> = None | Some(value: T)

  datatype Result<+T> = Ok(value: T) | Err(error: Failure) {
    predicate IsFailure() {
      Err?
    }

    function PropagateFailure<U>(): Result<U>
      requires Err?
    {
      Err(error)
    }

    function Extract(): T
      requires Ok?
    {
      value
    }
  }

  /** The outcome of one per-row stage: keep the (possibly reshaped) row, drop
      it by raising `StopProcessing`, or raise something that aborts the file. */
  datatype Stage<+T> = Keep(value: T) | Skip | Raise(error: Failure)
}
