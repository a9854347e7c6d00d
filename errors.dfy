/** The exceptions that one CPU poll can raise, and the wrappers that carry them. */
module Errors {

  /** Each constructor stands for one exception the poll raises in the program. */
  datatype Error =
    | NoCpuLine                    // IndexError: no line of the statistics file has the "cpu" prefix
    | NotAnInteger(token: string)  // ValueError: int() refused a field of the selected line
    | TooFewCounters(count: nat)   // IndexError: the idle field (index 3) does not exist
    | ZeroDivision                 // ZeroDivisionError: the total did not move since the last poll

  datatype Result<T> = Success(value: T) | Failure(error: Error)

  /** What an update step reports: it ran to the end, or it raised. */
  datatype Outcome = Pass | Fail(error: Error)

  datatype Option<T> = None | Some(value: T)
}
