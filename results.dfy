/** The Rust-style result type that every command handler returns (build.py, class Result).
    `unwrap` on an error prints a fatal message, and the fatal level of the logger exits
    the process with status 2. */
module Results {

  /** Why a handler failed. */
  datatype Error =
    | DestinationNotDir       // several sources, and the destination is not a directory
    | DestinationNotSet       // no source before the destination
    | OsFailure(path: string) // a filesystem primitive raised on this path
    | IndexOutOfRange         // `data[-1]` on an empty argument list

  datatype Result<+T> = Ok(value: T) | Err(error: Error) {

    predicate IsOk() { Ok? }

    predicate IsErr() { !IsOk() }

    /** What `unwrap` leaves behind: the value, or the process exiting. */
    function Unwrap(): (u: Unwrapped<T>)
      ensures u.Exit? <==> IsErr()
      ensures u.Exit? ==> u.status == FatalStatus && u.cause == error
      ensures u.Value? ==> u.value == value
    {
      match this
      case Ok(v) => Value(v)
      case Err(e) => Exit(FatalStatus, e)
    }
  }

  /** `is_ok` holds exactly for an Ok result, and `is_err` is its negation: every result
      is exactly one of the two. */
  lemma OkOrErr<T>(r: Result<T>)
    ensures r.IsOk() <==> r.Ok?
    ensures r.IsErr() <==> r.Err?
    ensures r.IsOk() != r.IsErr()
  {
  }

  /** The outcome of unwrapping: a value, or the process ending with a status. */
  datatype Unwrapped<+T> = Value(value: T) | Exit(status: int, cause: Error)

  /** The status that a fatal log message exits with. */
  const FatalStatus: int := 2

  /** The status of a process ended by an exception nobody catches. */
  const UncaughtStatus: int := 1
}
