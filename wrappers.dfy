/** Optional values (Java's nullable references) and results with an error (Java's exceptions). */
module Wrappers {
  datatype Option<T> = None | Some(value: T)
  {
    function GetOr(default: T): T
    {
      match this
      case Some(v) => v
      case None => default
    }
  }

  /** HTTP statuses the service answers with, and the Java exceptions that escape a call. */
  datatype Error =
    | BadRequest          // 400
    | Unauthorized        // 401
    | NotFound            // 404
    | InternalError       // 500
    | NumberFormat        // java.lang.NumberFormatException
    | IllegalArgument     // java.lang.IllegalArgumentException
    | NullPointer         // java.lang.NullPointerException
    | IndexOutOfBounds    // java.lang.ArrayIndexOutOfBoundsException
    | Arithmetic          // java.lang.ArithmeticException
    | DateTimeParse       // java.time.format.DateTimeParseException
    | FileNotFound        // Python FileNotFoundError
    | RequestFailed       // Python Exception("Request failed: ...") of the client
    | TypeError           // Python TypeError
    | Hangs               // no answer at all: the call runs a loop that never ends

  datatype Result<T> = Ok(value: T) | Err(error: Error)

  /** How a scan written as a loop ends: it lets the request through, fails it, or never ends. */
  datatype Verdict = Accept | Reject(error: Error) | Diverge

  /** The verdict a call's result stands for: `Hangs` is the loop that never ends. */
  function Outcome<T>(r: Result<T>): (v: Verdict)
    ensures v == Accept <==> r.Ok?
    ensures v == Diverge <==> r == Err(Hangs)
    ensures v.Reject? ==> r == Err(v.error)
  {
    match r
    case Ok(_) => Accept
    case Err(e) => if e == Hangs then Diverge else Reject(e)
  }
}
