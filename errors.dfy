/** Exceptions of the wrapper and of the engine, and the result types that
    stand for "returns a value or throws". */
module Errors {

  /** The .NET exception classes the wrapper throws or lets through. */
  datatype ExceptionKind =
    | GeneralException                       // System.Exception
    | FileNotFoundException(fileName: string) // System.IO.FileNotFoundException
    | SQLiteException                        // raised by the engine
    | ObjectDisposedException                // System.ObjectDisposedException

  datatype Exception = Exception(kind: ExceptionKind, message: string)

  /** A call that either returns `value` or throws `error`. */
  datatype Result<+T> = Ok(value: T) | Err(error: Exception)

  /** A call that returns nothing or throws `error`. */
  datatype Outcome = Pass | Fail(error: Exception)

  /** `catch (Exception e) { throw new Exception(e.Message); }`: a new general
      exception that keeps only the message of the caught one. */
  function Rethrow(e: Exception): (r: Exception)
    ensures r.kind == GeneralException && r.message == e.message
    ensures e.kind == GeneralException ==> r == e
  {
    Exception(GeneralException, e.message)
  }
}
