/**
 * The error value the CLI commands return. In the program, `exitError`
 * writes a structured error (code, message, hint) to standard error and
 * returns a sentinel; here the error is that structured value itself.
 */
module Root {

  /** The machine-readable error codes used by the filter front end. */
  datatype ErrorCode = GeneralError | NotFound | JmapError {
    /** The code as it is printed. */
    function Name(): string {
      match this
      case GeneralError => "general_error"
      case NotFound => "not_found"
      case JmapError => "jmap_error"
    }
  }

  /** Distinct codes print differently, so a caller can tell the failures apart from the printed code alone. */
  lemma NamesDistinct(a: ErrorCode, b: ErrorCode)
    ensures a.Name() == b.Name() <==> a == b
  {
  }

  datatype ExitError = ExitError(code: ErrorCode, message: string, hint: string)
}
