/** Optional values and failure-carrying results, used wherever the system
    has a Python `None` or a caught exception. */
module Wrappers {

  /** A value that may be absent (Python `None`). */
  datatype Option<+T> = None | Some(value: T) {

    /** The carried value, or `default` when absent. */
    function GetOr(default: T): T {
      match this
      case Some(v) => v
      case None => default
    }
  }

  /** An outcome that is either a value or the text of a caught exception. */
  datatype Result<+R> = Ok(value: R) | Fault(error: string)

  /** How an f-string prints a possibly-NULL column. */
  function Show(v: Option<string>): string {
    match v
    case None => "None"
    case Some(s) => s
  }
}
