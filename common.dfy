/** Small value wrappers shared by the benchmark scripts. */
module Common {

  /** A value that may be missing: JavaScript's `undefined`, `NaN` or a failed parse. */
  datatype Option<+T> = None | Some(value: T) {
    /** The wrapped value, or `default` when there is none. */
    function GetOr(default: T): T {
      match this
      case Some(v) => v
      case None => default
    }
  }

  /** How a Node.js script ends: it prints one JSON line and exits 0, or exits with a status and prints nothing. */
  datatype Exit<+T> = Printed(output: T) | Exited(status: nat)
}
