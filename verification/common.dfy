/** Failure-carrying datatypes shared by the configuration procedures of the
    simulation runtime, and the configuration errors they report. */
module Common {

  /** A value that may be absent: an unset command-line flag is `None`. */
  datatype Option<+T> = None | Some(value: T)

  /** The outcome of a procedure that either yields a value or throws. */
  datatype Result<+T, +E> = Success(value: T) | Failure(error: E)

  /** The configuration errors the runtime throws after printing the valid
      alternatives.  Each carries the offending text and the alternatives
      that were listed to the user. */
  datatype ConfigError =
    | UnrecognizedSolver(solverMethod: string, alternatives: seq<string>)
    | UnrecognizedNonlinearSolver(nlsMethod: string, alternatives: seq<string>)
    | UnrecognizedLinearSolver(lsMethod: string, alternatives: seq<string>)
    | UnrecognizedLogStream(flags: string, alternatives: seq<string>)

  /** The names a table registers: entry 0 of every name table is the
      "unknown" placeholder, so the selectable entries are 1 .. |names|-1. */
  function Registered(names: seq<string>): (r: seq<string>)
    ensures |names| <= 1 ==> r == []
    ensures |names| > 1 ==> |r| == |names| - 1 && forall k :: 1 <= k < |names| ==> r[k - 1] == names[k]
  {
    if |names| <= 1 then [] else names[1..]
  }
}
