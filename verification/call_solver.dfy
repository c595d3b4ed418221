/** `callSolver`: initialise the result stream, resolve the integrator, run
    it and release the stream.  The integrator run itself is not part of
    this model: `solverMain(id)` stands for the status it returns. */
module CallSolver {
  import opened Common
  import opened ResultData
  import opened SolverSelection

  /** How a call ends. */
  datatype CallOutcome =
      /** The output format has no writer: the call returns -1 at once. */
    | ResultInitFailed
      /** The integrator name is unknown: the call throws after listing the
          registered names; no integrator runs and the stream is not freed. */
    | SolverRejected(error: ConfigError)
      /** The integrator `solverId` ran with status `retVal`, and the stream's
          `free` hook was called afterwards. */
    | SolverRan(solverId: nat, stream: ResultStream, retVal: int, freedBy: Writer)

  /** The status `callSolver` returns, when it returns at all. */
  function ReturnCode(o: CallOutcome): Option<int>
  {
    match o
    case ResultInitFailed => Some(-1)
    case SolverRejected(_) => None
    case SolverRan(_, _, retVal, _) => Some(retVal)
  }

  /** `callSolver` on the sink request, the prior result-stream hooks, the
      integrator table with the identifier of DASSL, and the method name. */
  function CallSolver(req: SinkRequest, prior: Hooks, names: seq<string>, dassl: nat,
                      solverMethod: string, solverMain: nat -> int): (r: CallOutcome)
    ensures r.ResultInitFailed? <==> InitializeResultData(req, prior).code != 0
    ensures r.SolverRejected? <==>
              InitializeResultData(req, prior).code == 0 && solverMethod != "" && Unregistered(names, solverMethod)
    ensures r.SolverRejected? ==> r.error == UnrecognizedSolver(solverMethod, Registered(names))
    ensures r.SolverRan? ==>
              && (solverMethod == "" ==> r.solverId == dassl)
              && (solverMethod != "" ==> IsLastMatch(names, solverMethod, r.solverId))
              && r.retVal == solverMain(r.solverId)
              && r.stream == InitializeResultData(req, prior).stream
              && r.freedBy == r.stream.hooks.free
  {
    var init := InitializeResultData(req, prior);
    if init.code != 0 then ResultInitFailed
    else
      match IntegratorFor(names, dassl, solverMethod)
      case None => SolverRejected(UnrecognizedSolver(solverMethod, Registered(names)))
      case Some(id) => SolverRan(id, init.stream, solverMain(id), init.stream.hooks.free)
  }

  /** The output format is checked before the integrator name: an unknown
      format returns -1 whatever the method name, so a bad method name is
      then never reported. */
  lemma FormatCheckedFirst(req: SinkRequest, prior: Hooks, names: seq<string>, dassl: nat,
                           m1: string, m2: string, f: nat -> int, g: nat -> int)
    requires !SilentSink(req) && !KnownFormat(req.outputFormat)
    ensures CallSolver(req, prior, names, dassl, m1, f) == CallSolver(req, prior, names, dassl, m2, g) == ResultInitFailed
    ensures ReturnCode(CallSolver(req, prior, names, dassl, m1, f)) == Some(-1)
  {
  }
}
