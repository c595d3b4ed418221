/** The simulation-mode error handlers: where a failed model assertion is
    sent, depending on which phase of the run is active, and how the
    termination message buffer is sized.  The jumps themselves and the
    message formatting are not part of this model. */
module ErrorRouting {

  /** The phase recorded in `currectJumpState` when an assertion fails.
      `OtherState` stands for any value without a case of its own. */
  datatype JumpState =
    | ErrorSimulation
    | ErrorNonlinearSolver
    | ErrorIntegrator
    | ErrorEventSearch
    | ErrorOptimize
    | OtherState(code: int)

  /** The recovery points an assertion can jump to. */
  datatype JumpTarget = SimulationJmp | NonlinearJmp | IntegratorJmp

  /** What `omc_assert_simulation` does: jump to a recovery point (printing
      the message first when `reported`), ignore the assertion, or throw. */
  datatype AssertAction =
    | Recover(target: JumpTarget, reported: bool)
    | Ignore
    | Throw

  /** The phase each recovery point belongs to. */
  function PhaseOf(target: JumpTarget): JumpState
  {
    match target
    case SimulationJmp => ErrorSimulation
    case NonlinearJmp => ErrorNonlinearSolver
    case IntegratorJmp => ErrorIntegrator
  }

  /** `omc_assert_simulation` in phase `state`, where `logNls` and
      `logDdasrt` say whether the nonlinear-solver and integrator log
      streams are active.  Event search and optimisation swallow the
      assertion; each other named phase jumps to its own recovery point; an
      unnamed phase throws. */
  function RouteAssertion(state: JumpState, logNls: bool, logDdasrt: bool): (a: AssertAction)
    ensures a.Ignore? <==> state.ErrorEventSearch? || state.ErrorOptimize?
    ensures a.Throw? <==> state.OtherState?
    ensures a.Recover? ==> PhaseOf(a.target) == state
    ensures a.Recover? ==>
              (a.reported <==> (state.ErrorSimulation?
                                || (state.ErrorNonlinearSolver? && logNls)
                                || (state.ErrorIntegrator? && logDdasrt)))
  {
    match state
    case ErrorSimulation => Recover(SimulationJmp, true)
    case ErrorNonlinearSolver => Recover(NonlinearJmp, logNls)
    case ErrorIntegrator => Recover(IntegratorJmp, logDdasrt)
    case ErrorEventSearch => Ignore
    case ErrorOptimize => Ignore
    case OtherState(_) => Throw
  }

  /** Every recovery point is reached from its own phase, and from no
      other: routing is a bijection between the three recovering phases and
      the three recovery points. */
  lemma RecoveryRoundTrip(target: JumpTarget, state: JumpState, logNls: bool, logDdasrt: bool)
    ensures RouteAssertion(PhaseOf(target), logNls, logDdasrt).Recover?
    ensures RouteAssertion(PhaseOf(target), logNls, logDdasrt).target == target
    ensures (&& RouteAssertion(state, logNls, logDdasrt).Recover?
             && RouteAssertion(state, logNls, logDdasrt).target == target)
            ==> state == PhaseOf(target)
  {
  }

  // ---------------------------------------------------------------------------
  // Termination message
  // ---------------------------------------------------------------------------

  /** The termination message buffer: not yet allocated, or allocated with
      `capacity` bytes.  The capacity is kept across calls. */
  datatype TermBuffer = Unallocated | Allocated(capacity: nat)

  /** The capacity of the first allocation. */
  const MinTermMsgSize: nat := 2048

  /** `setTermMsg` for a format string of length `msgLen` whose formatted
      text has `formattedLen` characters.  The first call allocates the
      larger of twice the format length plus one and 2048 bytes; a text that
      does not fit (its terminating zero included) makes the buffer grow to
      twice its length plus one. */
  function SetTermMsg(buf: TermBuffer, msgLen: nat, formattedLen: nat): (r: TermBuffer)
    ensures r.Allocated? && formattedLen < r.capacity
    ensures buf.Unallocated? ==> r.capacity >= MinTermMsgSize && r.capacity > 2 * msgLen
    ensures buf.Allocated? ==> r.capacity >= buf.capacity
    ensures buf.Allocated? && formattedLen < buf.capacity ==> r == buf
    ensures buf.Unallocated? && formattedLen < MaxNat(2 * msgLen + 1, MinTermMsgSize) ==>
              r == Allocated(MaxNat(2 * msgLen + 1, MinTermMsgSize))
    ensures formattedLen >= (if buf.Unallocated? then MaxNat(2 * msgLen + 1, MinTermMsgSize) else buf.capacity) ==>
              r == Allocated(2 * formattedLen + 1)
  {
    var size := if buf.Unallocated? then MaxNat(2 * msgLen + 1, MinTermMsgSize) else buf.capacity;
    if formattedLen >= size then Allocated(2 * formattedLen + 1) else Allocated(size)
  }

  /** The larger of two sizes (`std::max` on `size_t`). */
  function MaxNat(a: nat, b: nat): nat
  {
    if a < b then b else a
  }

  /** Setting the same message again does not grow the buffer. */
  lemma SetTermMsgStable(buf: TermBuffer, msgLen: nat, formattedLen: nat)
    ensures var once := SetTermMsg(buf, msgLen, formattedLen);
            SetTermMsg(once, msgLen, formattedLen) == once
  {
  }

  /** Where in the model source a termination was requested (`FILE_INFO`). */
  datatype FileInfo = FileInfo(
    filename: string, lineStart: int, colStart: int, lineEnd: int, colEnd: int, readonly: bool)

  /** The location kept in `TermInfo`: one passed by the model, or
      `omc_dummyFileInfo`, whose field values are not part of this model. */
  datatype TermLocation = Reported(info: FileInfo) | DummyLocation

  /** The termination signal: the `terminationTerminate` flag, the message
      buffer and the location `TermInfo`. */
  datatype Termination = Termination(terminate: bool, message: TermBuffer, location: TermLocation)

  /** `omc_terminate_simulation`: raise the flag, store the message, and
      record the caller's location. */
  function TerminateSimulation(t: Termination, info: FileInfo, msgLen: nat, formattedLen: nat): (r: Termination)
    ensures r.terminate
    ensures r.message.Allocated? && formattedLen < r.message.capacity
    ensures t.message.Allocated? ==> r.message.capacity >= t.message.capacity
    ensures r.location == Reported(info)
    ensures r.message == SetTermMsg(t.message, msgLen, formattedLen)
  {
    Termination(true, SetTermMsg(t.message, msgLen, formattedLen), Reported(info))
  }

  /** The fixed message `omc_throw_simulation` stores. */
  const ThrowMessage: string := "Assertion triggered by external C function"

  /** `omc_throw_simulation`: store the fixed message, leave the flag as it
      is, reset the location to the dummy one, and unwind to the top level.
      Every buffer `SetTermMsg` allocates holds at least 2048 bytes, so an
      allocated buffer always has room for the message and is kept. */
  function ThrowSimulation(t: Termination): (r: Termination)
    ensures r.terminate == t.terminate
    ensures r.message.Allocated? && |ThrowMessage| < r.message.capacity
    ensures t.message.Unallocated? ==> r.message == Allocated(MinTermMsgSize)
    ensures r.message == SetTermMsg(t.message, |ThrowMessage|, |ThrowMessage|)
    ensures t.message.Allocated? && |ThrowMessage| < t.message.capacity ==> r.message == t.message
    ensures r.location == DummyLocation
  {
    Termination(t.terminate, SetTermMsg(t.message, |ThrowMessage|, |ThrowMessage|), DummyLocation)
  }
}
