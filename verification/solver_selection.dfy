/** Resolution of the integrator, nonlinear-solver and linear-solver names
    given on the command line to the runtime's solver identifiers.

    Name tables are abstract: `names[i]` is the registered name of the solver
    with identifier `i`, entry 0 is the "unknown" placeholder and the
    table's `*_MAX` constant is `|names|`. */
module SolverSelection {
  import opened Common

  /** `x` is registered at no position 1 .. |names|-1. */
  predicate Unregistered(names: seq<string>, x: string)
  {
    forall j :: 1 <= j < |names| ==> names[j] != x
  }

  /** `id` is the LAST registered position holding `x`. */
  predicate IsLastMatch(names: seq<string>, x: string, id: nat)
  {
    1 <= id < |names| && names[id] == x && forall j :: id < j < |names| ==> names[j] != x
  }

  /** `id` is the FIRST registered position at or after `lo` holding `x`. */
  predicate IsFirstMatchFrom(names: seq<string>, x: string, lo: nat, id: nat)
  {
    lo <= id < |names| && names[id] == x && forall j :: lo <= j < id ==> names[j] != x
  }

  // ---------------------------------------------------------------------------
  // Integrator (`-s`)
  // ---------------------------------------------------------------------------

  /** Searches the positions 1 .. hi-1 from the top down for `x`. */
  function LastMatchBelow(names: seq<string>, x: string, hi: nat): (r: Option<nat>)
    requires hi <= |names|
    ensures r.Some? ==> 1 <= r.value < hi && names[r.value] == x
                        && forall j :: r.value < j < hi ==> names[j] != x
    ensures r.None? ==> forall j :: 1 <= j < hi ==> names[j] != x
    decreases hi
  {
    if hi <= 1 then None
    else if names[hi - 1] == x then Some(hi - 1)
    else LastMatchBelow(names, x, hi - 1)
  }

  /** The integrator chosen for the method name `solverMethod`: the empty name
      selects DASSL (`dassl` is the identifier `S_DASSL`); any other name
      selects the last registered entry equal to it, and `None` stands for
      `S_UNKNOWN`. */
  function IntegratorFor(names: seq<string>, dassl: nat, solverMethod: string): (r: Option<nat>)
    ensures solverMethod == "" ==> r == Some(dassl)
    ensures solverMethod != "" ==> (r.None? <==> Unregistered(names, solverMethod))
    ensures solverMethod != "" && r.Some? ==> IsLastMatch(names, solverMethod, r.value)
  {
    if solverMethod == "" then Some(dassl)
    else LastMatchBelow(names, solverMethod, |names|)
  }

  /** The lookup loop of `callSolver` as written: it scans the table upwards
      without stopping, overwriting the identifier on every hit, so the
      last hit wins.  It agrees with the top-down search above. */
  method SelectIntegrator(names: seq<string>, dassl: nat, solverMethod: string) returns (id: Option<nat>)
    ensures solverMethod == "" ==> id == Some(dassl)
    ensures solverMethod != "" ==> (id.None? <==> Unregistered(names, solverMethod))
    ensures solverMethod != "" && id.Some? ==> IsLastMatch(names, solverMethod, id.value)
    ensures id == IntegratorFor(names, dassl, solverMethod)
  {
    if solverMethod == "" {
      return Some(dassl);
    }
    id := None;
    if |names| <= 1 {
      return;
    }
    var i := 1;
    while i < |names|
      invariant 1 <= i <= |names|
      invariant id.None? ==> forall j :: 1 <= j < i ==> names[j] != solverMethod
      invariant id.Some? ==> 1 <= id.value < i && names[id.value] == solverMethod
      invariant id.Some? ==> forall j :: id.value < j < i ==> names[j] != solverMethod
    {
      if names[i] == solverMethod {
        id := Some(i);
      }
      i := i + 1;
    }
    LastMatchUnique(names, solverMethod, id, IntegratorFor(names, dassl, solverMethod));
  }

  /** At most one position is the last one holding a name. */
  lemma LastMatchUnique(names: seq<string>, x: string, a: Option<nat>, b: Option<nat>)
    requires a.None? <==> Unregistered(names, x)
    requires b.None? <==> Unregistered(names, x)
    requires a.Some? ==> IsLastMatch(names, x, a.value)
    requires b.Some? ==> IsLastMatch(names, x, b.value)
    ensures a == b
  {
  }

  /** Two different non-empty names never select the same integrator. */
  lemma {:induction false} IntegratorSelectionInjective(names: seq<string>, dassl: nat, m1: string, m2: string)
    requires m1 != "" && m2 != ""
    requires IntegratorFor(names, dassl, m1).Some? && IntegratorFor(names, dassl, m2).Some?
    requires IntegratorFor(names, dassl, m1) == IntegratorFor(names, dassl, m2)
    ensures m1 == m2
  {
    var id := IntegratorFor(names, dassl, m1).value;
    assert names[id] == m1;
  }

  // ---------------------------------------------------------------------------
  // Nonlinear solver (`-nls`)
  // ---------------------------------------------------------------------------

  /** Searches positions lo .. |names|-1 upwards and stops at the first hit. */
  function FirstMatchFrom(names: seq<string>, x: string, lo: nat): (r: Option<nat>)
    ensures r.Some? ==> IsFirstMatchFrom(names, x, lo, r.value)
    ensures r.None? ==> forall j :: lo <= j < |names| ==> names[j] != x
    decreases |names| - lo
  {
    if lo >= |names| then None
    else if names[lo] == x then Some(lo)
    else FirstMatchFrom(names, x, lo + 1)
  }

  /** `getNonlinearSolverMethod`: no `-nls` flag gives `hybrid` (the
      identifier `NLS_HYBRID`); a registered name gives the first entry with
      that name; any other name throws after listing the registered names. */
  function NonlinearSolverMethod(names: seq<string>, hybrid: nat, nls: Option<string>): (r: Result<nat, ConfigError>)
    ensures nls.None? ==> r == Success(hybrid)
    ensures nls.Some? && r.Success? ==> IsFirstMatchFrom(names, nls.value, 1, r.value)
    ensures nls.Some? ==> (r.Failure? <==> Unregistered(names, nls.value))
    ensures r.Failure? ==> r.error == UnrecognizedNonlinearSolver(nls.value, Registered(names))
  {
    match nls
    case None => Success(hybrid)
    case Some(m) =>
      match FirstMatchFrom(names, m, 1)
      case Some(i) => Success(i)
      case None => Failure(UnrecognizedNonlinearSolver(m, Registered(names)))
  }

  /** Looking up the name stored at a registered identifier returns that
      identifier exactly when no earlier entry repeats the name. */
  lemma {:induction false} NonlinearSolverNameRoundTrip(names: seq<string>, hybrid: nat, id: nat)
    requires 1 <= id < |names|
    ensures NonlinearSolverMethod(names, hybrid, Some(names[id])) == Success(id)
            <==> forall j :: 1 <= j < id ==> names[j] != names[id]
  {
    var r := NonlinearSolverMethod(names, hybrid, Some(names[id]));
    assert r.Success?;
    if forall j :: 1 <= j < id ==> names[j] != names[id] {
      assert IsFirstMatchFrom(names, names[id], 1, id);
    }
  }

  // ---------------------------------------------------------------------------
  // Linear solver (`-ls`)
  // ---------------------------------------------------------------------------

  /** The linear solvers the runtime can select. */
  datatype LinearSolver = Lapack | Lis

  /** The name by which each linear solver is selected. */
  function LinearSolverName(ls: LinearSolver): string
  {
    match ls
    case Lapack => "lapack"
    case Lis => "lis"
  }

  /** `getlinearSolverMethod`: no `-ls` flag gives LAPACK, `"lapack"` and
      `"lis"` give their solvers, and anything else throws after listing the
      two names. */
  function LinearSolverMethod(ls: Option<string>): (r: Result<LinearSolver, ConfigError>)
    ensures ls.None? ==> r == Success(Lapack)
    ensures ls.Some? && r.Success? ==> LinearSolverName(r.value) == ls.value
    ensures ls.Some? ==> (r.Failure? <==> ls.value != "lapack" && ls.value != "lis")
    ensures r.Failure? ==> r.error == UnrecognizedLinearSolver(ls.value, ["lapack", "lis"])
  {
    match ls
    case None => Success(Lapack)
    case Some(m) =>
      if m == "lapack" then Success(Lapack)
      else if m == "lis" then Success(Lis)
      else Failure(UnrecognizedLinearSolver(m, ["lapack", "lis"]))
  }

  /** Naming a linear solver selects it again. */
  lemma LinearSolverRoundTrip(ls: LinearSolver)
    ensures LinearSolverMethod(Some(LinearSolverName(ls))) == Success(ls)
  {
  }
}
