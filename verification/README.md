# OpenModelica simulation runtime: configuration and dispatch, in Dafny

This project models the configuration-resolution and dispatch layer of the
OpenModelica C simulation runtime (`simulation_runtime.cpp`) and the `imax`
helper of the index-specification header. Every modelled procedure is a
small decision over strings, flags and name tables. Each becomes a pure
Dafny function over abstract tables, and the project proves what each
decision promises:

- **Integrator selection** (`callSolver`). The empty method name selects
  DASSL. Any other name selects the last registered integrator with that
  name, because the lookup loop has no `break`. An unknown name throws after
  listing the registered names, and no integrator runs.
- **Nonlinear and linear solver selection** (`getNonlinearSolverMethod`,
  `getlinearSolverMethod`). Each has a default for an absent flag, an exact
  name lookup, and a throw for an unknown name.
- **Log-stream selection** (`setGlobalVerboseLevel`). `LOG_ALL` anywhere in
  the `-lv` value switches on every stream. Otherwise every comma-separated
  token must name a selectable stream. STDOUT and ASSERT are then forced on,
  and six fixed implications are applied.
- **Result-sink dispatch** (`initializeResultData`). The capacity is four
  times the step count. Interactive runs, `-noemit` and the format `empty`
  keep the no-op hooks. `csv`, `mat` and `plt` bind their writers, and only
  `mat` binds a parameter writer. An unknown format returns 1 before any
  `init` is called.
- **Output filter** (`initializeOutputFilter`). As built outside MSVC, only
  the placeholder rule runs: when the first real state is `$dummy`, real
  variables 0 and `nStates` are excluded. The function then returns
  unconditionally. The per-category pass behind that return is modelled
  separately, with the regular expression abstracted as a predicate.
- **Assertion routing** (`omc_assert_simulation`), **termination message
  sizing** (`setTermMsg`, `omc_terminate_simulation`, `omc_throw_simulation`)
  and **clock selection** (`-clock`).

Name tables such as `SOLVER_METHOD_NAME`, `NLS_NAME` and `LOG_STREAM_NAME`
are declared in headers that are not part of this model. The same holds for
the enumeration constants (`S_DASSL`, `NLS_HYBRID`, the `LOG_*` stream
identifiers). They are parameters: a table is a `seq<string>` whose entry 0
is the "unknown" placeholder, and its `*_MAX` constant is the sequence's
length.

Files: `common.dfy` (Option, Result, configuration errors), `strings.dfy`
(substring search, split, join), `index_spec.dfy`, `solver_selection.dfy`,
`verbosity.dfy`, `result_data.dfy`, `call_solver.dfy`, `output_filter.dfy`
(the filter as built), `filter_pass.dfy` (the unreachable per-category pass),
`error_routing.dfy`, `clock.dfy`.

Three consequences of the code are worth stating plainly:

- An alias whose target matches the pattern and whose own name does not is
  excluded, because simulation_runtime.cpp:366-367 judge it by its own name
  (`AliasJudgedByOwnName`).
- Resolving an alias always leaves its target included, even when the
  top-level step had excluded the target (`FilterCategorySpec`).
- As built, the pattern `.*` still excludes the placeholder state and its
  derivative (`InitializeOutputFilter`).

## Model

| member | source | states |
|---|---|---|
| Strings.ContainsIffOccurs | om_SimulationRuntime_c/simulation/simulation_runtime.cpp:171 | the left-to-right scan used for `find("LOG_ALL")` succeeds exactly when the pattern occurs at some position |
| Strings.JoinSplit | om_SimulationRuntime_c/simulation/simulation_runtime.cpp:182-194 | cutting the flag at every comma loses nothing: joining the tokens with commas gives the flag back |
| Strings.SplitJoin | om_SimulationRuntime_c/simulation/simulation_runtime.cpp:182-194 | comma-free tokens joined with commas split back into the same tokens |
| IndexSpec.Imax | om_SimulationRuntime_c/util/index_spec.h:41-42 | the result bounds both arguments and is one of them; it is `j` when `i < j` and `i` otherwise, so a tie gives `i` |
| IndexSpec.ImaxIdempotent | om_SimulationRuntime_c/util/index_spec.h:42 | `imax(i, i) == i` |
| IndexSpec.ImaxCommutes | om_SimulationRuntime_c/util/index_spec.h:42 | as values, `imax(i, j) == imax(j, i)` |
| IndexSpec.ImaxLeastUpperBound | om_SimulationRuntime_c/util/index_spec.h:42 | any bound of both arguments bounds `imax`, and the converse |
| SolverSelection.IntegratorFor | om_SimulationRuntime_c/simulation/simulation_runtime.cpp:688-697 | the empty name gives DASSL; otherwise the result is unknown exactly when no registered entry has the name, else the last registered entry with it |
| SolverSelection.SelectIntegrator | om_SimulationRuntime_c/simulation/simulation_runtime.cpp:688-697 | the upward scan without a break, which overwrites the identifier on every hit, ends with the last registered hit and agrees with the top-down reference search |
| SolverSelection.IntegratorSelectionInjective | om_SimulationRuntime_c/simulation/simulation_runtime.cpp:692-696 | two different non-empty names never select the same integrator |
| SolverSelection.NonlinearSolverMethod | om_SimulationRuntime_c/simulation/simulation_runtime.cpp:248-269 | an absent flag gives `NLS_HYBRID`; a name gives the first registered entry with it; it throws, listing the registered names, exactly when no registered entry has the name |
| SolverSelection.NonlinearSolverNameRoundTrip | om_SimulationRuntime_c/simulation/simulation_runtime.cpp:257-259 | looking up the name of a registered solver returns that solver exactly when no earlier entry repeats the name |
| SolverSelection.LinearSolverMethod | om_SimulationRuntime_c/simulation/simulation_runtime.cpp:271-292 | an absent flag gives LAPACK; a result always carries the given name; it throws exactly for names other than `lapack` and `lis` |
| SolverSelection.LinearSolverRoundTrip | om_SimulationRuntime_c/simulation/simulation_runtime.cpp:279-283 | the name of each linear solver selects that solver |
| Verbosity.EnableAll | om_SimulationRuntime_c/simulation/simulation_runtime.cpp:171-175 | under `LOG_ALL` every stream from 1 on is switched on and stream 0 keeps its value |
| Verbosity.EnableTokensSpec | om_SimulationRuntime_c/simulation/simulation_runtime.cpp:182-214 | the token loop succeeds exactly when every token names a selectable stream, and then switches on exactly the selectable streams named by a token |
| Verbosity.ApplyImplications | om_SimulationRuntime_c/simulation/simulation_runtime.cpp:221-243 | applying the six implications one after the other leaves each summary stream on exactly when it or one of its detailed streams was on; nothing else changes |
| Verbosity.SelectedStreamsSpec | om_SimulationRuntime_c/simulation/simulation_runtime.cpp:171-214 | selection fails exactly when the flag lacks `LOG_ALL` and some token is unknown; otherwise it yields exactly the requested streams |
| Verbosity.SetGlobalVerboseLevel | om_SimulationRuntime_c/simulation/simulation_runtime.cpp:153-246 | on success STDOUT and ASSERT are on and no switch is turned off; without `-lv` exactly STDOUT and ASSERT are added; a failure lists the selectable names |
| Verbosity.VerbosityRejects | om_SimulationRuntime_c/simulation/simulation_runtime.cpp:171-214 | the flag is rejected exactly when `LOG_ALL` occurs nowhere in it and one of its tokens, an empty one included, names no selectable stream |
| Verbosity.VerbosityStreams | om_SimulationRuntime_c/simulation/simulation_runtime.cpp:171-243 | after a successful parse a stream is on exactly when it was requested or already on, is STDOUT or ASSERT, or is the summary stream of such a detailed stream |
| Verbosity.NoFlagDefaults | om_SimulationRuntime_c/simulation/simulation_runtime.cpp:163-169 | without `-lv`, from all switches off, exactly STDOUT and ASSERT are on |
| ResultData.InitializeResultData | om_SimulationRuntime_c/simulation/simulation_runtime.cpp:634-665 | capacity is 4 x numSteps; silent runs keep the prior hooks; csv, mat and plt bind their writer to init, emit and free, and only mat binds the parameter writer; any other format returns 1 with no init called |
| ResultData.DefaultSinkWriters | om_SimulationRuntime_c/simulation/simulation_runtime.cpp:641-657 | from the default hooks a silent run keeps all hooks as no-ops, and a parameter writer is bound exactly for a non-silent `mat` run |
| CallSolver.CallSolver | om_SimulationRuntime_c/simulation/simulation_runtime.cpp:677-727 | -1 exactly when the sink could not be set up; a throw listing the registered integrators exactly when the name is unknown; otherwise the selected integrator runs, its status is returned and the sink's free hook is called |
| CallSolver.FormatCheckedFirst | om_SimulationRuntime_c/simulation/simulation_runtime.cpp:685-699 | with an unknown output format the call returns -1 whatever the integrator name |
| OutputFilter.AnchoredPattern | om_SimulationRuntime_c/simulation/simulation_runtime.cpp:338 | the compiled pattern is the user's pattern between `^(` and `)$` |
| OutputFilter.AnchoredPatternIsNeverMatchAll | om_SimulationRuntime_c/simulation/simulation_runtime.cpp:338-345 | the anchored pattern never equals `.*`, so the match-all test never fires |
| OutputFilter.InitializeOutputFilter | om_SimulationRuntime_c/simulation/simulation_runtime.cpp:331-348 | only the flags of real variables 0 and `nStates` can change; they become set exactly when there are states and the first is `$dummy`; all else is unchanged |
| OutputFilter.OutputFilterIdempotent | om_SimulationRuntime_c/simulation/simulation_runtime.cpp:340-348 | filtering twice with the same pattern equals filtering once |
| OutputFilter.OutputFilterIgnoresPattern | om_SimulationRuntime_c/simulation/simulation_runtime.cpp:334-348 | as built, the result does not depend on the pattern |
| FilterPass.MarkTopLevel | om_SimulationRuntime_c/simulation/simulation_runtime.cpp:360-361 | an unmarked top-level variable becomes excluded exactly when its name does not match; a marked one stays marked |
| FilterPass.ResolveAliasFrame | om_SimulationRuntime_c/simulation/simulation_runtime.cpp:362-384 | one alias step touches only the alias and its target: other entries keep their values, flags of variables and parameters are only cleared, and an alias of another kind changes nothing |
| FilterPass.ResolveAliasDecides | om_SimulationRuntime_c/simulation/simulation_runtime.cpp:364-383 | after one alias step its target is included, and the alias is excluded exactly when both were included and the alias name does not match |
| FilterPass.ResolveAliasesFromFrame | om_SimulationRuntime_c/simulation/simulation_runtime.cpp:362-384 | the alias walk from position i leaves earlier aliases alone and only ever clears flags of variables and parameters |
| FilterPass.ResolveAliasesFromUntouched | om_SimulationRuntime_c/simulation/simulation_runtime.cpp:362-384 | entries that no alias from position i on points at keep their values through the walk |
| FilterPass.ResolveAliasesFromSpec | om_SimulationRuntime_c/simulation/simulation_runtime.cpp:362-384 | after the walk every handled alias's target is included; a handled alias ends excluded only if it started included and its own name does not match; an alias that is neither a variable nor a parameter alias is left exactly as it was, since :364 and :374 have no other branch |
| FilterPass.ResolveAliasesFromAliasFlags | om_SimulationRuntime_c/simulation/simulation_runtime.cpp:362-384 | for a handled alias from position i on, the walk ends with it excluded exactly when it started included, its name does not match, and its target was included when the walk reached it, because an earlier alias of the walk pointed at it or it was included from the start; otherwise the else branch (:368-372, :378-382) includes it |
| FilterPass.FilterCategorySpec | om_SimulationRuntime_c/simulation/simulation_runtime.cpp:360-384 | after a category's pass every aliased entry is included; an unaliased variable is excluded exactly when it was or its name does not match; unaliased parameters keep their flag; an alias that is neither a variable nor a parameter alias is left exactly as it was; a handled alias is excluded exactly when it started included, its name does not match, and its target was included when reached (an earlier alias pointed at it, or the top-level step left it included) |
| FilterPass.AliasJudgedByOwnName | om_SimulationRuntime_c/simulation/simulation_runtime.cpp:360-373 | a matching target with a non-matching alias ends with the target included and the alias excluded |
| FilterPass.AliasIncludesExcludedTarget | om_SimulationRuntime_c/simulation/simulation_runtime.cpp:360-372 | when neither a variable nor its alias matches, the variable is excluded by the top-level step, so the alias takes the else branch and both end included |
| FilterPass.FilterCategoryNotIdempotent | om_SimulationRuntime_c/simulation/simulation_runtime.cpp:360-373 | unlike the filter as built, the pass is not idempotent: an alias excluded by its own name in a first pass is included again by a second, through the else branch |
| FilterPass.MatchAllPassIsIdentity | om_SimulationRuntime_c/simulation/simulation_runtime.cpp:360-384 | with nothing excluded beforehand and a pattern matching every name, the pass changes nothing |
| FilterPass.FilterWithPatternAsWritten | om_SimulationRuntime_c/simulation/simulation_runtime.cpp:338-459 | with the test as written, a compiling pattern always runs the pass after the placeholder rule, and a failing one leaves the placeholder rule's result |
| FilterPass.FilterWithPattern | om_SimulationRuntime_c/simulation/simulation_runtime.cpp:338-459 | with the intended test, the pattern `.*` and a pattern that does not compile both leave exactly the placeholder rule's result, and for every other pattern the result is that of the filter as written, so the two differ only in the test at :344 |
| FilterPass.MatchAllShortcutDiscrepancy | om_SimulationRuntime_c/simulation/simulation_runtime.cpp:340-384 | for `.*` the written test lets the pass run, and an alias of the placeholder then re-includes it, which the intended test keeps excluded |
| FilterPass.MatchAllShortcutSound | om_SimulationRuntime_c/simulation/simulation_runtime.cpp:344-459 | without earlier exclusions or a placeholder, skipping the pass for `.*` equals running it with a match-all pattern |
| ErrorRouting.RouteAssertion | om_SimulationRuntime_c/simulation/simulation_runtime.cpp:955-999 | event search and optimisation swallow the assertion; an unnamed phase throws; each other phase recovers at its own point, printing the message per its log stream |
| ErrorRouting.RecoveryRoundTrip | om_SimulationRuntime_c/simulation/simulation_runtime.cpp:958-989 | each recovery point is reached from its own phase and from no other |
| ErrorRouting.SetTermMsg | om_SimulationRuntime_c/simulation/simulation_runtime.cpp:128-145 | the formatted message and its terminating zero always fit; the first buffer is max(2 x len + 1, 2048); the buffer never shrinks; a text that does not fit the current (or first) size, i characters long, gets a buffer of exactly 2 x i + 1 |
| ErrorRouting.SetTermMsgStable | om_SimulationRuntime_c/simulation/simulation_runtime.cpp:132-144 | setting the same message again leaves the buffer as it is |
| ErrorRouting.TerminateSimulation | om_SimulationRuntime_c/simulation/simulation_runtime.cpp:1011-1019 | raises the termination flag, stores the message exactly as `setTermMsg` sizes it (so it fits and the buffer does not shrink), and records the caller's location in `TermInfo` |
| ErrorRouting.ThrowSimulation | om_SimulationRuntime_c/simulation/simulation_runtime.cpp:1021-1027 | stores the fixed message exactly as `setTermMsg` sizes it: 2048 bytes on first use, an allocated buffer with room kept as it is; the termination flag is kept and `TermInfo` is reset to the dummy location |
| Clock.SelectClock | om_SimulationRuntime_c/simulation/simulation_runtime.cpp:487-508 | no flag gives real time; a clock chosen without warning carries the given name; a warning is given exactly for names other than CPU, RT and CYC, which fall back to real time |
| Clock.ClockRoundTrip | om_SimulationRuntime_c/simulation/simulation_runtime.cpp:490-503 | each clock's name selects it without a warning |

## Left out

- The non-local jumps (`setjmp`/`longjmp`, simulation_runtime.cpp:906-953 and the jump buffers): routing only names the recovery point. `THROW` is taken to be non-returning, so `retVal = 1` at :706 and the `return NLS_NONE` / `return LS_NONE` lines are not results.
- The QSS branch of `callSolver` (:712-719): it exists only when the runtime is built with the QSS library.
- `solver_main`, `qss_main`, the CSV/MAT/PLT writer bodies and the alloc/free functions of the solver subsystems: their bodies are not part of this model. The integrator's status is a parameter, and a writer is represented by its name.
- The initial contents of `useStream` and of the `sim_result` hooks are not shown. Both are parameters. The comment at :642 gives the default hooks as no-ops (`ResultData.DefaultHooks`).
- Stream identifiers: the model requires that no summary stream switched on by an implication triggers another one. This follows from the stream enumeration, which is not part of this model.
- The regular-expression engine (`regcomp`/`regexec`): the match result is an abstract predicate and compilation success a boolean. The error text of a failed compilation is not modelled.
- The `vsnprintf` formatting in `setTermMsg`: only the capacity arithmetic is modelled. The formatted length is a parameter. A negative return value, and the reuse of an already consumed `va_list` on the second formatting, are not modelled.
- ErrorRouting.SetTermMsg: `size_t` wrap-around of `2 * strlen(msg) + 1` and `2 * i + 1` is not modelled, because the sizes are unbounded naturals here.
- ResultData.InitializeResultData: the `long` overflow of `4 * numSteps` is not modelled, because the step count is an unbounded integer here.
- Clock selection: the warning for a clock that `rt_set_clock` rejects (:509-512) is not modelled, because `rt_set_clock` is not part of this model.
- Help text and flag printing (:738-805), timer and profiling setup (:515-525, :614-622), the interactive control thread and status socket (:307-325, :843-862, :884-895), and the SIGUSR1 status dump (:868-882): these are output, concurrency and network I/O.
- Floating-point work: the `numSteps` truncation (:485), `atof`/`atoi` of the linearisation and initialisation settings (:532, :582, :588) and the linearisation pass.
- The rest of `startNonInteractiveSimulation` and `initRuntimeAndSimulation` (:468-625, :733-866): mostly sequencing of the modelled procedures and the collaborators above. Decisions there that are not modelled:
  - the `-s` override at :536-544, which replaces `solverMethod`, the string `callSolver` then resolves (`CallSolver.CallSolver` takes the method name as given);
  - the default result file name at :549-552, `<modelFilePrefix>_res.<outputFormat>` when `-r` is absent;
  - the null check of `data` at :809-812, which reports the failure and carries on;
  - the empty-model test at :833-837. It reads `nVariablesReal == 0 && nVariablesInteger && nVariablesBoolean`, so it rejects a model without reals only when it has integers and booleans.
- OutputFilter.InitializeOutputFilter: models the build without `_MSC_VER`. Under MSVC the whole body (:333-461) is compiled out and no flag changes, not even for `$dummy`.
- Verbosity.SelectedStreamsSpec: assumes `unsigned long` is as wide as `size_t`, so `pos != string::npos` at :186 works. On an LLP64 target (64-bit Windows) the stored `npos` is truncated, the test is always true, `pos + 1` at :189 wraps to 0, and the loop does not end when the last token is a valid name. Widths of integer types are not modelled.
- The `extern` declarations of the index-specification header (`next_index`, `create_index_spec`, ...): no bodies are shown.
- The leaked `new string` allocations of the flag parsers: memory is not modelled.

## Findings

| source | as written | input that shows it | evidently intended | confidence | as-written member | corrected member |
|---|---|---|---|---|---|---|
| om_SimulationRuntime_c/simulation/simulation_runtime.cpp:338-345 | the match-all test compares the anchored pattern `^(...)$` with `.*`, so it can never succeed | variable filter `.*` on a model whose `$dummy` state has an alias: the pass runs, and the alias re-includes the placeholder | skip the pass when the user's pattern is `.*` | high that the test never fires; not executed, and only observable if the early return at :348 is removed | FilterPass.FilterWithPatternAsWritten | FilterPass.FilterWithPattern |
