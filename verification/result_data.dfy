/** `initializeResultData`: binding the result stream's hooks to the writer
    of the configured output format.  The writers themselves are not part of
    this model; a hook is represented by the writer it is bound to. */
module ResultData {
  import opened Common

  /** The implementation a hook of the result stream is bound to.  `NoEmit`
      is the do-nothing default of the runtime. */
  datatype Writer = NoEmit | Csv | Mat4 | Plt

  /** The four hooks of `sim_result`. */
  datatype Hooks = Hooks(init: Writer, emit: Writer, writeParameterData: Writer, free: Writer)

  /** The hooks before any format is chosen: all no-ops. */
  const DefaultHooks := Hooks(NoEmit, NoEmit, NoEmit, NoEmit)

  /** `sim_result` after initialisation. */
  datatype ResultStream = ResultStream(filename: string, numpoints: int, cpuTime: int, hooks: Hooks)

  /** What the procedure reads: the step count estimate, the result file
      name, the `-cpu` flag, the interactive and no-emit switches and the
      output format tag. */
  datatype SinkRequest = SinkRequest(
    numSteps: int, filename: string, cpuTime: int,
    interactive: bool, noEmit: bool, outputFormat: string)

  /** The outcome: the return code, the stream as left behind, and the
      writer whose `init` was called (`None` when none was). */
  datatype SinkInit = SinkInit(code: int, stream: ResultStream, initCalled: Option<Writer>)

  /** The result stream stays a no-op for interactive runs, with `-noemit`,
      and for the format `"empty"`. */
  predicate SilentSink(req: SinkRequest)
  {
    req.interactive || req.noEmit || req.outputFormat == "empty"
  }

  /** The formats with a writer. */
  predicate KnownFormat(format: string)
  {
    format == "csv" || format == "mat" || format == "plt"
  }

  /** The writer of a known format. */
  function FormatWriter(format: string): Writer
    requires KnownFormat(format)
  {
    if format == "csv" then Csv else if format == "mat" then Mat4 else Plt
  }

  /** `initializeResultData`, starting from the hooks `prior` that
      `sim_result` holds beforehand. */
  function InitializeResultData(req: SinkRequest, prior: Hooks): (r: SinkInit)
    ensures r.stream.filename == req.filename && r.stream.cpuTime == req.cpuTime
    ensures r.stream.numpoints == 4 * req.numSteps
    ensures r.code == 0 || r.code == 1
    ensures r.code == 1 <==> !SilentSink(req) && !KnownFormat(req.outputFormat)
    ensures r.code == 1 ==> r.initCalled == None && r.stream.hooks == prior
    ensures r.code == 0 ==> r.initCalled == Some(r.stream.hooks.init)
    ensures SilentSink(req) ==> r.stream.hooks == prior
    ensures !SilentSink(req) && KnownFormat(req.outputFormat) ==>
              var w := FormatWriter(req.outputFormat);
              && r.stream.hooks.init == w && r.stream.hooks.emit == w && r.stream.hooks.free == w
              && r.stream.hooks.writeParameterData == (if w == Mat4 then Mat4 else prior.writeParameterData)
  {
    var base := ResultStream(req.filename, 4 * req.numSteps, req.cpuTime, prior);
    if SilentSink(req) then
      SinkInit(0, base, Some(prior.init))
    else if req.outputFormat == "csv" then
      var s := base.(hooks := prior.(init := Csv, emit := Csv, free := Csv));
      SinkInit(0, s, Some(Csv))
    else if req.outputFormat == "mat" then
      var s := base.(hooks := Hooks(Mat4, Mat4, Mat4, Mat4));
      SinkInit(0, s, Some(Mat4))
    else if req.outputFormat == "plt" then
      var s := base.(hooks := prior.(init := Plt, emit := Plt, free := Plt));
      SinkInit(0, s, Some(Plt))
    else
      SinkInit(1, base, None)
  }

  /** From the default hooks, a silent request yields a sink that does
      nothing at all, and only the `mat` format ever gets a parameter
      writer. */
  lemma DefaultSinkWriters(req: SinkRequest)
    ensures var r := InitializeResultData(req, DefaultHooks);
            && (SilentSink(req) ==> r.stream.hooks == DefaultHooks)
            && (r.stream.hooks.writeParameterData != NoEmit
                <==> !SilentSink(req) && req.outputFormat == "mat")
  {
  }
}
