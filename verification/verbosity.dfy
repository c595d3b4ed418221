/** `setGlobalVerboseLevel`: turning the `-lv` flag into the set of active
    log streams.

    `useStream` is the runtime's array of stream switches, indexed by stream
    identifier, of length `LOG_MAX`.  The stream name table and the stream
    identifiers come from the error-reporting header, which is not part of
    this model; they are parameters here. */
module Verbosity {
  import opened Common
  import opened Strings

  /** Identifiers of the streams the procedure names explicitly. */
  datatype StreamIds = StreamIds(
    stdout: nat, assertion: nat,
    init: nat, soti: nat,
    solver: nat, stats: nat,
    nls: nat, nlsV: nat, nlsJac: nat,
    events: nat, eventsV: nat,
    dss: nat, dssJac: nat)
  {
    /** Every named stream is an entry of a table with `n` entries. */
    predicate Within(n: nat)
    {
      && stdout < n && assertion < n && init < n && soti < n && solver < n && stats < n
      && nls < n && nlsV < n && nlsJac < n && events < n && eventsV < n && dss < n && dssJac < n
    }

    /** No stream switched on by an implication triggers another one. */
    predicate ImplicationsFlat()
    {
      {init, solver, nlsV, eventsV, nlsJac, dssJac} !! {soti, stats, nls, events, dss}
    }
  }

  /** The stream table: `names[i]` is `LOG_STREAM_NAME[i]`, `|names|` is
      `LOG_MAX`, and only streams from `firstOMCErrorStream` on may be
      selected by name. */
  datatype LogTable = LogTable(names: seq<string>, firstOMCErrorStream: nat, ids: StreamIds)

  /** What the stream enumeration guarantees: the named streams are entries
      of the table, and the detailed streams that trigger an implication are
      other streams than the summary streams they switch on. */
  predicate ValidTable(t: LogTable)
  {
    && t.firstOMCErrorStream <= |t.names|
    && t.ids.Within(|t.names|)
    && t.ids.ImplicationsFlat()
  }

  /** The switches the procedure leaves behind, and the `-w` setting it
      copies on the way. */
  datatype VerboseState = VerboseState(useStream: seq<bool>, showAllWarnings: bool)

  /** The stream names a user may give, as listed when a name is rejected. */
  function SelectableNames(t: LogTable): seq<string>
    requires t.firstOMCErrorStream <= |t.names|
  {
    t.names[t.firstOMCErrorStream..]
  }

  /** `tok` names a selectable stream. */
  predicate KnownStream(t: LogTable, tok: string)
    requires t.firstOMCErrorStream <= |t.names|
  {
    tok in SelectableNames(t)
  }

  /** The `LOG_ALL` branch: every stream from 1 on is switched on; stream 0
      keeps its value. */
  function EnableAll(u: seq<bool>): (r: seq<bool>)
    ensures |r| == |u|
    ensures forall k :: 0 <= k < |u| ==> r[k] == (u[k] || k >= 1)
  {
    seq(|u|, k requires 0 <= k < |u| => if k >= 1 then true else u[k])
  }

  /** One pass of the inner loop for token `tok`: every selectable stream
      whose name equals `tok` is switched on. */
  function EnableMatching(t: LogTable, u: seq<bool>, tok: string): (r: seq<bool>)
    requires |u| == |t.names|
  {
    seq(|u|, k requires 0 <= k < |u| => u[k] || (t.firstOMCErrorStream <= k && t.names[k] == tok))
  }

  /** The comma-separated branch: tokens are handled in order and the first
      unknown one aborts (`None`). */
  function EnableTokens(t: LogTable, u: seq<bool>, toks: seq<string>): (r: Option<seq<bool>>)
    requires |u| == |t.names|
    requires t.firstOMCErrorStream <= |t.names|
    decreases |toks|
  {
    if toks == [] then Some(u)
    else if !KnownStream(t, toks[0]) then None
    else EnableTokens(t, EnableMatching(t, u, toks[0]), toks[1..])
  }

  /** The token loop succeeds exactly when every token names a selectable
      stream, and then it switches on exactly the selectable streams whose
      name is one of the tokens, keeping all switches already on. */
  lemma {:induction false} EnableTokensSpec(t: LogTable, u: seq<bool>, toks: seq<string>)
    requires |u| == |t.names|
    requires t.firstOMCErrorStream <= |t.names|
    ensures EnableTokens(t, u, toks).Some? <==> forall k :: 0 <= k < |toks| ==> KnownStream(t, toks[k])
    ensures EnableTokens(t, u, toks).Some? ==>
              var r := EnableTokens(t, u, toks).value;
              |r| == |u| &&
              forall k :: 0 <= k < |u| ==>
                r[k] == (u[k] || (t.firstOMCErrorStream <= k && t.names[k] in toks))
    decreases |toks|
  {
    if toks != [] && KnownStream(t, toks[0]) {
      var u' := EnableMatching(t, u, toks[0]);
      EnableTokensSpec(t, u', toks[1..]);
      assert toks == [toks[0]] + toks[1..];
      if EnableTokens(t, u, toks).Some? {
        var r := EnableTokens(t, u, toks).value;
        forall k | 0 <= k < |u|
          ensures r[k] == (u[k] || (t.firstOMCErrorStream <= k && t.names[k] in toks))
        {
          assert t.names[k] in toks <==> (t.names[k] == toks[0] || t.names[k] in toks[1..]);
        }
      }
      if forall k :: 0 <= k < |toks[1..]| ==> KnownStream(t, toks[1..][k]) {
        forall k | 0 <= k < |toks|
          ensures KnownStream(t, toks[k])
        {
          if k > 0 {
            assert toks[k] == toks[1..][k - 1];
          }
        }
      } else {
        var k :| 0 <= k < |toks[1..]| && !KnownStream(t, toks[1..][k]);
        assert toks[k + 1] == toks[1..][k];
      }
    } else if toks != [] {
      assert !KnownStream(t, toks[0]);
    }
  }

  /** The fixed implications, applied one after the other as written: a
      detailed stream drags its summary stream along.  Because no implied
      stream triggers another implication, the order does not matter and each
      summary stream ends up on exactly when it or one of its detailed
      streams was on. */
  function ApplyImplications(ids: StreamIds, u: seq<bool>): (r: seq<bool>)
    requires ids.Within(|u|) && ids.ImplicationsFlat()
    ensures |r| == |u|
    ensures forall k :: 0 <= k < |u| ==>
              r[k] == (|| u[k]
                       || (k == ids.soti && u[ids.init])
                       || (k == ids.stats && u[ids.solver])
                       || (k == ids.nls && (u[ids.nlsV] || u[ids.nlsJac]))
                       || (k == ids.events && u[ids.eventsV])
                       || (k == ids.dss && u[ids.dssJac]))
  {
    var u1 := Imply(u, ids.init, ids.soti);
    var u2 := Imply(u1, ids.solver, ids.stats);
    var u3 := Imply(u2, ids.nlsV, ids.nls);
    var u4 := Imply(u3, ids.eventsV, ids.events);
    var u5 := Imply(u4, ids.nlsJac, ids.nls);
    assert u5[ids.dssJac] == u[ids.dssJac];
    Imply(u5, ids.dssJac, ids.dss)
  }

  /** One implication: `dst` is switched on when `src` is on. */
  function Imply(u: seq<bool>, src: nat, dst: nat): (r: seq<bool>)
    requires src < |u| && dst < |u|
    ensures |r| == |u|
    ensures forall k :: 0 <= k < |u| ==> r[k] == (u[k] || (k == dst && u[src]))
  {
    if u[src] then u[dst := true] else u
  }

  /** The switches selected by the flag itself, before the always-on streams
      and the implications: `None` when a token is unknown. */
  function SelectedStreams(t: LogTable, u: seq<bool>, flags: string): Option<seq<bool>>
    requires |u| == |t.names|
    requires t.firstOMCErrorStream <= |t.names|
  {
    if Contains(flags, "LOG_ALL") then Some(EnableAll(u))
    else EnableTokens(t, u, Split(flags, ','))
  }

  /** Stream `k` is asked for by the flag, or was already on: under `LOG_ALL`
      every stream from 1 on is asked for, otherwise the selectable streams
      whose name is one of the comma-separated tokens. */
  predicate Requested(t: LogTable, u: seq<bool>, flags: string, k: nat)
    requires |u| == |t.names|
  {
    && k < |u|
    && (|| u[k]
        || (if Contains(flags, "LOG_ALL") then k >= 1
            else t.firstOMCErrorStream <= k && t.names[k] in Split(flags, ',')))
  }

  /** The selection step keeps the table size, and yields exactly the
      requested streams when it succeeds. */
  lemma {:induction false} SelectedStreamsSpec(t: LogTable, u: seq<bool>, flags: string)
    requires |u| == |t.names|
    requires t.firstOMCErrorStream <= |t.names|
    ensures SelectedStreams(t, u, flags).None?
            <==> (!Contains(flags, "LOG_ALL")
                  && exists k :: 0 <= k < |Split(flags, ',')| && !KnownStream(t, Split(flags, ',')[k]))
    ensures SelectedStreams(t, u, flags).Some? ==>
              var r := SelectedStreams(t, u, flags).value;
              |r| == |u| && forall k :: 0 <= k < |u| ==> (r[k] <==> Requested(t, u, flags, k))
  {
    if !Contains(flags, "LOG_ALL") {
      var toks := Split(flags, ',');
      EnableTokensSpec(t, u, toks);
      if EnableTokens(t, u, toks).None? {
        var k :| 0 <= k < |toks| && !KnownStream(t, toks[k]);
        assert SelectedStreams(t, u, flags).None?;
        assert exists j :: 0 <= j < |Split(flags, ',')| && !KnownStream(t, Split(flags, ',')[j]);
      }
    }
  }

  /** `setGlobalVerboseLevel` on the flag value `lv` (`None` when `-lv` is
      absent), the `-w` flag and the switches as they stood before. */
  function SetGlobalVerboseLevel(t: LogTable, lv: Option<string>, warnAll: bool, s: VerboseState)
    : (r: Result<VerboseState, ConfigError>)
    requires ValidTable(t)
    requires |s.useStream| == |t.names|
    ensures r.Success? ==> |r.value.useStream| == |s.useStream|
    ensures r.Success? ==> r.value.showAllWarnings == (warnAll || s.showAllWarnings)
    ensures r.Success? ==> r.value.useStream[t.ids.stdout] && r.value.useStream[t.ids.assertion]
    ensures r.Success? ==> forall k :: 0 <= k < |s.useStream| && s.useStream[k] ==> r.value.useStream[k]
    ensures lv.None? ==>
              (&& r.Success?
               && forall k :: 0 <= k < |s.useStream| ==>
                    r.value.useStream[k] == (s.useStream[k] || k == t.ids.stdout || k == t.ids.assertion))
    ensures r.Failure? ==> lv.Some? && r.error == UnrecognizedLogStream(lv.value, SelectableNames(t))
  {
    var showAll := warnAll || s.showAllWarnings;
    match lv
    case None =>
      Success(VerboseState(ForceAlwaysOn(t.ids, s.useStream), showAll))
    case Some(flags) =>
      SelectedStreamsSpec(t, s.useStream, flags);
      match SelectedStreams(t, s.useStream, flags)
      case None => Failure(UnrecognizedLogStream(flags, SelectableNames(t)))
      case Some(u) =>
        var forced := ForceAlwaysOn(t.ids, u);
        assert forall k :: 0 <= k < |u| && s.useStream[k] ==> forced[k];
        Success(VerboseState(ApplyImplications(t.ids, forced), showAll))
  }

  /** STDOUT and ASSERT are switched on whatever the flag says. */
  function ForceAlwaysOn(ids: StreamIds, u: seq<bool>): (r: seq<bool>)
    requires ids.stdout < |u| && ids.assertion < |u|
    ensures |r| == |u|
    ensures forall k :: 0 <= k < |u| ==> r[k] == (u[k] || k == ids.stdout || k == ids.assertion)
  {
    u[ids.stdout := true][ids.assertion := true]
  }

  /** The flag is rejected exactly when it does not contain `LOG_ALL` and one
      of its comma-separated tokens (an empty one included) names no
      selectable stream. */
  lemma {:induction false} VerbosityRejects(t: LogTable, flags: string, warnAll: bool, s: VerboseState)
    requires ValidTable(t)
    requires |s.useStream| == |t.names|
    ensures SetGlobalVerboseLevel(t, Some(flags), warnAll, s).Failure?
            <==> (&& !(exists i: nat :: OccursAt(flags, "LOG_ALL", i))
                  && exists k :: 0 <= k < |Split(flags, ',')| && !KnownStream(t, Split(flags, ',')[k]))
  {
    ContainsIffOccurs(flags, "LOG_ALL");
    SelectedStreamsSpec(t, s.useStream, flags);
  }

  /** After a successful parse a stream is on exactly when it was requested
      (or already on), is STDOUT or ASSERT, or is the summary stream of a
      detailed stream that is on by one of those routes. */
  lemma {:induction false} VerbosityStreams(t: LogTable, flags: string, warnAll: bool, s: VerboseState)
    requires ValidTable(t)
    requires |s.useStream| == |t.names|
    requires SetGlobalVerboseLevel(t, Some(flags), warnAll, s).Success?
    ensures var r := SetGlobalVerboseLevel(t, Some(flags), warnAll, s).value.useStream;
            var ids := t.ids;
            forall k :: 0 <= k < |r| ==>
              r[k] == (|| On(t, s.useStream, flags, k)
                       || (k == ids.soti && On(t, s.useStream, flags, ids.init))
                       || (k == ids.stats && On(t, s.useStream, flags, ids.solver))
                       || (k == ids.nls && (On(t, s.useStream, flags, ids.nlsV) || On(t, s.useStream, flags, ids.nlsJac)))
                       || (k == ids.events && On(t, s.useStream, flags, ids.eventsV))
                       || (k == ids.dss && On(t, s.useStream, flags, ids.dssJac)))
  {
    var forced := ForcedStreams(t, s.useStream, flags);
    assert SetGlobalVerboseLevel(t, Some(flags), warnAll, s).value.useStream
           == ApplyImplications(t.ids, forced);
  }

  /** The switches after the selection step and the always-on streams,
      before the implications; each is on exactly when `On` says so. */
  function ForcedStreams(t: LogTable, u: seq<bool>, flags: string): (r: seq<bool>)
    requires ValidTable(t)
    requires |u| == |t.names|
    requires SelectedStreams(t, u, flags).Some?
    ensures |r| == |u|
    ensures forall x :: 0 <= x < |u| ==> r[x] == On(t, u, flags, x)
  {
    SelectedStreamsSpec(t, u, flags);
    ForceAlwaysOn(t.ids, SelectedStreams(t, u, flags).value)
  }

  /** Stream `k` is on before the implications run: requested, or always on. */
  predicate On(t: LogTable, u: seq<bool>, flags: string, k: nat)
    requires |u| == |t.names|
  {
    Requested(t, u, flags, k) || k == t.ids.stdout || k == t.ids.assertion
  }

  /** Without `-lv` only the always-on streams are switched on: from all
      switches off, exactly STDOUT and ASSERT end up on, and no implication
      is applied. */
  lemma NoFlagDefaults(t: LogTable, warnAll: bool, n: nat)
    requires ValidTable(t)
    requires n == |t.names|
    ensures var r := SetGlobalVerboseLevel(t, None, warnAll, VerboseState(seq(n, _ => false), false));
            && r.Success?
            && forall k :: 0 <= k < n ==> (r.value.useStream[k] <==> k == t.ids.stdout || k == t.ids.assertion)
  {
  }
}
