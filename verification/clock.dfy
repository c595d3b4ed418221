/** The choice of the clock used for timing measurements, from the
    `-clock` flag of a non-interactive run. */
module Clock {
  import opened Common

  /** The clocks the runtime can measure with. */
  datatype ClockKind = CpuTime | RealTime | CpuCycles

  /** The flag value that selects each clock. */
  function ClockName(c: ClockKind): string
  {
    match c
    case CpuTime => "CPU"
    case RealTime => "RT"
    case CpuCycles => "CYC"
  }

  /** The chosen clock and whether an unknown name was warned about. */
  datatype ClockChoice = ClockChoice(clock: ClockKind, warnedUnknown: bool)

  /** No flag, `"RT"` or an unknown name gives the real-time clock (the
      unknown name with a warning); `"CPU"` and `"CYC"` give their clocks. */
  function SelectClock(clockName: Option<string>): (r: ClockChoice)
    ensures clockName.None? ==> r == ClockChoice(RealTime, false)
    ensures clockName.Some? && !r.warnedUnknown ==> ClockName(r.clock) == clockName.value
    ensures clockName.Some? ==>
              (r.warnedUnknown <==> clockName.value !in {"CPU", "RT", "CYC"})
    ensures r.warnedUnknown ==> r.clock == RealTime
  {
    match clockName
    case None => ClockChoice(RealTime, false)
    case Some(name) =>
      if name == "CPU" then ClockChoice(CpuTime, false)
      else if name == "RT" then ClockChoice(RealTime, false)
      else if name == "CYC" then ClockChoice(CpuCycles, false)
      else ClockChoice(RealTime, true)
  }

  /** Naming a clock selects it, without a warning. */
  lemma ClockRoundTrip(c: ClockKind)
    ensures SelectClock(Some(ClockName(c))) == ClockChoice(c, false)
  {
  }
}
