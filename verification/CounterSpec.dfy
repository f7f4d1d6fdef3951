/**
  What the sample-counter monitor is supposed to report, said over the whole
  history of the two callers (the read loop observes, the diagnostics timer
  takes) instead of over the incremental state.
 */
module CounterSpec {
  import opened Machine

  // ---------------------------------------------------------------- deltas

  /** uint32 subtraction of two raw counter readings. */
  function Delta(previous: uint32, current: uint32): uint32 {
    (current - previous) % TWO32
  }

  /** The deltas between consecutive readings. */
  function Deltas(values: seq<uint32>): (ds: seq<uint32>)
    ensures |ds| == if values == [] then 0 else |values| - 1
    ensures forall i :: 0 <= i < |ds| ==> ds[i] == Delta(values[i], values[i + 1])
  {
    if values == [] then []
    else seq(|values| - 1, i requires 0 <= i < |values| - 1 => Delta(values[i], values[i + 1]))
  }

  /** Adds up what each delta weighs. */
  function Count(weight: uint32 -> nat, ds: seq<uint32>): nat {
    if ds == [] then 0 else Count(weight, ds[..|ds| - 1]) + weight(ds[|ds| - 1])
  }

  function RepeatWeight(d: uint32): nat { if d == 0 then 1 else 0 }

  function SkipWeight(d: uint32): nat { if d > 1 then d - 1 else 0 }

  function JumpWeight(d: uint32): nat { if d > 1 then 1 else 0 }

  function Repeats(ds: seq<uint32>): nat { Count(RepeatWeight, ds) }

  function Skipped(ds: seq<uint32>): nat { Count(SkipWeight, ds) }

  function Jumps(ds: seq<uint32>): nat { Count(JumpWeight, ds) }

  function MaxDelta(ds: seq<uint32>): uint32 {
    if ds == [] then 0 else Max(MaxDelta(ds[..|ds| - 1]), ds[|ds| - 1])
  }

  /** Length of the run of zero deltas that ends at the end of `ds`. */
  function Run(ds: seq<uint32>): nat {
    if ds == [] || ds[|ds| - 1] != 0 then 0 else 1 + Run(ds[..|ds| - 1])
  }

  /** The run as the 32-bit counter shows it. */
  function ShownRun(ds: seq<uint32>): uint32 {
    Wrap32(Run(ds))
  }

  /** Largest shown run at position `start` or at any later position of `ds`. */
  function LongestRun(ds: seq<uint32>, start: nat): uint32
    requires start <= |ds|
    decreases |ds|
  {
    if start == |ds| then ShownRun(ds)
    else Max(LongestRun(ds[..|ds| - 1], start), ShownRun(ds))
  }

  // ------------------------------------------------------------- histories

  datatype Event = Observed(value: uint32) | Taken(elapsed: real)

  /** One taken window: the deltas `start..end`, and the time it covered. */
  datatype Window = Window(start: nat, end: nat, elapsed: real)

  datatype Rates = Rates(sensor: real, read: real)

  function Seen(log: seq<Event>): seq<uint32> {
    if log == [] then []
    else
      var past := Seen(log[..|log| - 1]);
      match log[|log| - 1]
      case Observed(value) => past + [value]
      case Taken(_) => past
  }

  function LogDeltas(log: seq<Event>): seq<uint32> {
    Deltas(Seen(log))
  }

  /** Where the open window starts. */
  function Cut(log: seq<Event>): (cut: nat)
    ensures cut <= |LogDeltas(log)|
  {
    if log == [] then 0
    else
      match log[|log| - 1]
      case Observed(_) => Cut(log[..|log| - 1])
      case Taken(_) => |LogDeltas(log)|
  }

  /** The windows follow each other without gap or overlap, from 0 to `end`. */
  predicate Tiles(ws: seq<Window>, end: nat) {
    if ws == [] then end == 0
    else
      var w := ws[|ws| - 1];
      w.start <= w.end == end && Tiles(ws[..|ws| - 1], w.start)
  }

  function Windows(log: seq<Event>): (ws: seq<Window>)
    ensures Tiles(ws, Cut(log))
  {
    if log == [] then []
    else
      var past := log[..|log| - 1];
      match log[|log| - 1]
      case Observed(_) => Windows(past)
      case Taken(elapsed) => Windows(past) + [Window(Cut(past), |LogDeltas(past)|, elapsed)]
  }

  /** The time that the takes covered. */
  function TakenTime(log: seq<Event>): real {
    if log == [] then 0.0
    else
      match log[|log| - 1]
      case Observed(_) => TakenTime(log[..|log| - 1])
      case Taken(elapsed) => TakenTime(log[..|log| - 1]) + elapsed
  }

  lemma OneMoreTime(log: seq<Event>, e: Event)
    ensures TakenTime(log + [e]) == TakenTime(log) + if e.Taken? then e.elapsed else 0.0
  {
    assert (log + [e])[..|log|] == log;
  }

  /** The counters of the open window, as machine words. */
  datatype Tally = Tally(
    previous: Option<uint32>, repeats: uint64, skipped: uint64, jumps: uint64,
    maxDelta: uint32, run: uint32, longest: uint32)

  function TallyOf(ds: seq<uint32>, start: nat, previous: Option<uint32>): Tally
    requires start <= |ds|
  {
    var window := ds[start..];
    Tally(previous, Wrap64(Repeats(window)), Wrap64(Skipped(window)), Wrap64(Jumps(window)),
          MaxDelta(window), ShownRun(ds), LongestRun(ds, start))
  }

  function Last(values: seq<uint32>): Option<uint32> {
    if values == [] then None else Some(values[|values| - 1])
  }

  /** What the state must hold after the history `log`. */
  function Shown(log: seq<Event>): Tally {
    TallyOf(LogDeltas(log), Cut(log), Last(Seen(log)))
  }

  // --------------------------------------------------------------- reports

  datatype Report = Report(
    repeatedReads: uint64, skippedSamples: uint64, jumpEvents: uint64,
    maxDelta: uint32, consecutiveRepeats: uint32, maxConsecutiveRepeats: uint32,
    elapsed: real, perSecond: PerSecond, largeJump: uint32, level: Level)

  /** The numbers of a window per second, as expected of the rates and as counted. */
  datatype PerSecond = PerSecond(
    expectedRepeats: real, expectedSkipped: real, expectedJumps: real,
    actualRepeats: real, actualSkipped: real, actualJumps: real)

  function Ceil(x: real): int {
    -((-x).Floor)
  }

  function ExpectedRepeats(rates: Rates): real {
    MaxReal(0.0, rates.read - rates.sensor)
  }

  function ExpectedSkipped(rates: Rates): real {
    MaxReal(0.0, rates.sensor - rates.read)
  }

  /** Both rates are positive, and five times their ratio fits in a uint32: otherwise the
      conversion to uint32 is undefined. */
  predicate RatesFit(rates: Rates) {
    rates.sensor > 0.0 && rates.read > 0.0 && 5.0 * rates.sensor <= (TWO32 - 1) as real * rates.read
  }

  lemma RatioFits(rates: Rates)
    requires RatesFit(rates)
    ensures Ceil(rates.sensor / rates.read * 5.0) < TWO32
  {
    var ratio := rates.sensor / rates.read;
    assert rates.sensor == ratio * rates.read;
    assert ratio * 5.0 <= (TWO32 - 1) as real;
  }

  /** Five times the ratio of the rates, rounded up, but at least 10. */
  function LargeJump(rates: Rates): uint32
    requires RatesFit(rates)
  {
    RatioFits(rates);
    Max(10, Ceil(rates.sensor / rates.read * 5.0))
  }

  /** Windows shorter than a millisecond are judged as one millisecond. */
  function Clamp(elapsed: real): (e: real)
    ensures e >= 0.001
  {
    MaxReal(0.001, elapsed)
  }

  /** A window stays within `run` repeats in a row, the given margins over twice the
      expected rates, and `jump` as largest delta. */
  predicate Within(r: Report, rates: Rates, run: nat, repeatMargin: real, skipMargin: real, jump: nat)
    requires r.elapsed > 0.0
  {
    && r.maxConsecutiveRepeats < run
    && r.repeatedReads as real / r.elapsed <= ExpectedRepeats(rates) * 2.0 + repeatMargin
    && r.skippedSamples as real / r.elapsed <= ExpectedSkipped(rates) * 2.0 + skipMargin
    && r.maxDelta <= jump
  }

  function Judge(r: Report, rates: Rates): Level
    requires r.elapsed > 0.0 && RatesFit(rates)
  {
    if !Within(r, rates, 50, 100.0, 50.0, LargeJump(rates) * 5) then ERROR
    else if !Within(r, rates, 10, 60.0, 30.0, LargeJump(rates)) then WARN
    else OK
  }

  function PerSecondOf(t: Tally, elapsed: real, rates: Rates): PerSecond
    requires elapsed > 0.0
  {
    PerSecond(
      ExpectedRepeats(rates), ExpectedSkipped(rates), MinReal(rates.read, ExpectedSkipped(rates)),
      t.repeats as real / elapsed, t.skipped as real / elapsed, t.jumps as real / elapsed)
  }

  /** What a take must report for window `w` of the delta stream `ds`. */
  function ReportOf(ds: seq<uint32>, w: Window, rates: Rates): Report
    requires w.start <= w.end <= |ds| && RatesFit(rates)
  {
    var t := TallyOf(ds[..w.end], w.start, None);
    var elapsed := Clamp(w.elapsed);
    var r := Report(
      t.repeats, t.skipped, t.jumps, t.maxDelta, t.run, t.longest,
      elapsed, PerSecondOf(t, elapsed, rates), LargeJump(rates), OK);
    r.(level := Judge(r, rates))
  }

  /** The report, said without any of the above: what window `w` of the delta stream and the
      two rates make of every number per second, of the threshold, and of the level. */
  lemma ReportMeaning(ds: seq<uint32>, w: Window, rates: Rates)
    requires RatesFit(rates) && w.start <= w.end <= |ds|
    ensures var r := ReportOf(ds, w, rates);
            var window := ds[w.start..w.end];
            var e := if w.elapsed < 0.001 then 0.001 else w.elapsed;
            var repeatRate := if rates.read > rates.sensor then rates.read - rates.sensor else 0.0;
            var skipRate := if rates.sensor > rates.read then rates.sensor - rates.read else 0.0;
            var repeats: nat := Repeats(window) % 0x1_0000_0000_0000_0000;
            var skipped: nat := Skipped(window) % 0x1_0000_0000_0000_0000;
            var jumps: nat := Jumps(window) % 0x1_0000_0000_0000_0000;
            var ratio := rates.sensor / rates.read;
            var run, delta, jump := LongestRun(ds[..w.end], w.start), MaxDelta(window), r.largeJump;
            && r.elapsed == e && r.repeatedReads == repeats && r.skippedSamples == skipped && r.jumpEvents == jumps
            && r.maxDelta == delta && r.maxConsecutiveRepeats == run
            && r.consecutiveRepeats == Run(ds[..w.end]) % 0x1_0000_0000
            && r.perSecond.expectedRepeats == repeatRate && r.perSecond.expectedSkipped == skipRate
            && r.perSecond.expectedJumps == (if rates.read < skipRate then rates.read else skipRate)
            && r.perSecond.actualRepeats * e == repeats as real && r.perSecond.actualSkipped * e == skipped as real
            && r.perSecond.actualJumps * e == jumps as real
            && 10 <= jump && 5.0 * ratio <= jump as real && (jump == 10 || jump as real < 5.0 * ratio + 1.0)
            && (r.level == ERROR <==>
                || run >= 50 || delta > 5 * jump
                || repeats as real / e > 2.0 * repeatRate + 100.0 || skipped as real / e > 2.0 * skipRate + 50.0)
            && (r.level == OK <==>
                && run < 10 && delta <= jump
                && repeats as real / e <= 2.0 * repeatRate + 60.0 && skipped as real / e <= 2.0 * skipRate + 30.0)
            && r.level != STALE
  {
    hide Repeats, Skipped, Jumps, MaxDelta, Run, LongestRun;
    assert ds[..w.end][w.start..] == ds[w.start..w.end];
  }
}
