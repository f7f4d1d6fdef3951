/**
  The runtime-SDO supervisor, said over its whole history: what each 1 Hz tick found and
  whether it launched a worker. Everything the supervisor holds is a function of this
  trace, and the laws below speak of every trace that the rule `LegalTick` allows.
 */
module SdoTrace {
  import opened Machine

  datatype Readings = Readings(supplyVoltage: real, gageTemperature: real, statusMessage: string)

  datatype Outcome = SUCCESS | SKIPPED | FAILED

  datatype SdoResult = SdoResult(outcome: Outcome, readings: Option<Readings>, message: string, elapsedUs: nat)

  const DRIVER_BUSY := "diagnostic SDO skipped because EtherCAT driver is busy"

  predicate IsBusy(r: SdoResult) {
    r.outcome == SKIPPED && r.message == DRIVER_BUSY
  }

  /** What a tick finds in the future: nothing, a worker that has been running for some
      nanoseconds, or a result, which it then collects. */
  datatype Finding = NoWorker | StillRunning(elapsedNs: int) | Collected(result: SdoResult)

  datatype Tick = Tick(clock: int, finding: Finding, launched: bool)

  datatype Config = Config(enabled: bool, timeoutMs: uint32)

  // ------------------------------------------------------- reading the trace

  function Results(trace: seq<Tick>): seq<SdoResult> {
    if trace == [] then []
    else
      var before := Results(trace[..|trace| - 1]);
      match trace[|trace| - 1].finding
      case Collected(result) => before + [result]
      case _ => before
  }

  function CountTicks(p: Tick -> bool, trace: seq<Tick>): nat {
    if trace == [] then 0
    else CountTicks(p, trace[..|trace| - 1]) + if p(trace[|trace| - 1]) then 1 else 0
  }

  function CountResults(outcome: Outcome, results: seq<SdoResult>): nat {
    if results == [] then 0
    else
      CountResults(outcome, results[..|results| - 1]) +
      if results[|results| - 1].outcome == outcome then 1 else 0
  }

  predicate Launched(t: Tick) { t.launched }

  predicate Pending(t: Tick) { t.finding.StillRunning? }

  function Launches(trace: seq<Tick>): nat {
    CountTicks(Launched, trace)
  }

  /** Workers launched and not yet collected. */
  function Outstanding(trace: seq<Tick>): int {
    Launches(trace) - |Results(trace)|
  }

  /** The clock of the last launch. */
  function LaunchClock(trace: seq<Tick>): int {
    if trace == [] then 0
    else if trace[|trace| - 1].launched then trace[|trace| - 1].clock
    else LaunchClock(trace[..|trace| - 1])
  }

  /** Length of the run of busy results at the end of `results`. */
  function TrailingBusy(results: seq<SdoResult>): nat {
    if results == [] || !IsBusy(results[|results| - 1]) then 0
    else 1 + TrailingBusy(results[..|results| - 1])
  }

  // --------------------------------------------------------- when to pause

  /** A tick that saw or collected a worker slower than the timeout. */
  predicate TooSlow(config: Config, t: Tick) {
    match t.finding
    case NoWorker => false
    case StillRunning(elapsedNs) => elapsedNs > config.timeoutMs * 1_000_000
    case Collected(result) => result.elapsedUs > config.timeoutMs * 1000
  }

  predicate BusyAt(results: seq<SdoResult>, k: nat) {
    k + 5 <= |results| && forall j :: k <= j < k + 5 ==> IsBusy(results[j])
  }

  /** The documented reasons to pause: a worker over the timeout, still running or when its
      result came in, or five consecutive results that could not take the driver lock. */
  ghost predicate ShouldPause(config: Config, trace: seq<Tick>) {
    || (exists i :: 0 <= i < |trace| && TooSlow(config, trace[i]))
    || (exists k: nat :: BusyAt(Results(trace), k))
  }

  // ------------------------------------------------------------ legal traces

  /** What one tick may add to the history `past`. */
  ghost predicate LegalTick(config: Config, past: seq<Tick>, t: Tick) {
    && (t.finding.NoWorker? <==> Outstanding(past) == 0)
    && (t.finding.StillRunning? ==> t.finding.elapsedNs == t.clock - LaunchClock(past))
    && (t.launched <==> config.enabled && !t.finding.StillRunning? && !ShouldPause(config, past + [t]))
  }

  ghost predicate Legal(config: Config, trace: seq<Tick>) {
    trace == [] ||
    (Legal(config, trace[..|trace| - 1]) && LegalTick(config, trace[..|trace| - 1], trace[|trace| - 1]))
  }

  // -------------------------------------------------------- one more tick

  lemma OneMoreTick(trace: seq<Tick>, t: Tick)
    ensures (trace + [t])[..|trace|] == trace
    ensures Results(trace + [t]) == Results(trace) + if t.finding.Collected? then [t.finding.result] else []
    ensures Launches(trace + [t]) == Launches(trace) + if t.launched then 1 else 0
    ensures Outstanding(trace + [t]) ==
            Outstanding(trace) + (if t.launched then 1 else 0) - (if t.finding.Collected? then 1 else 0)
    ensures LaunchClock(trace + [t]) == if t.launched then t.clock else LaunchClock(trace)
  {
    assert (trace + [t])[..|trace + [t]| - 1] == trace;
  }

  /** A pause reason never goes away, and a tick adds one exactly if it is too slow itself
      or completes five busy results. */
  lemma OneMorePause(config: Config, trace: seq<Tick>, t: Tick)
    ensures ShouldPause(config, trace + [t]) <==>
            || ShouldPause(config, trace)
            || TooSlow(config, t)
            || (t.finding.Collected? && TrailingBusy(Results(trace + [t])) >= 5)
  {
    hide Results, TrailingBusy, TooSlow, BusyAt, ShouldPause;
    ReasonsStay(config, trace, t);
    if ShouldPause(config, trace + [t]) {
      ReasonsAreOldOrNew(config, trace, t);
    }
  }

  lemma ReasonsStay(config: Config, trace: seq<Tick>, t: Tick)
    ensures ShouldPause(config, trace) ==> ShouldPause(config, trace + [t])
    ensures TooSlow(config, t) ==> ShouldPause(config, trace + [t])
    ensures t.finding.Collected? && TrailingBusy(Results(trace + [t])) >= 5 ==> ShouldPause(config, trace + [t])
  {
    OneMoreTick(trace, t);
    hide Results, TrailingBusy, TooSlow;
    var now, results, later := trace + [t], Results(trace), Results(trace + [t]);
    TrailingBusyIsRun(later);
    if i :| 0 <= i < |trace| && TooSlow(config, trace[i]) {
      assert TooSlow(config, now[i]);
    }
    if TooSlow(config, t) {
      assert TooSlow(config, now[|trace|]);
    }
    if k: nat :| BusyAt(results, k) {
      assert BusyAt(later, k);
    }
    if t.finding.Collected? && TrailingBusy(later) >= 5 {
      assert BusyAt(later, |later| - 5);
    }
  }

  lemma ReasonsAreOldOrNew(config: Config, trace: seq<Tick>, t: Tick)
    requires ShouldPause(config, trace + [t])
    ensures || ShouldPause(config, trace)
            || TooSlow(config, t)
            || (t.finding.Collected? && TrailingBusy(Results(trace + [t])) >= 5)
  {
    OneMoreTick(trace, t);
    hide Results, TrailingBusy, TooSlow;
    var now, results, later := trace + [t], Results(trace), Results(trace + [t]);
    if i :| 0 <= i < |now| && TooSlow(config, now[i]) {
      assert i < |trace| ==> TooSlow(config, trace[i]);
    } else {
      var k: nat :| BusyAt(later, k);
      if k + 5 <= |results| {
        assert forall j :: k <= j < k + 5 ==> results[j] == later[j];
        assert BusyAt(results, k);
      } else {
        TrailingBusyIsRun(later);
      }
    }
  }

  lemma {:induction false} TrailingBusyIsRun(results: seq<SdoResult>)
    ensures TrailingBusy(results) <= |results|
    ensures forall j :: |results| - TrailingBusy(results) <= j < |results| ==> IsBusy(results[j])
    ensures TrailingBusy(results) < |results| ==> !IsBusy(results[|results| - TrailingBusy(results) - 1])
  {
    if results == [] || !IsBusy(results[|results| - 1]) {
    } else {
      TrailingBusyIsRun(results[..|results| - 1]);
    }
  }

  // ------------------------------------------------------------------- laws

  /** At most one worker is outstanding, and the busy counter never passes 5; it stands at
      5 only when the supervisor has paused and nothing is outstanding. */
  lemma {:induction false} OneWorkerAndBoundedBusy(config: Config, trace: seq<Tick>)
    requires Legal(config, trace)
    ensures 0 <= Outstanding(trace) <= 1
    ensures TrailingBusy(Results(trace)) <= 5
    ensures TrailingBusy(Results(trace)) == 5 ==> ShouldPause(config, trace) && Outstanding(trace) == 0
  {
    if trace == [] {
    } else {
      var past, t := trace[..|trace| - 1], trace[|trace| - 1];
      OneWorkerAndBoundedBusy(config, past);
      assert past + [t] == trace;
      OneMoreTick(past, t);
      OneMorePause(config, past, t);
      assert t.finding.Collected? ==> Results(trace)[..|Results(trace)| - 1] == Results(past);
    }
  }

  /** Pausing is final: from the tick that first gives a reason on, nothing is launched, and
      at most the one worker then outstanding is still collected. */
  lemma {:induction false} PauseIsFinal(config: Config, trace: seq<Tick>, at: nat)
    requires Legal(config, trace) && at < |trace| && ShouldPause(config, trace[..at + 1])
    ensures ShouldPause(config, trace)
    ensures forall i :: at <= i < |trace| ==> !trace[i].launched
    ensures |Results(trace)| <= |Results(trace[..at + 1])| + 1
    ensures Outstanding(trace) == Outstanding(trace[..at + 1]) - (|Results(trace)| - |Results(trace[..at + 1])|)
    decreases |trace|
  {
    var past, t := trace[..|trace| - 1], trace[|trace| - 1];
    assert past + [t] == trace;
    OneMoreTick(past, t);
    OneMorePause(config, past, t);
    if at + 1 == |trace| {
      assert trace[..at + 1] == trace;
    } else {
      assert past[..at + 1] == trace[..at + 1];
      PauseIsFinal(config, past, at);
      LegalPrefix(config, trace, at + 1);
      OneWorkerAndBoundedBusy(config, trace[..at + 1]);
      OneWorkerAndBoundedBusy(config, trace);
    }
  }

  lemma {:induction false} LegalPrefix(config: Config, trace: seq<Tick>, n: nat)
    requires Legal(config, trace) && n <= |trace|
    ensures Legal(config, trace[..n])
  {
    if n == |trace| {
      assert trace[..n] == trace;
    } else {
      LegalPrefix(config, trace[..|trace| - 1], n);
      assert trace[..|trace| - 1][..n] == trace[..n];
    }
  }

  // -------------------------------------------------------------- accounting

  /** Ticks that ended with the supervisor disabled or paused. */
  ghost function CountHeld(config: Config, trace: seq<Tick>): nat {
    if trace == [] then 0
    else
      CountHeld(config, trace[..|trace| - 1]) +
      if !config.enabled || ShouldPause(config, trace) then 1 else 0
  }

  /** Ticks that ended neither disabled nor paused, with the worker still running. */
  ghost function CountWaiting(config: Config, trace: seq<Tick>): nat {
    if trace == [] then 0
    else
      CountWaiting(config, trace[..|trace| - 1]) +
      if config.enabled && !ShouldPause(config, trace) && trace[|trace| - 1].finding.StillRunning? then 1 else 0
  }

  /** What `sdo_skipped` counts: a paused tick over a running worker counts twice. */
  ghost function SkippedCount(config: Config, trace: seq<Tick>): nat {
    CountResults(SKIPPED, Results(trace)) + CountTicks(Pending, trace) + CountHeld(config, trace)
  }

  /** Every tick launches, is held, or waits; every result is a success, a skip or a
      failure; and each launched worker is collected once or still outstanding. */
  lemma {:induction false} Accounting(config: Config, trace: seq<Tick>)
    requires Legal(config, trace)
    ensures |trace| == Launches(trace) + CountHeld(config, trace) + CountWaiting(config, trace)
    ensures |Results(trace)| ==
            CountResults(SUCCESS, Results(trace)) + CountResults(SKIPPED, Results(trace)) +
            CountResults(FAILED, Results(trace))
    ensures !config.enabled ==>
              && !ShouldPause(config, trace) && Launches(trace) == 0 && Results(trace) == []
              && SkippedCount(config, trace) == |trace|
  {
    if trace == [] {
      assert Results(trace) == [];
    } else {
      var past, t := trace[..|trace| - 1], trace[|trace| - 1];
      assert past + [t] == trace;
      Accounting(config, past);
      TickAccounted(config, past, t);
      EndAccounted(config, past, t);
      if !config.enabled {
        DisabledTick(config, past, t);
      }
    }
  }

  lemma TickAccounted(config: Config, past: seq<Tick>, t: Tick)
    requires Legal(config, past + [t])
    ensures Launches(past + [t]) + CountHeld(config, past + [t]) + CountWaiting(config, past + [t]) ==
            Launches(past) + CountHeld(config, past) + CountWaiting(config, past) + 1
  {
    hide ShouldPause, LaunchClock, Results, Launches, Outstanding;
    OneMoreTick(past, t);
  }

  lemma EndAccounted(config: Config, past: seq<Tick>, t: Tick)
    ensures var now := Results(past + [t]);
            && |now| == |Results(past)| + (if t.finding.Collected? then 1 else 0)
            && CountResults(SUCCESS, now) + CountResults(SKIPPED, now) + CountResults(FAILED, now) ==
               CountResults(SUCCESS, Results(past)) + CountResults(SKIPPED, Results(past)) +
               CountResults(FAILED, Results(past)) + if t.finding.Collected? then 1 else 0
  {
    hide Results, CountResults, ShouldPause, TrailingBusy, ReasonOf, SkippedCount, Legal, LegalTick, Outstanding;
    OneMoreTick(past, t);
    OneMoreTickCounts(config, past, t);
  }

  /** A disabled supervisor that has done nothing but skip goes on so. */
  lemma DisabledTick(config: Config, past: seq<Tick>, t: Tick)
    requires Legal(config, past + [t]) && !config.enabled
    requires !ShouldPause(config, past) && Launches(past) == 0 && Results(past) == []
    ensures !ShouldPause(config, past + [t]) && Launches(past + [t]) == 0 && Results(past + [t]) == []
    ensures SkippedCount(config, past + [t]) == SkippedCount(config, past) + 1
  {
    hide ShouldPause, TrailingBusy, LaunchClock, Results, Launches, CountResults, SkippedCount, ReasonOf;
    OneMoreTick(past, t);
    OneMorePause(config, past, t);
    OneMoreTickCounts(config, past, t);
  }

  // ------------------------------------------------------------ pause reasons

  datatype PauseReason = NoReason | StillRunningAfter(ms: uint32) | Exceeded(ms: uint32) | FiveLockFailures

  /** The reason on display: the first one while the worker runs, then the latest that a
      result brought. */
  function ReasonOf(config: Config, trace: seq<Tick>): PauseReason {
    if trace == [] then NoReason
    else
      var before, t := ReasonOf(config, trace[..|trace| - 1]), trace[|trace| - 1];
      if t.finding.Collected? && IsBusy(t.finding.result) && TrailingBusy(Results(trace)) >= 5 then FiveLockFailures
      else if !TooSlow(config, t) then before
      else if t.finding.Collected? then Exceeded(config.timeoutMs)
      else if before == NoReason then StillRunningAfter(config.timeoutMs)
      else before
  }

  lemma {:induction false} PausedIffReason(config: Config, trace: seq<Tick>)
    ensures ReasonOf(config, trace) != NoReason <==> ShouldPause(config, trace)
  {
    if trace == [] {
      assert Results(trace) == [];
    } else {
      var past, t := trace[..|trace| - 1], trace[|trace| - 1];
      assert past + [t] == trace;
      PausedIffReason(config, past);
      OneMorePause(config, past, t);
      OneMoreTick(past, t);
      TrailingBusyIsRun(Results(trace));
    }
  }

  // -------------------------------------------- everything one more tick changes

  lemma OneMoreTickCounts(config: Config, past: seq<Tick>, t: Tick)
    ensures var now, busy := past + [t], t.finding.Collected? && IsBusy(t.finding.result);
            && TrailingBusy(Results(now)) ==
               (if !t.finding.Collected? then TrailingBusy(Results(past))
                else if busy then TrailingBusy(Results(past)) + 1 else 0)
            && (forall o :: CountResults(o, Results(now)) == CountResults(o, Results(past)) +
                  if t.finding.Collected? && t.finding.result.outcome == o then 1 else 0)
            && (Legal(config, now) <==> Legal(config, past) && LegalTick(config, past, t))
            && ReasonOf(config, now) ==
               (if busy && TrailingBusy(Results(now)) >= 5 then FiveLockFailures
                else if !TooSlow(config, t) then ReasonOf(config, past)
                else if t.finding.Collected? then Exceeded(config.timeoutMs)
                else if ReasonOf(config, past) == NoReason then StillRunningAfter(config.timeoutMs)
                else ReasonOf(config, past))
            && SkippedCount(config, now) == SkippedCount(config, past) +
               (if t.finding.Collected? && t.finding.result.outcome == SKIPPED then 1 else 0) +
               (if t.finding.StillRunning? then 1 else 0) +
               (if !config.enabled || ShouldPause(config, now) then 1 else 0)
  {
    OneMoreTick(past, t);
    var now := past + [t];
    assert now[..|now| - 1] == past;
    assert t.finding.Collected? ==> Results(now)[..|Results(now)| - 1] == Results(past);
  }
}
