/** The part of the diagnostics timer that runs one SDO worker at a time. */
module SdoSupervisor {
  import opened Machine
  import opened SdoTrace

  datatype WorkerEnd = Returned(result: SdoResult) | Threw(what: string)

  datatype Future = Invalid | Running | Ready(end: WorkerEnd)

  datatype Row = Row(
    level: Level, success: uint64, skipped: uint64, failed: uint64, lastElapsedUs: nat,
    lockFailures: uint32, autoPaused: bool, reason: PauseReason)

  const NO_STATUS_ERRORS := "No status code errors"

  /** The result a tick collects from a worker that has ended. */
  function ResultOf(end: WorkerEnd): SdoResult {
    match end
    case Returned(result) => result
    case Threw(what) => SdoResult(FAILED, None, "runtime diagnostic SDO worker failed: " + what, 0)
  }

  /** What a tick at `clock` finds of a worker started at `startTime`. */
  function FindingOf(future: Future, startTime: int, clock: int): Finding {
    match future
    case Invalid => NoWorker
    case Running => StillRunning(clock - startTime)
    case Ready(end) => Collected(ResultOf(end))
  }

  function LevelOf(result: SdoResult): Level {
    match result.outcome
    case SUCCESS =>
      if result.readings.Some? && result.readings.value.statusMessage !in {"", NO_STATUS_ERRORS} then ERROR else OK
    case SKIPPED => STALE
    case FAILED => WARN
  }

  function LastElapsed(results: seq<SdoResult>): nat {
    if results == [] then 0 else results[|results| - 1].elapsedUs
  }

  /** What the supervisor keeps about past ticks. */
  datatype Book = Book(
    paused: bool, reason: PauseReason, lockFailures: nat, lastElapsedUs: nat,
    success: uint64, skipped: uint64, failed: uint64)

  /** The book that the history `trace` calls for. */
  ghost function BookOf(config: Config, trace: seq<Tick>): Book {
    var results := Results(trace);
    Book(
      ShouldPause(config, trace), ReasonOf(config, trace), TrailingBusy(results), LastElapsed(results),
      Wrap64(CountResults(SUCCESS, results)), Wrap64(SkippedCount(config, trace)), Wrap64(CountResults(FAILED, results)))
  }

  /** The book after seeing a worker that still runs, or a result. */
  function AfterFinding(config: Config, b: Book, finding: Finding): Book {
    match finding
    case NoWorker => b
    case StillRunning(elapsedNs) =>
      var slow := elapsedNs > config.timeoutMs * 1_000_000;
      b.(skipped := Wrap64(b.skipped + 1), paused := b.paused || slow,
         reason := if slow && !b.paused then StillRunningAfter(config.timeoutMs) else b.reason)
    case Collected(r) => AfterResult(config, b, r)
  }

  function AfterResult(config: Config, b: Book, r: SdoResult): Book {
    var failures := if IsBusy(r) then b.lockFailures + 1 else 0;
    var slow, fifth := r.elapsedUs > config.timeoutMs * 1000, failures >= 5;
    Book(
      b.paused || slow || fifth,
      if fifth then FiveLockFailures else if slow then Exceeded(config.timeoutMs) else b.reason,
      failures, r.elapsedUs,
      if r.outcome == SUCCESS then Wrap64(b.success + 1) else b.success,
      if r.outcome == SKIPPED then Wrap64(b.skipped + 1) else b.skipped,
      if r.outcome == FAILED then Wrap64(b.failed + 1) else b.failed)
  }

  /** A disabled or paused tick is a skip. */
  function AfterHold(config: Config, b: Book): Book {
    if !config.enabled || b.paused then b.(skipped := Wrap64(b.skipped + 1)) else b
  }

  /** The incremental book is the book of the longer history. */
  lemma OneMoreEntry(config: Config, past: seq<Tick>, t: Tick)
    ensures BookOf(config, past + [t]) == AfterHold(config, AfterFinding(config, BookOf(config, past), t.finding))
  {
    hide Results, TrailingBusy, CountResults, SkippedCount, ReasonOf, ShouldPause, Wrap64, Legal, LegalTick;
    OneMoreTick(past, t);
    OneMoreTickCounts(config, past, t);
    OneMorePause(config, past, t);
    PausedIffReason(config, past);
    var results, skips := Results(past), SkippedCount(config, past);
    WrapAdd64(CountResults(SUCCESS, results), 1);
    WrapAdd64(CountResults(FAILED, results), 1);
    WrapAdd64(skips, 1);
    WrapAdd64(skips + 1, 1);
  }

  class Supervisor {
    const config: Config
    var future: Future
    var startTime: int
    var autoPaused: bool
    var pauseReason: PauseReason
    var lockFailures: uint32
    var lastElapsedUs: nat
    var success: uint64
    var skipped: uint64
    var failed: uint64

    /** Every tick so far. */
    ghost var trace: seq<Tick>

    ghost predicate Valid()
      reads this
    {
      && Legal(config, trace)
      && Outstanding(trace) == (if future.Invalid? then 0 else 1)
      && (!future.Invalid? ==> startTime == LaunchClock(trace))
      && Kept() == BookOf(config, trace)
    }

    function Kept(): Book
      reads this`autoPaused, this`pauseReason, this`lockFailures, this`lastElapsedUs,
            this`success, this`skipped, this`failed
    {
      Book(autoPaused, pauseReason, lockFailures, lastElapsedUs, success, skipped, failed)
    }

    constructor (config: Config)
      ensures Valid() && trace == [] && this.config == config && future.Invalid?
    {
      this.config := config;
      future, startTime := Invalid, 0;
      autoPaused, pauseReason, lockFailures, lastElapsedUs := false, NoReason, 0, 0;
      success, skipped, failed := 0, 0, 0;
      trace := [];
      new;
      assert Results(trace) == [];
    }

    /** The worker thread ends; only the future changes. */
    method WorkerEnds(end: WorkerEnd)
      requires Valid() && future.Running?
      modifies this`future
      ensures Valid() && future == Ready(end)
    {
      future := Ready(end);
    }

    /** The bookkeeping for a collected result. */
    method Account(r: SdoResult) returns (level: Level)
      requires lockFailures < 5
      modifies this`lastElapsedUs, this`autoPaused, this`pauseReason, this`success, this`skipped, this`failed,
               this`lockFailures
      ensures level == LevelOf(r)
      ensures var reported := r.readings.Some? && r.readings.value.statusMessage != "" &&
                r.readings.value.statusMessage != "No status code errors";
              (level == ERROR <==> r.outcome == SUCCESS && reported) && (level == OK <==> r.outcome == SUCCESS && !reported)
      ensures level == STALE <==> r.outcome == SKIPPED
      ensures level == WARN <==> r.outcome == FAILED
      ensures Kept() == AfterResult(config, old(Kept()), r)
    {
      lastElapsedUs := r.elapsedUs;
      if r.elapsedUs > config.timeoutMs * 1000 {
        autoPaused := true;
        pauseReason := Exceeded(config.timeoutMs);
      }
      if r.outcome == SUCCESS {
        success := Wrap64(success + 1);
        lockFailures := 0;
        level := LevelOf(r);
      } else if r.outcome == SKIPPED {
        skipped := Wrap64(skipped + 1);
        if r.message == DRIVER_BUSY {
          lockFailures := Wrap32(lockFailures + 1);
          if lockFailures >= 5 {
            autoPaused := true;
            pauseReason := FiveLockFailures;
          }
        } else {
          lockFailures := 0;
        }
        level := STALE;
      } else {
        failed := Wrap64(failed + 1);
        lockFailures := 0;
        level := WARN;
      }
    }

    /** What a tick finds at `clock`. */
    function FindingAt(clock: int): Finding
      reads this`future, this`startTime
    {
      FindingOf(future, startTime, clock)
    }

    /** Collects the result of a worker that has ended; one that is still running counts as
        a skip, and pauses if it is over the timeout. */
    method Collect(clock: int) returns (result: Option<SdoResult>)
      modifies this`future, this`skipped, this`autoPaused, this`pauseReason
      ensures old(future).Ready? ==> Kept() == old(Kept())
      ensures !old(future).Ready? ==> Kept() == AfterFinding(config, old(Kept()), old(FindingAt(clock)))
      ensures result == if old(future).Ready? then Some(ResultOf(old(future).end)) else None
      ensures future == if old(future).Ready? then Invalid else old(future)
    {
      result := None;
      if !future.Invalid? {
        if future.Running? {
          skipped := Wrap64(skipped + 1);
          var elapsed := clock - startTime;
          if !autoPaused && elapsed > config.timeoutMs * 1_000_000 {
            autoPaused := true;
            pauseReason := StillRunningAfter(config.timeoutMs);
          }
        } else {
          result := Some(ResultOf(future.end));
          future := Invalid;
        }
      }
    }

    /** The end of a tick: held back, or a new worker unless one is still running. */
    method Launch(clock: int, collected: Option<Level>) returns (level: Level, ghost launched: bool)
      modifies this`future, this`startTime, this`skipped
      ensures Kept() == AfterHold(config, old(Kept()))
      ensures launched <==> config.enabled && !autoPaused && old(future).Invalid?
      ensures future == (if launched then Running else old(future))
      ensures startTime == (if launched then clock else old(startTime))
      ensures level == if !config.enabled then STALE
                          else if autoPaused then WARN
                          else if collected.Some? then collected.value else STALE
    {
      level := if collected.Some? then collected.value else STALE;
      launched := false;
      if !config.enabled {
        skipped := Wrap64(skipped + 1);
        level := STALE;
      } else if autoPaused {
        skipped := Wrap64(skipped + 1);
        level := WARN;
      } else if future.Invalid? {
        future := Running;
        startTime := clock;
        launched := true;
        if collected.None? {
          level := STALE;
        }
      }
    }

    /** `row` and the state are those after one more tick at `clock`, which found `before`,
        started at `started`, with the history `past`. Whether the driver is active plays no
        part. */
    ghost predicate ShowsTick(row: Row, clock: int, past: seq<Tick>, before: Future, started: int)
      reads this
    {
      && |trace| == |past| + 1 && trace[..|past|] == past
      && trace[|past|].clock == clock && trace[|past|].finding == FindingOf(before, started, clock)
      && (future.Running? <==> trace[|past|].launched || before.Running?)
      && row == Row(row.level, success, skipped, failed, lastElapsedUs, lockFailures, autoPaused, pauseReason)
      && row.level == (
           if !config.enabled then STALE
           else if ShouldPause(config, trace) then WARN
           else if before.Ready? then LevelOf(ResultOf(before.end))
           else STALE)
    }

    /** One tick, as one more entry of the history: the new state is the one `Valid` reads off
        the longer trace. */
    method AddTick(clock: int) returns (row: Row)
      requires Valid()
      modifies this
      ensures Valid() && ShowsTick(row, clock, old(trace), old(future), old(startTime))
      ensures Kept() == AfterHold(config, AfterFinding(config, old(Kept()), old(FindingAt(clock))))
      ensures row.level == LevelShown(config.enabled, autoPaused, old(future))
      ensures future.Running? <==> old(future).Running? || (config.enabled && !autoPaused)
      ensures startTime == if future.Running? && !old(future).Running? then clock else old(startTime)
      ensures old(lockFailures) <= 5 && (old(lockFailures) == 5 ==> old(autoPaused) && old(future).Invalid?)
    {
      hide Results, TrailingBusy, CountResults, SkippedCount, Legal, ReasonOf, ShouldPause, LaunchClock, Launches,
           Outstanding, AfterResult, AfterHold, LevelOf, ResultOf;
      ghost var past, finding := trace, FindingAt(clock);
      OneWorkerAndBoundedBusy(config, past);
      var result := Collect(clock);
      var level := None;
      if result.Some? {
        var accounted := Account(result.value);
        level := Some(accounted);
      }
      var final, launched := Launch(clock, level);
      ghost var t := Tick(clock, finding, launched);
      trace := past + [t];
      OneMoreTick(past, t);
      OneMoreTickCounts(config, past, t);
      OneMoreEntry(config, past, t);
      row := Row(final, success, skipped, failed, lastElapsedUs, lockFailures, autoPaused, pauseReason);
    }

    /** One 1 Hz tick. */
    method OnTick(clock: int) returns (row: Row)
      requires Valid()
      modifies this
      ensures Valid() && ShowsTick(row, clock, old(trace), old(future), old(startTime))
      // What the tick does, in terms of what it finds.
      ensures var busy := old(future).Ready? && old(future).end.Returned? &&
                old(future).end.result.outcome == SKIPPED &&
                old(future).end.result.message == "diagnostic SDO skipped because EtherCAT driver is busy";
              var slow :=
                match old(future)
                case Invalid => false
                case Running => clock - old(startTime) > config.timeoutMs * 1_000_000
                case Ready(end) => end.Returned? && end.result.elapsedUs > config.timeoutMs * 1000;
              && lockFailures == (if !old(future).Ready? then old(lockFailures) else if busy then old(lockFailures) + 1 else 0)
              && autoPaused == (old(autoPaused) || slow || lockFailures == 5)
              && pauseReason == (
                   if busy && lockFailures == 5 then FiveLockFailures
                   else if slow && old(future).Ready? then Exceeded(config.timeoutMs)
                   else if slow && !old(autoPaused) then StillRunningAfter(config.timeoutMs)
                   else old(pauseReason))
              && (future.Running? <==> old(future).Running? || (config.enabled && !autoPaused))
              && (startTime == if future.Running? && !old(future).Running? then clock else old(startTime))
      ensures var returned := old(future).Ready? && old(future).end.Returned?;
              var one, two := if old(future).Running? then 1 else 0, if !config.enabled || autoPaused then 1 else 0;
              && success == (if returned && old(future).end.result.outcome == SUCCESS then old(success) + 1
                             else old(success)) % 0x1_0000_0000_0000_0000
              && failed == (if old(future).Ready? && (!returned || old(future).end.result.outcome == FAILED) then old(failed) + 1
                            else old(failed)) % 0x1_0000_0000_0000_0000
              && skipped == (old(skipped) + one + two +
                             if returned && old(future).end.result.outcome == SKIPPED then 1 else 0) % 0x1_0000_0000_0000_0000
              && lastElapsedUs == (if !old(future).Ready? then old(lastElapsedUs)
                                   else if returned then old(future).end.result.elapsedUs else 0)
      ensures if !config.enabled then row.level == STALE
              else if autoPaused then row.level == WARN
              else if !old(future).Ready? then row.level == STALE
              else if old(future).end.Threw? then row.level == WARN
              else
                var r := old(future).end.result;
                var reported := r.readings.Some? && r.readings.value.statusMessage != "" &&
                  r.readings.value.statusMessage != "No status code errors";
                && (row.level == ERROR <==> r.outcome == SUCCESS && reported)
                && (row.level == OK <==> r.outcome == SUCCESS && !reported)
                && (row.level == STALE <==> r.outcome == SKIPPED)
                && (row.level == WARN <==> r.outcome == FAILED)
    {
      hide Supervisor.Valid, Supervisor.ShowsTick, AfterFinding, AfterHold, LevelShown;
      ghost var kept, before, started := Kept(), future, startTime;
      row := AddTick(clock);
      TickMeaning(config, kept, before, started, clock);
      TickCounts(config, kept, before, started, clock);
      LevelMeaning(config.enabled, autoPaused, before);
    }
  }

  function LevelShown(enabled: bool, paused: bool, found: Future): Level {
    if !enabled then STALE
    else if paused then WARN
    else if found.Ready? then LevelOf(ResultOf(found.end))
    else STALE
  }

  lemma LevelMeaning(enabled: bool, paused: bool, found: Future)
    ensures var level := LevelShown(enabled, paused, found);
            if !enabled then level == STALE
            else if paused then level == WARN
            else if !found.Ready? then level == STALE
            else if found.end.Threw? then level == WARN
            else
              var r := found.end.result;
              var reported := r.readings.Some? && r.readings.value.statusMessage != "" &&
                r.readings.value.statusMessage != "No status code errors";
              && (level == ERROR <==> r.outcome == SUCCESS && reported)
              && (level == OK <==> r.outcome == SUCCESS && !reported)
              && (level == STALE <==> r.outcome == SKIPPED)
              && (level == WARN <==> r.outcome == FAILED)
  {
  }

  /** The book after a tick, in terms of what the tick finds. */
  lemma TickMeaning(config: Config, b: Book, found: Future, started: int, clock: int)
    requires b.lockFailures <= 5 && (b.lockFailures == 5 ==> b.paused && found.Invalid?)
    ensures var now := AfterHold(config, AfterFinding(config, b, FindingOf(found, started, clock)));
            var returned := found.Ready? && found.end.Returned?;
            var busy := returned && found.end.result.outcome == SKIPPED &&
              found.end.result.message == "diagnostic SDO skipped because EtherCAT driver is busy";
            var slow :=
              match found
              case Invalid => false
              case Running => clock - started > config.timeoutMs * 1_000_000
              case Ready(end) => end.Returned? && end.result.elapsedUs > config.timeoutMs * 1000;
            && now.lockFailures == (if !found.Ready? then b.lockFailures else if busy then b.lockFailures + 1 else 0)
            && now.paused == (b.paused || slow || now.lockFailures == 5)
            && now.reason == (
                 if busy && now.lockFailures == 5 then FiveLockFailures
                 else if slow && found.Ready? then Exceeded(config.timeoutMs)
                 else if slow && !b.paused then StillRunningAfter(config.timeoutMs)
                 else b.reason)
            && now.lastElapsedUs == (if !found.Ready? then b.lastElapsedUs else if returned then found.end.result.elapsedUs else 0)
  {
  }

  lemma TickCounts(config: Config, b: Book, found: Future, started: int, clock: int)
    ensures var now := AfterHold(config, AfterFinding(config, b, FindingOf(found, started, clock)));
            var returned := found.Ready? && found.end.Returned?;
            var pending, held := if found.Running? then 1 else 0, if !config.enabled || now.paused then 1 else 0;
            && now.success == (if returned && found.end.result.outcome == SUCCESS then b.success + 1
                               else b.success) % 0x1_0000_0000_0000_0000
            && now.failed == (if found.Ready? && (!returned || found.end.result.outcome == FAILED) then b.failed + 1
                              else b.failed) % 0x1_0000_0000_0000_0000
            && now.skipped == (b.skipped + pending + held +
                               if returned && found.end.result.outcome == SKIPPED then 1 else 0) % 0x1_0000_0000_0000_0000
  {
    CountOn(b.success);
    CountOn(b.failed);
    CountOn(b.skipped);
    hide Wrap64, IsBusy;
  }

  lemma CountOn(n: uint64)
    ensures n % 0x1_0000_0000_0000_0000 == n && Wrap64(n + 1) == (n + 1) % 0x1_0000_0000_0000_0000
    ensures Wrap64(Wrap64(n + 1) + 1) == (n + 2) % 0x1_0000_0000_0000_0000
  {
  }
}
