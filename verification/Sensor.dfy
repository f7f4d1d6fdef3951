/**
  The hardware component. Each method is one section that runs under the driver mutex (or,
  for the diagnostics timer, on its own thread), so a run is any interleaving of them.
 */
module Sensor {
  import opened Machine
  import opened BusTrace
  import opened EthercatDriver
  import opened SampleCounter
  import opened Health
  import CounterSpec
  import CounterLaws
  import SdoTrace
  import Supervision = SdoSupervisor
  import opened ProcessData
  import StatusBits
  import Parameters
  import MonitorChecks

  const BIAS_INACTIVE := "ATI Axia80-M20 EtherCAT driver is not active"
  const BIAS_SET := "ATI Axia80-M20 bias set"
  const BIAS_CLEARED := "ATI Axia80-M20 bias cleared"

  datatype BiasResult = BiasResult(success: bool, message: string)

  /** The state check behind the published snapshot, and the clock of the read that stored it. */
  datatype Evidence = Evidence(poll: Poll, readAt: real)

  datatype Diagnostics = Diagnostics(
    communication: Status, counter: CounterSpec.Report, counterLevel: Level,
    sdo: Supervision.Row, statusText: string, statusLevel: Level)

  const INACTIVE := "driver is not active"

  datatype Levels = Levels(communication: Level, sampleCounter: Level, runtimeSdo: Level, sensorStatus: Level)

  /** The four rows are judged independently of each other, once the driver is active. */
  function IndependentLevels(
    driverActive: bool, communicationOk: bool, sampleCounter: Level, runtimeSdo: Level, statusCode: bv32): Levels
  {
    if !driverActive then Levels(STALE, STALE, STALE, STALE)
    else Levels(if communicationOk then OK else ERROR, sampleCounter, runtimeSdo, StatusBits.StatusCodeLevel(statusCode))
  }

  /** When the rows judged at once show OK. */
  lemma LevelsMeaning(s: Snapshot, counterLevel: Level)
    ensures var levels := IndependentLevels(s.driverActive, CommunicationOk(s), counterLevel, STALE, s.statusCode);
            && (levels.communication == OK <==> CommunicationOk(s))
            && (levels.sampleCounter == OK <==> s.driverActive && counterLevel == OK)
            && (levels.sensorStatus == OK <==> s.driverActive && s.statusCode == 0)
            && CommunicationStatus("", s).level == LevelCode(levels.communication)
  {
  }

  /** What the diagnostics worker returns, given whether it got the driver lock. */
  function WorkerResult(locked: bool, ready: bool, uploads: DiagnosticUploads, elapsedUs: nat): SdoTrace.SdoResult {
    if !locked then SdoTrace.SdoResult(SdoTrace.SKIPPED, None, SdoTrace.DRIVER_BUSY, elapsedUs)
    else if !ready then SdoTrace.SdoResult(SdoTrace.SKIPPED, None, INACTIVE, elapsedUs)
    else
      match ReadingsIn(uploads)
      case None => SdoTrace.SdoResult(SdoTrace.FAILED, None, "failed to read 0x2080 diagnostic SDO", elapsedUs)
      case Some(raw) =>
        SdoTrace.SdoResult(
          SdoTrace.SUCCESS,
          Some(SdoTrace.Readings(raw.voltage as real / 10.0, raw.temperature as real / 10.0, raw.message)), "", elapsedUs)
  }

  /** The result, spelled out; voltage and temperature come in tenths. */
  lemma WorkerResultMeaning(locked: bool, ready: bool, u: DiagnosticUploads, elapsedUs: nat)
    ensures var r := WorkerResult(locked, ready, u, elapsedUs);
            var uploaded := u.voltage.Some? && |u.voltage.value| == 2 &&
              u.temperature.Some? && |u.temperature.value| == 2 && u.message.Some?;
            && r.elapsedUs == elapsedUs
            && (!locked ==>
                  && r.outcome == SdoTrace.SKIPPED
                  && r.message == "diagnostic SDO skipped because EtherCAT driver is busy")
            && (locked && !ready ==> r.outcome == SdoTrace.SKIPPED && r.message == "driver is not active")
            && (locked && ready ==> (r.outcome == SdoTrace.SUCCESS <==> uploaded))
            && (locked && ready ==> (r.outcome == SdoTrace.FAILED <==> !uploaded))
            && (r.readings.Some? <==> locked && ready && uploaded)
            && (r.readings.Some? ==>
                  var v, t := u.voltage.value, u.temperature.value;
                  var temperature := Signed(U16At(t, 0), 0x1_0000);
                  && r.readings.value.supplyVoltage == ((v[0] as int) + 256 * (v[1] as int)) as real / 10.0
                  && r.readings.value.gageTemperature == temperature as real / 10.0
                  && -32768 <= temperature < 32768
                  && temperature % 65536 == (t[0] as int) + 256 * (t[1] as int)
                  && r.readings.value.statusMessage == CleanString(u.message.value))
  {
  }

  /** Only a missed lock counts as busy. */
  lemma BusyMeansNoLock(locked: bool, ready: bool, uploads: DiagnosticUploads, elapsedUs: nat)
    ensures SdoTrace.IsBusy(WorkerResult(locked, ready, uploads, elapsedUs)) <==> !locked
  {
    assert |INACTIVE| != |SdoTrace.DRIVER_BUSY|;
  }

  const DEFAULT_NAME := "ati_axia80_m20"

  /** The state interfaces that a component exports under its name. */
  function StateInterfaces(name: string): seq<string> {
    [ name + "/timestamp.sec", name + "/timestamp.nanosec",
      name + "/force.x", name + "/force.y", name + "/force.z",
      name + "/torque.x", name + "/torque.y", name + "/torque.z",
      name + "/status_code", name + "/sample_counter" ]
  }

  /** Under the default name they are the ones that the monitor expects. */
  lemma ExportedAreExpected()
    ensures StateInterfaces(DEFAULT_NAME) == MonitorChecks.EXPECTED_STATE_INTERFACES
  {
    StampNames();
    ForceNames();
    TorqueNames();
    CodeNames();
    hide DEFAULT_NAME;
  }

  lemma StampNames()
    ensures DEFAULT_NAME + "/timestamp.sec" == "ati_axia80_m20/timestamp.sec"
    ensures DEFAULT_NAME + "/timestamp.nanosec" == "ati_axia80_m20/timestamp.nanosec"
  {
  }

  lemma ForceNames()
    ensures DEFAULT_NAME + "/force.x" == "ati_axia80_m20/force.x"
    ensures DEFAULT_NAME + "/force.y" == "ati_axia80_m20/force.y"
    ensures DEFAULT_NAME + "/force.z" == "ati_axia80_m20/force.z"
  {
  }

  lemma TorqueNames()
    ensures DEFAULT_NAME + "/torque.x" == "ati_axia80_m20/torque.x"
    ensures DEFAULT_NAME + "/torque.y" == "ati_axia80_m20/torque.y"
    ensures DEFAULT_NAME + "/torque.z" == "ati_axia80_m20/torque.z"
  {
  }

  lemma CodeNames()
    ensures DEFAULT_NAME + "/status_code" == "ati_axia80_m20/status_code"
    ensures DEFAULT_NAME + "/sample_counter" == "ati_axia80_m20/sample_counter"
  {
  }

  class Component {
    const name: string
    const driver: Driver
    const counter: SampleCounterState
    const supervisor: Supervision.Supervisor
    const rates: CounterSpec.Rates
    const clearBiasOnActivate: bool
    const setBiasOnActivate: bool
    var snapshot: Snapshot
    /** None stands for the NaN that marks the interfaces as unset. */
    var measurement: Option<Sample>
    var windowStart: real

    ghost var evidence: Option<Evidence>
    /** When the counter was last reset. */
    ghost var resetAt: real

    ghost predicate Valid()
      reads this, driver, counter, supervisor
    {
      && driver.Settled() && counter.Valid() && supervisor.Valid()
      && CounterSpec.RatesFit(rates)
      && SnapshotKept() && TimeKept()
    }

    /** The windows taken since the reset cover the time from the reset to the window's
        start. */
    ghost predicate TimeKept()
      reads this`windowStart, this`resetAt, counter`log
    {
      CounterSpec.TakenTime(counter.log) == windowStart - resetAt
    }

    /** While every report is OK, the true counter drifts from the number of reads by no more
        than the WARN margins allow for the seconds since the reset. */
    lemma DriftSinceReset(truth: seq<nat>)
      requires Valid()
      requires var log := counter.log;
               && CounterLaws.Reads(CounterSpec.Seen(log), truth) && truth != []
               && CounterLaws.WindowsFit(log) && log != [] && log[|log| - 1].Taken?
               && CounterLaws.ClockMovesOn(log, 0.001)
               && forall i :: 0 <= i < |CounterLaws.Reports(log, rates)| ==> CounterLaws.Reports(log, rates)[i].level == OK
      ensures var drift := (truth[|truth| - 1] as int - truth[0] - (|truth| - 1)) as real;
              var t := windowStart - resetAt;
              var repeatRate := if rates.read > rates.sensor then rates.read - rates.sensor else 0.0;
              var skipRate := if rates.sensor > rates.read then rates.sensor - rates.read else 0.0;
              -(t * (2.0 * repeatRate + 60.0)) <= drift <= t * (2.0 * skipRate + 30.0)
    {
      hide CounterLaws.WindowsFit, CounterLaws.Reads, CounterLaws.Reports,
           CounterSpec.Seen, CounterSpec.RatesFit, Driver.Settled,
           SampleCounterState.Valid, Supervision.Supervisor.Valid;
      CounterLaws.DriftOverTime(counter.log, truth, rates);
    }

    /** The snapshot is the default one, or the driver is active and the snapshot shows a
        state check of this activation made less than a second before the read that stored
        it. */
    ghost predicate SnapshotKept()
      reads this`snapshot, this`evidence, driver`active, driver`polls
    {
      if snapshot.driverActive then
        && driver.active && evidence.Some?
        && evidence.value.poll in driver.polls
        && evidence.value.poll.time <= evidence.value.readAt < evidence.value.poll.time + 1.0
        && snapshot.ethercat == Exposed(evidence.value.poll.state)
      else snapshot == NO_SNAPSHOT
    }

    /** Field by field, the snapshot of an active driver is what a state check was told less
        than a second before the read. */
    lemma SnapshotShowsPoll()
      requires Valid() && snapshot.driverActive
      ensures var e, s := snapshot.ethercat, evidence.value.poll.state;
              && e.haveDomain && e.workingCounter == s.domain.workingCounter && e.wcState == s.domain.wcState
              && e.haveMaster && e.slavesResponding == s.master.slavesResponding
              && e.alStates == s.master.alStates && e.linkUp == s.master.linkUp
              && e.haveSlave && e.online == s.slave.online && e.operational == s.slave.operational
              && e.slaveAlState == s.slave.alState
              && evidence.value.poll in driver.polls
              && evidence.value.poll.time <= evidence.value.readAt < evidence.value.poll.time + 1.0
    {
    }

    lemma SnapshotIsDefaultOrPolled()
      requires Valid()
      ensures DefaultOrPolled(snapshot)
    {
    }

    /** From an accepted configuration whose rates the sample-counter monitor can work with
        (`Parameters.AcceptedRatesFit` says which can). */
    constructor (name: string, p: Parameters.Parsed, now: real)
      requires Parameters.InRange(p) && CounterSpec.RatesFit(Parameters.RatesOf(p))
      ensures Valid() && snapshot == NO_SNAPSHOT && !driver.active && driver.frames == [] && counter.log == []
      ensures var bits := driver.Base().bits;
              && (bits >> 4) & 0xF == p.filter as bv32
              && (bits >> 8) & 0xF == p.slot as bv32
              && (bits >> 12) & 0xF == p.rateCode as bv32
              && bits & 0xFFFF_000F == 0
      ensures driver.slave.vendorId == p.vendorId && driver.slave.productCode == p.productCode
      ensures driver.slave.alias == p.alias && driver.slave.position == p.position
      ensures driver.readCalibration == p.readCalibration
      ensures driver.countsPerForce == p.countsPerForce && driver.countsPerTorque == p.countsPerTorque
      ensures rates.sensor == p.sensorRate && rates.read == p.readRate
      ensures clearBiasOnActivate == p.clearBiasOnActivate && setBiasOnActivate == p.setBiasOnActivate
      ensures supervisor.config.enabled == p.sdoEnabled && supervisor.config.timeoutMs == p.sdoTimeoutMs
      ensures supervisor.trace == [] && windowStart == now && measurement == None && this.name == name
      ensures fresh(driver) && fresh(counter) && fresh(supervisor)
    {
      this.name, rates := name, Parameters.RatesOf(p);
      clearBiasOnActivate, setBiasOnActivate := p.clearBiasOnActivate, p.setBiasOnActivate;
      driver := new Driver(
        Parameters.SelectionOf(p), p.readCalibration, Parameters.SlaveOf(p), p.countsPerForce, p.countsPerTorque);
      counter := new SampleCounterState();
      supervisor := new Supervision.Supervisor(SdoTrace.Config(p.sdoEnabled, p.sdoTimeoutMs));
      snapshot, measurement, windowStart, evidence, resetAt := NO_SNAPSHOT, None, now, None, now;
      new;
      Parameters.SelectionBits(p);
    }

    // -------------------------------------------------------------- lifecycle

    /** A failed activation is one atomic step here: the shutdown that follows it is part
        of it. */
    method OnActivate(env: Startup) returns (ok: bool)
      requires Valid() && !driver.active
      modifies driver
      ensures Valid() && driver.active == ok
      ensures ok <==> StartupFault(env, old(driver.slave), driver.readCalibration).None?
      ensures ok ==> driver.script == old(driver.script) + [Open]
                       + (if clearBiasOnActivate then [BusOp.ClearBias] else [])
                       + (if setBiasOnActivate then [BusOp.SetBias] else [])
      ensures !ok ==>
                && !driver.master && driver.releases == driver.requests
                && (driver.script == old(driver.script) || driver.script == old(driver.script) + [Open, Close])
      ensures driver.requests == old(driver.requests) + if env.requested then 1 else 0
    {
      hide Driver.PollsKept, Driver.BusKept, StartupFault, SampleCounterState.Valid, Supervision.Supervisor.Valid, FramesOf;
      var fault := driver.Init(env);
      if fault.None? {
        fault := BiasOnActivate();
      }
      ok := fault.None?;
      if !ok {
        driver.Shutdown();
      }
    }

    /** The bias pulses that are configured for an activation. */
    method BiasOnActivate() returns (fault: Option<Fault>)
      requires driver.Settled() && driver.active
      modifies driver`control1, driver`control2, driver`frames, driver`script
      ensures driver.Settled() && driver.active && fault.None?
      ensures driver.script == old(driver.script)
                + (if clearBiasOnActivate then [BusOp.ClearBias] else [])
                + (if setBiasOnActivate then [BusOp.SetBias] else [])
    {
      hide Driver.PollsKept, Driver.BusKept, Driver.ResourcesKept, FramesOf;
      fault := None;
      if clearBiasOnActivate {
        fault := driver.ClearBias();
      }
      if fault.None? && setBiasOnActivate {
        fault := driver.SetBias();
      }
    }

    method OnDeactivate(now: real)
      requires Valid()
      modifies this, driver, counter
      ensures Valid() && !driver.active && !driver.master
      ensures driver.releases == driver.requests == old(driver.requests)
      ensures driver.script == old(driver.script) + if old(driver.active) then [Close] else []
      ensures snapshot == NO_SNAPSHOT && measurement == None && counter.log == [] && windowStart == now
    {
      driver.Shutdown();
      ResetState(now);
    }

    method ResetState(now: real)
      requires driver.Settled() && supervisor.Valid() && CounterSpec.RatesFit(rates)
      modifies this, counter
      ensures Valid() && snapshot == NO_SNAPSHOT && measurement == None && counter.log == [] && windowStart == now
    {
      measurement, snapshot, evidence, windowStart, resetAt := None, NO_SNAPSHOT, None, now, now;
      counter.Reset();
    }

    // ------------------------------------------------------------- real time

    method Read(now: real, stamp: Stamp, state: BusState, data: seq<uint8>) returns (ok: bool)
      requires Valid() && Placed(driver.offsets, |data|)
      requires driver.active && driver.polls != [] ==> driver.polls[|driver.polls| - 1].time <= now
      modifies this`snapshot, this`measurement, this`evidence, driver, counter
      ensures Valid() && (ok <==> driver.active) && driver.active == old(driver.active)
      ensures driver.script == old(driver.script) + if ok then [BusOp.Read] else []
      ensures driver.offsets == old(driver.offsets)
      ensures var inputs := Decode(data, old(driver.offsets));
              ok ==>
                && driver.GoodScales()
                && measurement == Some(
                     SampleOf(stamp, inputs, driver.countsPerForce, driver.countsPerTorque))
                && driver.Measures(measurement.value, stamp, data)
                && snapshot.driverActive && evidence.Some? && evidence.value.readAt == now
                && snapshot.statusCode == inputs.statusCode && snapshot.sampleCounter == inputs.sampleCounter
                && counter.log == old(counter.log) + [CounterSpec.Observed(inputs.sampleCounter)]
                && driver.polls == old(driver.polls) +
                     (if CheckDue(old(driver.polls), now) then [Poll(now, state)] else [])
                && evidence.value.poll == driver.polls[|driver.polls| - 1]
      ensures !ok ==> snapshot == old(snapshot) && measurement == old(measurement) && counter.log == old(counter.log)
    {
      hide Driver.PollsKept, Driver.ResourcesKept, Driver.BusKept, CheckDue, SampleOf, Decode, Placed, Driver.Measures;
      hide Supervision.Supervisor.Valid, SampleCounterState.Valid, Component.SnapshotKept, Component.TimeKept;
      var r := driver.ReadOnce(now, stamp, state, data);
      if r.Err? {
        return false;
      }
      SampleCarries(stamp, Decode(data, driver.offsets), driver.countsPerForce, driver.countsPerTorque);
      StoreSample(r.value, now);
      ok := true;
    }

    /** What a successful cycle leaves behind, while the mutex is still held. */
    method StoreSample(sample: Sample, now: real)
      requires counter.Valid() && TimeKept() && driver.active && driver.Fresh(now)
      modifies this`snapshot, this`measurement, this`evidence, counter
      ensures counter.Valid() && TimeKept() && SnapshotKept()
      ensures measurement == Some(sample)
      ensures snapshot == Snapshot(true, sample.statusCode, sample.sampleCounter, driver.StateSnapshot())
      ensures evidence == Some(Evidence(driver.polls[|driver.polls| - 1], now))
      ensures counter.log == old(counter.log) + [CounterSpec.Observed(sample.sampleCounter)]
    {
      hide SampleCounterState.Valid;
      measurement := Some(sample);
      evidence := Some(Evidence(driver.polls[|driver.polls| - 1], now));
      snapshot := Snapshot(true, sample.statusCode, sample.sampleCounter, driver.StateSnapshot());
      CounterSpec.OneMoreTime(counter.log, CounterSpec.Observed(sample.sampleCounter));
      counter.Observe(sample.sampleCounter);
    }

    // --------------------------------------------------------------- services

    method ExecuteBias(setBias: bool) returns (result: BiasResult)
      requires Valid()
      modifies driver
      ensures Valid() && driver.active == old(driver.active)
      ensures result ==
              if !driver.active then BiasResult(false, "ATI Axia80-M20 EtherCAT driver is not active")
              else BiasResult(true, if setBias then "ATI Axia80-M20 bias set" else "ATI Axia80-M20 bias cleared")
      ensures driver.script == old(driver.script) +
                (if !driver.active then [] else if setBias then [BusOp.SetBias] else [BusOp.ClearBias])
    {
      if !driver.IsActive() {
        return BiasResult(false, BIAS_INACTIVE);
      }
      if setBias {
        var fault := driver.SetBias();
        assert fault.None?;
        result := BiasResult(true, BIAS_SET);
      } else {
        var fault := driver.ClearBias();
        assert fault.None?;
        result := BiasResult(true, BIAS_CLEARED);
      }
    }

    // ------------------------------------------------------------ diagnostics

    /** The worker thread, with the outcome of its try-lock. */
    method RunWorker(locked: bool, uploads: DiagnosticUploads, elapsedUs: nat)
      requires Valid() && supervisor.future.Running?
      modifies supervisor`future
      ensures Valid()
      ensures supervisor.future ==
              Supervision.Ready(Supervision.Returned(WorkerResult(locked, driver.active, uploads, elapsedUs)))
    {
      hide Driver.PollsKept, Driver.BusKept, SampleCounterState.Valid, CounterSpec.RatesFit;
      hide SdoTrace.Legal, SdoTrace.ShouldPause, SdoTrace.Results, SdoTrace.ReasonOf;
      var result: SdoTrace.SdoResult;
      if !locked {
        result := SdoTrace.SdoResult(SdoTrace.SKIPPED, None, SdoTrace.DRIVER_BUSY, elapsedUs);
      } else if !driver.IsActive() {
        result := SdoTrace.SdoResult(SdoTrace.SKIPPED, None, INACTIVE, elapsedUs);
      } else {
        var r := driver.ReadDiagnosticReadings(uploads);
        assert r != Err(MasterNotRequested);
        if r.Ok? {
          result := SdoTrace.SdoResult(
            SdoTrace.SUCCESS,
            Some(SdoTrace.Readings(r.value.voltage as real / 10.0, r.value.temperature as real / 10.0, r.value.message)),
            "", elapsedUs);
        } else {
          result := SdoTrace.SdoResult(SdoTrace.FAILED, None, "failed to read 0x2080 diagnostic SDO", elapsedUs);
        }
      }
      supervisor.WorkerEnds(Supervision.Returned(result));
    }

    /** The report due for the window that the last take closed. */
    ghost function LastReport(): CounterSpec.Report
      requires CounterSpec.RatesFit(rates) && CounterSpec.Windows(counter.log) != []
      reads counter`log
    {
      var ws := CounterSpec.Windows(counter.log);
      CounterSpec.ReportOf(CounterSpec.LogDeltas(counter.log), ws[|ws| - 1], rates)
    }

    method SampleCounterDiagnostics(now: real) returns (report: CounterSpec.Report)
      requires counter.Valid() && CounterSpec.RatesFit(rates) && TimeKept()
      modifies this`windowStart, counter
      ensures counter.Valid() && windowStart == now && TimeKept()
      ensures counter.log == old(counter.log) + [CounterSpec.Taken(now - old(windowStart))]
      ensures |CounterSpec.Windows(counter.log)| == |CounterSpec.Windows(old(counter.log))| + 1
      ensures report == LastReport()
    {
      hide CounterSpec.Shown, CounterSpec.ReportOf, CounterSpec.RatesFit, CounterSpec.Windows, CounterSpec.LogDeltas,
           CounterSpec.Cut, CounterSpec.TakenTime, CounterSpec.Tiles, SampleCounterState.Valid;
      var elapsed := now - windowStart;
      windowStart := now;
      CounterSpec.OneMoreTime(counter.log, CounterSpec.Taken(elapsed));
      report := counter.Take(elapsed, rates);
    }

    /** The two rows that have a state of their own. */
    method TakeRows(now: real, clockNs: int) returns (report: CounterSpec.Report, row: Supervision.Row)
      requires Valid()
      modifies this`windowStart, counter, supervisor
      ensures Valid() && windowStart == now
      ensures counter.log == old(counter.log) + [CounterSpec.Taken(now - old(windowStart))]
      ensures |CounterSpec.Windows(counter.log)| > 0 && report == LastReport()
      ensures supervisor.ShowsTick(row, clockNs, old(supervisor.trace), old(supervisor.future), old(supervisor.startTime))
    {
      hide CounterSpec.Shown, CounterSpec.RatesFit, CounterSpec.Windows, Component.LastReport;
      hide SdoTrace.Legal, SdoTrace.ShouldPause, SdoTrace.Results, SdoTrace.ReasonOf;
      hide Supervision.Supervisor.Valid, Supervision.Supervisor.ShowsTick, SampleCounterState.Valid;
      hide Component.SnapshotKept, Component.TimeKept, Driver.Settled;
      report := SampleCounterDiagnostics(now);
      row := supervisor.OnTick(clockNs);
    }

    /** The 1 Hz timer. The monitor, reading the message back, always agrees with the driver. */
    method PublishDiagnostics(now: real, clockNs: int) returns (d: Diagnostics)
      requires Valid()
      modifies this`windowStart, counter, supervisor
      ensures Valid() && windowStart == now
      ensures d.communication == CommunicationStatus(name, snapshot)
      ensures d.communication.name == name + ": Axia80 EtherCAT communication"
      ensures d.communication.level == if !snapshot.driverActive then 3 else if CommunicationOk(snapshot) then 0 else 2
      ensures MonitorConcludes(d.communication, CommunicationOk(snapshot))
      ensures d.statusText == if snapshot.driverActive then StatusBits.Describe(snapshot.statusCode) else "driver is not active"
      ensures d.statusLevel == if snapshot.driverActive then StatusBits.StatusCodeLevel(snapshot.statusCode) else STALE
      ensures d.counterLevel == if snapshot.driverActive then d.counter.level else STALE
      ensures counter.log == old(counter.log) + [CounterSpec.Taken(now - old(windowStart))]
      ensures |CounterSpec.Windows(counter.log)| > 0 && d.counter == LastReport()
      ensures supervisor.ShowsTick(d.sdo, clockNs, old(supervisor.trace), old(supervisor.future), old(supervisor.startTime))
    {
      hide CounterSpec.Windows, Component.LastReport, StatusBits.Describe, CommunicationOk, CommunicationStatus;
      hide DefaultOrPolled, MonitorConcludes, Component.Valid, Supervision.Supervisor.ShowsTick;
      SnapshotIsDefaultOrPolled();
      MonitorAgrees(name, snapshot);
      CommunicationStatusMeaning(name, snapshot);
      var report, row := TakeRows(now, clockNs);
      var levels := IndependentLevels(
        snapshot.driverActive, CommunicationOk(snapshot), report.level, STALE, snapshot.statusCode);
      d := Diagnostics(
        CommunicationStatus(name, snapshot), report, levels.sampleCounter, row,
        if snapshot.driverActive then StatusBits.Describe(snapshot.statusCode) else INACTIVE, levels.sensorStatus);
    }
  }
}
