# ATI Axia80-M20 EtherCAT driver: a verified model

This project models the driver of the ATI Axia80-M20 force/torque sensor (a ros2_control
hardware component over an EtherCAT master) and the browser monitor that watches it, and
proves properties of them with Dafny 4.11. `dafny verify dfyconfig.toml` checks everything.

Four parts of the driver are modelled as the state machines they are, and meet in one
component:

- **The sample-counter monitor.** The read loop folds a wrapping 32-bit counter into a state
  that the diagnostics timer empties once per window. `CounterSpec` says, over the whole
  history of the two callers, what must be reported; `SampleCounter` is the incremental state
  updated in place; `CounterLaws` relates the reports to the true, unbounded counter.
- **The runtime-SDO supervisor.** A 1 Hz tick looks after one asynchronous worker. `SdoTrace`
  describes the histories of ticks that are possible and proves the laws of all of them;
  `SdoSupervisor` is the state the driver keeps, every field of which is shown to be a
  function of that history.
- **The driver and its frames.** `EthercatDriver` takes the outcome of every call into the
  EtherCAT master library as input, and keeps a ghost record of masters requested and
  released, of the calls completed, of the state checks made, and of every control word
  sent. `BusTrace` is about those control words alone, `SlaveSearch` about finding the sensor
  on the ring, `ProcessData` about the bytes of a cycle and of SDO replies, `RateLimit`
  about events kept apart by a gap.
- **Health as text.** `Health` prints the driver's verdict inputs as key/value text, merges
  and reads them back as the monitor does, and compares the two verdicts. `Text`,
  `StatusBits` and `Parameters` are the printers and parsers, `MonitorMessage` what the
  monitor keeps of a message, `MonitorChecks` its checks and alerts, and `MonitorNode` the
  object that holds them, with its throttle.

`Sensor.Component` puts the pieces together: each of its methods is one section under the
driver mutex (or one timer tick), so its invariant holds over every interleaving of reads,
bias services, worker, timer, activation and deactivation.

## How it is said

Every class keeps what happened so far in a ghost field (`log`, `trace`, `script`, `frames`,
`polls`, `broadcasts`), and its `Valid()` ties each real field to a function of that history
defined without the incremental code. A method's contract says which entry it adds. The laws
about whole runs are then lemmas about histories.

The functions that contracts name are pinned by lemmas that do not name them (`...Meaning`,
round trips, literal texts): what a contract says through such a function is also said in
the rates, bytes, bits, texts and fields themselves.

Machine words are explicit: the 64-bit statistics wrap at 2^64 and the run counter at 2^32,
and the laws say what the wrapped numbers still tell. `double` is modelled by `real`, the
steady clock by a `real` number of seconds (the supervisor's by integer nanoseconds), and the
NaN that marks unset interfaces by `None`.

Findings where the code and what is promised of it differ:

- `parse_u32`, `parse_u16` and `parse_u8` promise an integer in a range, but the library
  conversion under them takes a minus sign and wraps. Over all texts: a text is accepted
  exactly when it denotes an integer that is in range, or is in range once 2^64 has been
  added (`Text.ParsersAccept`); it then yields the integer it denotes exactly when that is
  not negative (`Text.AcceptedTextYieldsItsInteger`). `-0xffffffffffffffff` reads as 1
  (`Text.NegativeTextsAccepted`). The conversion is that of glibc 2.38 and later, the C
  library of ROS 2 Jazzy's platform, which also takes the binary prefix `0b`.
- A status code other than 0 reads "no active status bits", with a level that is not OK,
  exactly when it has none of the bits of the mask 0xFC00002F (`StatusBits.NoActiveBitsText`);
  0x10 is one (`StatusBits.UnlistedBitReadsAsNone`).
- After a slave has been found, the search is pinned to its alias and reported position. A
  slave found by its reported position is always found again; one found by its ring index
  alone exactly when no earlier slave of the product stands for the alias and position it
  reports (`SlaveSearch.PinnedSearchRepeats`). `SlaveSearch.PinnedSearchCanMove` shows a
  search that moves; its ring assumes a master library that reports positions other than
  ring indices, which nothing in the repository shows. If it moves at all, it moves towards
  the start of the ring and settles (`SlaveSearch.SearchSettles`).
- The large-jump threshold of the sample counter is converted to a uint32, which is undefined
  when it does not fit. Accepted parameters fit exactly when the sensor rate is at most
  858 993 459 times the read rate, and always when the read rate is left to its default
  (`Parameters.AcceptedRatesFit`); with `expected_read_rate_hz` 0.000001, and otherwise only
  the position given, they do not (`Parameters.AcceptedRatesMayNotFit`).
- A run of the monitor's checks reads the missing interfaces twice without the lock and
  stores what it built later; if replies come in between, the stored hardware check shows
  the list in force exactly when both reads fit that list (`MonitorNode.Node.RunChecks`;
  `MonitorChecks.LateReplyIsNotShown` is a case where they do not). Checks and alerts are coherent all the same.
- The monitor never reads `driver_active` or the seen flags, so it would disagree with the
  driver on some snapshots (`Health.AgreementCondition`, `Health.UnreachableDisagreement`);
  no reachable snapshot is one of them (`Sensor.Component.PublishDiagnostics`).
- The scale check in `read_once` never fires between activation and deactivation: a failed
  calibration leaves bad scales behind, but only in a driver that is shut down again
  (`Sensor.Component.Read`).

## Model

| member | source | states |
|---|---|---|
| SampleCounter.SampleCounterState.Observe | ati_axia80_m20_ethercat_sensor/src/axia80_diagnostics.cpp:221-243 | Observing a reading keeps every field equal to what the whole history of observations and takes calls for, with the wrap-around of the machine words. |
| SampleCounter.SampleCounterState.Take | ati_axia80_m20_ethercat_sensor/src/axia80_diagnostics.cpp:245-308 | A take reports exactly the window since the last take, as read off the delta stream, with its expected and counted numbers per second, the jump threshold and the documented WARN and ERROR limits, and starts the next window with the run still in progress. |
| CounterSpec.ReportMeaning | ati_axia80_m20_ethercat_sensor/src/axia80_diagnostics.cpp:245-297 | Of every window and rates: the counts, the expected and counted numbers per second, the jump threshold, and exactly when the level is ERROR and when it is OK, all written out in the rates, the delta stream and the elapsed time. |
| CounterLaws.TotalIsDistance | ati_axia80_m20_ethercat_sensor/src/axia80_diagnostics.cpp:228 | The uint32 deltas of readings of an unbounded counter add up to the distance it travelled: rollover loses nothing. |
| CounterLaws.RunIsLongestZeroSuffix | ati_axia80_m20_ethercat_sensor/src/axia80_diagnostics.cpp:229-235 | The run counter stands for the longest suffix of zero deltas, however takes cut the stream. |
| CounterLaws.LongestRunIsMaximum | ati_axia80_m20_ethercat_sensor/src/axia80_diagnostics.cpp:232-233 | The run maximum is an upper bound of the runs at the window's start and inside it, and is reached by one of them. |
| CounterLaws.MaxDeltaIsMaximum | ati_axia80_m20_ethercat_sensor/src/axia80_diagnostics.cpp:238-239 | The largest delta of a window is an upper bound of its deltas and, unless it is 0, one of them. |
| CounterLaws.CountsAreCardinalities | ati_axia80_m20_ethercat_sensor/src/axia80_diagnostics.cpp:229-241 | The repeat and jump counts of a window are the numbers of its observations with delta 0 and with delta above 1. |
| CounterLaws.ReportsGrow | ati_axia80_m20_ethercat_sensor/src/axia80_diagnostics.cpp:262-274 | The sequence of reports of a history is the record of what its takes returned: later events never change an earlier report. |
| CounterLaws.WindowsRefineOnePass | ati_axia80_m20_ethercat_sensor/src/axia80_diagnostics.cpp:221-274 | For every stream and every choice of take points the windows' repeats, skips and jumps add up to the one-window values, and the maxima are the maxima of the windows. |
| CounterLaws.ReportedTotals | ati_axia80_m20_ethercat_sensor/src/axia80_diagnostics.cpp:262-274 | The repeats, skips and jumps reported by all takes plus those of the open window are the true totals modulo 2^64, and each is exact if and only if no window's own count wraps. |
| CounterLaws.ReportedMaxima | ati_axia80_m20_ethercat_sensor/src/axia80_diagnostics.cpp:262-274 | The largest delta and the longest run that any take reported, or the open window holds, are those of the whole stream. |
| CounterLaws.Conservation | ati_axia80_m20_ethercat_sensor/src/axia80_diagnostics.cpp:221-274 | For any interleaving of observe and take, the true distance equals the samples skipped plus the observations not repeated, summed over all reports and the open window: modulo 2^64 always, and without loss if every window fits its counters. |
| CounterLaws.AlarmExactness | ati_axia80_m20_ethercat_sensor/src/axia80_diagnostics.cpp:228-242 | A window's reported run reaches k exactly when a run counted across earlier windows does at its start or inside it; 50 repeats in a row are an ERROR and 10 at least a WARN in that window. |
| CounterLaws.DriftBound | ati_axia80_m20_ethercat_sensor/src/axia80_diagnostics.cpp:245-297 | While every report is OK, the true counter minus the number of observations stays between -e(2 max(0, read - sensor) + 60) and e(2 max(0, sensor - read) + 30), for the summed window lengths e and the two rates. |
| CounterLaws.DriftOverTime | ati_axia80_m20_ethercat_sensor/src/axia80_diagnostics.cpp:245-297 | The same bound in the time from the reset to the last take; windows shorter than a millisecond count as one millisecond. |
| Sensor.Component.DriftSinceReset | ati_axia80_m20_ethercat_sensor/src/axia80_m20_ethercat_sensor.cpp:585-600 | In every reachable state with OK reports so far, the true counter minus the number of reads stays within the margins times the seconds since the reset. |
| SdoTrace.OneWorkerAndBoundedBusy | ati_axia80_m20_ethercat_sensor/src/axia80_m20_ethercat_sensor.cpp:384-501 | In every run at most one worker is outstanding, and the lock-failure count never passes 5 and stands at 5 only when paused with no worker outstanding. |
| SdoTrace.PauseIsFinal | ati_axia80_m20_ethercat_sensor/src/axia80_m20_ethercat_sensor.cpp:488-501 | From the tick that pauses on nothing is launched, the pause stays, and at most the one outstanding result is still collected. |
| SdoTrace.OneMorePause | ati_axia80_m20_ethercat_sensor/src/axia80_m20_ethercat_sensor.cpp:390-470 | The documented reasons to pause, stated over the whole run, grow by a tick exactly when it sees or collects a worker over the timeout or completes five busy results in a row. |
| SdoTrace.Accounting | ati_axia80_m20_ethercat_sensor/src/axia80_m20_ethercat_sensor.cpp:384-501 | Ticks are launches plus held ticks plus waiting ticks, results are successes plus skips plus failures, and a disabled supervisor skips once per tick and does nothing else. |
| SdoTrace.PausedIffReason | ati_axia80_m20_ethercat_sensor/src/axia80_m20_ethercat_sensor.cpp:390-469 | A pause reason is on display exactly when the supervisor is paused. |
| SdoSupervisor.Supervisor.OnTick | ati_axia80_m20_ethercat_sensor/src/axia80_m20_ethercat_sensor.cpp:384-514 | One tick adds one legal entry to the history and leaves every field equal to what the history calls for; and, in terms of what it finds alone: when it pauses and why, the busy counter, the statistics, whether a worker runs, and the level of the row. |
| SdoSupervisor.OneMoreEntry | ati_axia80_m20_ethercat_sensor/src/axia80_m20_ethercat_sensor.cpp:384-501 | What pause, reason, busy counter and statistics must be after one more tick, read off the whole longer history, is what the branches of the tick make of them. |
| SdoSupervisor.LevelMeaning | ati_axia80_m20_ethercat_sensor/src/axia80_m20_ethercat_sensor.cpp:445-492 | A row that is neither disabled nor paused is ERROR exactly for a success with a message that is not the sensor's all-clear, OK for every other success, STALE for a skip or no result, WARN for a failure or a worker that threw. |
| SdoSupervisor.Supervisor.Account | ati_axia80_m20_ethercat_sensor/src/axia80_m20_ethercat_sensor.cpp:417-482 | Collecting a result pauses on a slow one or on the fifth busy one in a row, counts it under its outcome, and gives it its level. |
| SdoSupervisor.Supervisor.Collect | ati_axia80_m20_ethercat_sensor/src/axia80_m20_ethercat_sensor.cpp:384-415 | A worker that has ended is collected; one that still runs counts as a skip, and pauses the supervisor if it is over the timeout. |
| SdoSupervisor.Supervisor.Launch | ati_axia80_m20_ethercat_sensor/src/axia80_m20_ethercat_sensor.cpp:484-501 | A disabled or paused tick counts as a skip; otherwise a worker starts unless one is still running. |
| SlaveSearch.FindSlave | ati_axia80_m20_ethercat_sensor/src/axia80_ethercat_driver.cpp:239-268 | The search returns the first slave on the ring that matches product, alias and position, and fails only if there is none. |
| SlaveSearch.PinnedSearchRepeats | ati_axia80_m20_ethercat_sensor/src/axia80_ethercat_driver.cpp:239-268 | A slave found by its reported position is found again by the pinned search, whatever the ring; one found by its index alone exactly when no earlier slave of the product stands for its alias and reported position. |
| SlaveSearch.SearchSettles | ati_axia80_m20_ethercat_sensor/src/axia80_ethercat_driver.cpp:239-268 | Over repeated activations the slave found only moves towards the start of the ring, and settles. |
| SlaveSearch.PinnedSearchCanMove | ati_axia80_m20_ethercat_sensor/src/axia80_ethercat_driver.cpp:253-259 | A concrete ring, with a reported position that is not the ring index, on which the second search finds another slave. |
| BusTrace.CompletedSessionIsScripted | ati_axia80_m20_ethercat_sensor/src/axia80_ethercat_driver.cpp:345-355 | The frames of a completed activation are exactly the language base (base, or a pulse and base)* 0, and every word of it comes from reads and bias calls. |
| BusTrace.FramesMeaning | ati_axia80_m20_ethercat_sensor/src/axia80_ethercat_driver.cpp:345-355 | The frames of each call bit for bit: a set-bias call raises bit 0, a clear-bias call bit 2. |
| BusTrace.RunIsSessions | ati_axia80_m20_ethercat_sensor/src/axia80_ethercat_driver.cpp:109-135 | Over any number of activations the frames sent are completed sessions one after the other. |
| BusTrace.RunEndsOpen | ati_axia80_m20_ethercat_sensor/src/axia80_ethercat_driver.cpp:109-135 | While the bus is open, the frames sent are completed sessions and then base (base, or a pulse and base)*. |
| BusTrace.PulsesAreFramed | ati_axia80_m20_ethercat_sensor/src/axia80_ethercat_driver.cpp:345-355 | The two bias bits are never set together, the second control word is always 0, and every pulse stands between two base frames. |
| BusTrace.PulsesAreBiasCalls | ati_axia80_m20_ethercat_sensor/src/axia80_ethercat_driver.cpp:127-135 | The bias calls can be recovered, in order, from the frames alone, and each bit rises once per completed call of its service. |
| EthercatDriver.ControlWordIsLossless | ati_axia80_m20_ethercat_sensor/src/axia80_ethercat_driver.cpp:357-364 | Filter, slot and rate code can be read back from the control word, and bits 0-3 and 16-31 are clear. |
| EthercatDriver.Driver.Init | ati_axia80_m20_ethercat_sensor/src/axia80_ethercat_driver.cpp:79-107 | Whichever library call fails first decides the fault; the driver is active exactly when activation got as far as the first frame, requested minus released is whether a master is held, and after a calibration the two scales are the numbers whose bytes the sensor replied, force and torque each. |
| EthercatDriver.StartupFaultMeaning | ati_axia80_m20_ethercat_sensor/src/axia80_ethercat_driver.cpp:79-107 | The order of the checks of an activation, written out to the bytes of the calibration. |
| ProcessData.ScalesMeaning | ati_axia80_m20_ethercat_sensor/src/axia80_ethercat_driver.cpp:418-430 | A calibration yields two scales exactly when their bytes are the replies and the three text uploads succeed. |
| EthercatDriver.Driver.ResourcesBalance | ati_axia80_m20_ethercat_sensor/src/axia80_ethercat_driver.cpp:109-125 | In every reachable state requested minus released is whether a master is held, and an active driver holds master, domain, configuration and process data. |
| EthercatDriver.Driver.SetBias | ati_axia80_m20_ethercat_sensor/src/axia80_ethercat_driver.cpp:127-130 | Sends base with bit 0 and then base when active, nothing otherwise. |
| EthercatDriver.Driver.ClearBias | ati_axia80_m20_ethercat_sensor/src/axia80_ethercat_driver.cpp:132-135 | Sends base with bit 2 and then base when active, nothing otherwise. |
| EthercatDriver.Driver.Shutdown | ati_axia80_m20_ethercat_sensor/src/axia80_ethercat_driver.cpp:109-125 | From any state nothing is held afterwards, every requested master is released, and a zero frame is sent exactly if the driver was active. |
| EthercatDriver.Driver.ReadOnce | ati_axia80_m20_ethercat_sensor/src/axia80_ethercat_driver.cpp:142-190 | A read sends one base frame, checks the bus state exactly when due, leaves a cache that shows a check of this activation less than a second old, and returns the stamped sample that the process data encode at the registered offsets. |
| EthercatDriver.EncodedIsSampled | ati_axia80_m20_ethercat_sensor/src/axia80_ethercat_driver.cpp:160-181 | Six signed counts, a status code and a counter, written at the registered places, come out of a read as forces, torques, that code and that counter. |
| ProcessData.EncodedIsDecoded | ati_axia80_m20_ethercat_sensor/src/axia80_ethercat_driver.cpp:160-181 | Words written at places apart from each other are decoded to what was written, signed where they are counts. |
| ProcessData.LittleEndian | ati_axia80_m20_ethercat_sensor/src/axia80_ethercat_driver.cpp:33-45 | The words in their bytes, lowest first, and signed words in two's complement. |
| ProcessData.WrittenIsRead | ati_axia80_m20_ethercat_sensor/src/axia80_ethercat_driver.cpp:33-45 | A little-endian word that is written is read back, and words elsewhere are undisturbed. |
| ProcessData.BytesAreRead | ati_axia80_m20_ethercat_sensor/src/axia80_ethercat_driver.cpp:33-39 | Four bytes are recovered from the number they are read as. |
| ProcessData.ControlsAreApart | ati_axia80_m20_ethercat_sensor/src/axia80_ethercat_driver.cpp:331-335 | Both control words reach their places in the process data, and writing them changes no decoded input. |
| EthercatDriver.Driver.ReadDiagnosticReadings | ati_axia80_m20_ethercat_sensor/src/axia80_ethercat_driver.cpp:192-206 | The readings are those in the bytes of three uploads; any failed upload, or a number of the wrong size, is a fault. |
| EthercatDriver.Driver.CheckEthercatState | ati_axia80_m20_ethercat_sensor/src/axia80_ethercat_driver.cpp:366-416 | Although rewritten only on change, and kept across shutdowns, the cache shows the checked state, field by field, on everything published. |
| EthercatDriver.Driver.BusIsSafe | ati_axia80_m20_ethercat_sensor/src/axia80_ethercat_driver.cpp:109-135 | In every reachable driver state the frames sent so far obey the laws of pulses, and are completed sessions, followed by an open one exactly while the driver is active. |
| EthercatDriver.Driver.StateChecksAreRare | ati_axia80_m20_ethercat_sensor/src/axia80_ethercat_driver.cpp:152-157 | Within an activation any interval of L seconds holds at most floor(L)+1 EtherCAT state checks. |
| Sensor.Component.OnActivate | ati_axia80_m20_ethercat_sensor/src/axia80_m20_ethercat_sensor.cpp:66-93 | An activation succeeds exactly when no library call fails, then opens the bus and pulses the configured biases; a failed one holds no master and leaves the driver inactive. |
| Sensor.Component.OnDeactivate | ati_axia80_m20_ethercat_sensor/src/axia80_m20_ethercat_sensor.cpp:95-105 | Deactivation releases everything and returns snapshot, interfaces, counter and window start to their initial state. |
| Sensor.Component.Read | ati_axia80_m20_ethercat_sensor/src/axia80_m20_ethercat_sensor.cpp:125-164 | A read succeeds whenever the driver is active, stores the sample in the process data, and feeds its counter to the monitor; the snapshot shows a state check of this activation made less than a second before. |
| Sensor.Component.SnapshotShowsPoll | ati_axia80_m20_ethercat_sensor/src/axia80_m20_ethercat_sensor.cpp:136-153 | In every reachable state the snapshot of an active driver shows, field by field, what a state check of this activation was told less than a second before the read. |
| Sensor.ExportedAreExpected | ati_axia80_m20_ethercat_sensor/src/axia80_m20_ethercat_sensor.cpp:107-123 | Under the default name the exported state interfaces are those that the monitor expects. |
| Sensor.Component.ExecuteBias | ati_axia80_m20_ethercat_sensor/src/axia80_diagnostics.cpp:310-326 | A bias service answers success with its own text exactly when the driver is active, and then sends exactly its own pulse. |
| Sensor.Component.RunWorker | ati_axia80_m20_ethercat_sensor/src/axia80_m20_ethercat_sensor.cpp:520-560 | The worker's result depends on lock, activity and upload as documented; the missing-master guard of the SDO read cannot fire. |
| Sensor.WorkerResultMeaning | ati_axia80_m20_ethercat_sensor/src/axia80_m20_ethercat_sensor.cpp:520-560 | The result of the worker written out: both skips with their texts, success exactly when all three uploads are sound, and the readings in the bytes. |
| Sensor.Component.PublishDiagnostics | ati_axia80_m20_ethercat_sensor/src/axia80_m20_ethercat_sensor.cpp:262-518 | In every reachable state the monitor, reading the published text back, reaches the driver's own verdict on communication. The counter and status rows show the last window and the status code at their own level, STALE while the driver is inactive; the SDO row shows the supervisor after one more tick, at its own level whatever the driver does. |
| Sensor.Component.constructor | ati_axia80_m20_ethercat_sensor/src/axia80_m20_ethercat_sensor.cpp:166-179 | A component made from an accepted configuration starts inactive, with nothing sent or observed; filter, slot and rate code stand in bits 4-7, 8-11 and 12-15 of its base word and all other bits are 0, and slave, scales, rates, biases and supervisor are as parsed. |
| Text.PrintersRoundTrip | ati_axia80_m20_ethercat_sensor/src/axia80_diagnostics.cpp:168-173 | For every uint32 the 10-character hexadecimal text and the decimal text are parsed back to it with base detection, so no decimal text is taken for octal. |
| Text.HexIsLowerCase | ati_axia80_m20_ethercat_sensor/src/axia80_diagnostics.cpp:168-173 | The hexadecimal text is 0x and lower-case digits. |
| Text.WhyRejected | ati_axia80_m20_ethercat_sensor/src/axia80_diagnostics.cpp:54-92 | Of texts that denote an integer, those beyond 64 bits are out of range, and the others are refused exactly when they are not acceptable. |
| Text.NumeralIsRead | ati_axia80_m20_ethercat_sensor/src/axia80_diagnostics.cpp:75-83 | A numeral (blanks, sign, prefix, digits of the base the prefix tells) is read to its end as the integer it denotes modulo 2^64. |
| Text.ParsersAccept | ati_axia80_m20_ethercat_sensor/src/axia80_diagnostics.cpp:54-92 | Each integer parser accepts a text exactly when it denotes an integer that is in range, or in range after adding 2^64. |
| Text.AcceptedTextYieldsItsInteger | ati_axia80_m20_ethercat_sensor/src/axia80_diagnostics.cpp:54-92 | An accepted text yields the integer it denotes exactly when that is not negative. |
| Text.NegativeTextsAccepted | ati_axia80_m20_ethercat_sensor/src/axia80_diagnostics.cpp:54-92 | A literal negative text that all three parsers read as 1. |
| Text.MinusSignIsAccepted | ati_axia80_m20_ethercat_sensor/src/axia80_diagnostics.cpp:75-83 | A decimal text with a minus sign is accepted as uint32 exactly when its magnitude is 0 or lies within 2^32 below 2^64, and in the latter case as its sum with 2^64. |
| StatusBits.DescribeStatusBits | ati_axia80_m20_ethercat_sensor/src/axia80_diagnostics.cpp:175-190 | The loop over the bit table builds the joined entries of the set bits, or the fixed text if there are none. |
| StatusBits.BitsInWords | ati_axia80_m20_ethercat_sensor/src/axia80_diagnostics.cpp:24-36 | The description of each of the eleven bits on its own. |
| StatusBits.DescriptionIsFaithful | ati_axia80_m20_ethercat_sensor/src/axia80_diagnostics.cpp:24-36 | Two codes have the same description exactly when they agree on the eleven listed bits. |
| StatusBits.NoActiveBitsText | ati_axia80_m20_ethercat_sensor/src/axia80_diagnostics.cpp:175-203 | The "no active" text means that no listed bit is set; level OK implies it, and it comes with another level exactly for the codes other than 0 without a bit of the mask 0xFC00002F, then ERROR. |
| StatusBits.UnlistedBitReadsAsNone | ati_axia80_m20_ethercat_sensor/src/axia80_diagnostics.cpp:175-203 | The code 0x10 has the "no active" text and level ERROR. |
| Parameters.ParseHardwareParameters | ati_axia80_m20_ethercat_sensor/src/axia80_diagnostics.cpp:116-166 | Parsing succeeds exactly when every parameter, or its default, says a value of its kind (in terms of the integers that texts denote), and returns those values; otherwise it returns the fault of the first faulty parameter in order. |
| Parameters.AcceptedRatesFit | ati_axia80_m20_ethercat_sensor/src/axia80_diagnostics.cpp:257-258 | Of an accepted configuration, five times the ratio of the rates, rounded up, fits in 32 bits exactly when the sensor rate is at most 858 993 459 times the read rate, and always with the default read rate, printed to six decimals. |
| Parameters.AcceptedRatesMayNotFit | ati_axia80_m20_ethercat_sensor/src/axia80_diagnostics.cpp:257-258 | With any library that reads three texts as C does, parameters with the read rate 0.000001 are accepted and the threshold does not fit. |
| Parameters.SpelledIsDenoted | ati_axia80_m20_ethercat_sensor/src/axia80_diagnostics.cpp:116-166 | Every configuration in range, said key by key, is the one and only configuration denoted. |
| Parameters.FaultsInOrder | ati_axia80_m20_ethercat_sensor/src/axia80_diagnostics.cpp:116-166 | The faults that compete stand in the order of the eighteen keys. |
| Parameters.DefaultSensorRate | ati_axia80_m20_ethercat_sensor/src/axia80_diagnostics.cpp:94-98 | Without a sensor rate the rate of the code counts: 487, 975, 1990 or 3900 Hz. |
| Parameters.FlagWords | ati_axia80_m20_ethercat_sensor/src/axia80_diagnostics.cpp:101-114 | The ten words that are flags. |
| Parameters.DefaultIds | ati_axia80_m20_ethercat_sensor/src/axia80_diagnostics.cpp:122-127 | Without id parameters vendor 0x732, product 0x26483053 and revision 1 come through their own decimal text. |
| Parameters.SelectionBits | ati_axia80_m20_ethercat_sensor/src/axia80_ethercat_driver.cpp:357-364 | Filter, slot and rate code of a configuration stand in bits 4-7, 8-11 and 12-15 of the control word; all other bits are 0. |
| Parameters.ConfigurationIsLossless | ati_axia80_m20_ethercat_sensor/src/axia80_diagnostics.cpp:145-150 | Accepted configurations with equal control words have equal filter, slot and rate selections. |
| Health.ValuesReadBack | ati_axia80_m20_ethercat_sensor/src/axia80_m20_ethercat_sensor.cpp:290-315 | Every field of the EtherCAT state is read back from the published text under its key, whatever rows follow. |
| Health.FlagTexts | ati_axia80_m20_ethercat_sensor/scripts/axia80_monitor_node.py:535-544 | Which texts mean true and false to the monitor. |
| Health.StripMeaning | ati_axia80_m20_ethercat_sensor/scripts/axia80_monitor_node.py:535-544 | Blanks are taken off at both ends, and nothing else. |
| Health.MonitorSeesDriver | ati_axia80_m20_ethercat_sensor/scripts/axia80_monitor_node.py:456-500 | Through text, first-wins merge and parsing, for every reading of text that reads 32-bit counts as themselves, the monitor's verdict is exactly link up, slaves responding, slave online and operational, whatever rows follow. |
| Health.AgreementCondition | ati_axia80_m20_ethercat_sensor/src/axia80_m20_ethercat_sensor.cpp:282-315 | Driver and monitor agree on a snapshot if and only if it is active with all states seen, or one of the four conditions fails. |
| Health.UnreachableDisagreement | ati_axia80_m20_ethercat_sensor/scripts/axia80_monitor_node.py:534-549 | A concrete snapshot on which they would disagree. |
| Health.MonitorAgrees | ati_axia80_m20_ethercat_sensor/src/axia80_m20_ethercat_sensor.cpp:282-315 | On default snapshots and on snapshots taken after all three states were seen they always agree. |
| Health.SomeReadingReadsCounts | ati_axia80_m20_ethercat_sensor/scripts/axia80_monitor_node.py:534-539 | A reading of text that reads every 32-bit count as itself exists, so the agreement is not vacuous. |
| MonitorNode.Node.OnDiagnostics | ati_axia80_m20_ethercat_sensor/scripts/axia80_monitor_node.py:222-258 | The merged dictionary holds the first value of each key over all rows, each row's own the last; the health verdict is derived from the merged one, temperature and voltage keep the last value of their kind, and the counter history its most recent samples. |
| MonitorMessage.MetricKeys | ati_axia80_m20_ethercat_sensor/scripts/axia80_monitor_node.py:231-235 | Of the driver's own keys each metric takes its own. |
| MonitorMessage.CounterSampleMeaning | ati_axia80_m20_ethercat_sensor/scripts/axia80_monitor_node.py:260-281 | The rates of a message under their six keys; without an actual rate there is no sample. |
| MonitorNode.Node.BuildChecks | ati_axia80_m20_ethercat_sensor/scripts/axia80_monitor_node.py:300-336 | The twelve checks have distinct names, show what the run read, and the diagnostic ones pass exactly when their row is reported with level 0. |
| MonitorChecks.FixedMeaning | ati_axia80_m20_ethercat_sensor/scripts/axia80_monitor_node.py:300-323 | The eight checks that are not about rows, each with its name, its condition and its text. |
| MonitorChecks.RowCheckMeaning | ati_axia80_m20_ethercat_sensor/scripts/axia80_monitor_node.py:300-336 | A diagnostic check passes exactly when the first row whose name carries its suffix is reported with level 0. |
| MonitorChecks.ChecksShowLevels | ati_axia80_m20_ethercat_sensor/scripts/axia80_monitor_node.py:325-336 | On the driver's own message each diagnostic check shows its own row: it passes exactly when that row has level 0. |
| MonitorNode.Node.StoreChecks | ati_axia80_m20_ethercat_sensor/scripts/axia80_monitor_node.py:338-346 | The rebuild leaves exactly the alerts of the failing checks, in their order. |
| MonitorChecks.AlertsMeaning | ati_axia80_m20_ethercat_sensor/scripts/axia80_monitor_node.py:338-341 | There is one alert, name, colon and detail, for each failing check, in their order, and no other. |
| MonitorChecks.MissingMeaning | ati_axia80_m20_ethercat_sensor/scripts/axia80_monitor_node.py:370-375 | A name is missing exactly when it is expected and no available interface of the reply has it. |
| MonitorNode.Node.OnInterfaces | ati_axia80_m20_ethercat_sensor/scripts/axia80_monitor_node.py:350-390 | A late reply sets the missing list to the expected names not available, replaces one check in place, and alerts stay exactly those of the failing checks; a failed query changes nothing. |
| MonitorNode.Node.RunChecks | ati_axia80_m20_ethercat_sensor/scripts/axia80_monitor_node.py:319-346 | With replies coming in between the two reads of the missing list and before the store, the stored hardware check shows the list in force exactly when both reads fit it; checks and alerts stay coherent. |
| MonitorChecks.LateReplyIsNotShown | ati_axia80_m20_ethercat_sensor/scripts/axia80_monitor_node.py:319-346 | A first reply with everything available, coming in just before the store, is not shown. |
| MonitorChecks.TwoChecksAgree | ati_axia80_m20_ethercat_sensor/scripts/axia80_monitor_node.py:323-336 | Of a message that starts with the driver's row, the derived health and the check of the communication row show the same verdict, the driver's. |
| MonitorNode.Node.CheckDriverMessage | ati_axia80_m20_ethercat_sensor/scripts/axia80_monitor_node.py:222-346 | After the driver's message and a run of the checks, `ethercat_health` and `diagnostic_ethercat_communication` pass exactly when the driver found communication good. |
| MonitorChecks.PatchCoherence | ati_axia80_m20_ethercat_sensor/scripts/axia80_monitor_node.py:380-390 | The in-place patch keeps checks and alerts coherent if and only if the hardware entry exists or nothing is missing. |
| MonitorChecks.HardwareCheckShowsCount | ati_axia80_m20_ethercat_sensor/scripts/axia80_monitor_node.py:319-322 | A check made of two reads is the one due for a count exactly when the first says whether it is 0 and the second is it. |
| MonitorNode.Node.ScheduleWrenchBroadcast | ati_axia80_m20_ethercat_sensor/scripts/axia80_monitor_node.py:570-585 | A wrench goes out exactly when someone listens and the minimum period has passed since the last one. |
| MonitorNode.Node.BroadcastsAreThrottled | ati_axia80_m20_ethercat_sensor/scripts/axia80_monitor_node.py:574-577 | Any interval of L seconds holds at most L * max(1, rate) + 1 wrench broadcasts. |

## Left out

- Sensor.Component.OnActivate: the shutdown after a failed activation happens after the driver mutex has been released; here it is part of the same atomic step.
- EthercatDriver.Driver.Init: requires an inactive driver, as the ros2_control lifecycle guarantees; a second activation without deactivation is not modelled.
- Rounding of `double`: real numbers stand for it throughout.
- The assignment of process-data offsets: the library's answer is an input, and the data are taken to hold every entry, with the control words apart from the inputs.
- SampleCounter.SampleCounterState.Take: requires that five times the ratio of the rates fits in a uint32, since the C++ conversion is undefined otherwise; the human-readable message is not modelled.
- Sensor.Component.constructor: for the same reason requires rates that fit, which not every accepted configuration has.
- Parameters.ParseHardwareParameters: the C library's reading and printing of `double` are parameters of the model; of printing only the six decimals are used.
- Health.MonitorSeesDriver: Python's `float` is a parameter of which only the reading of 32-bit counts is assumed, and `strip` and `lower` cover ASCII.
- Creating the driver in `on_configure`, the node, the services and the publisher: plumbing around the component modelled here.
- The key/value rows of the sample counter, runtime SDO and sensor status, apart from their data: the agreement of health holds for any such rows.
- The EtherCAT library, ROS 2, `mlockall`, the PDO tables and the offset registration: only success or failure of each call, and its effect on what is held, is an input.
- Reconfiguration by other diagnostic messages: the agreement is about the driver's own message, not about those of other nodes on the same topic.
- The dashboard, the web server, the launch files, logging and log throttling.
- The text of the exception inside a failed worker's message: only the SKIPPED texts decide anything.
- The calibration strings, which are only logged: whether their uploads succeed is an input.
- MonitorNode.Node.OnInterfaces: the list of all interfaces with type and claim, which is only displayed, is not kept.
- MonitorNode.Node.OnDiagnostics: hardware ids, which are only displayed, are not kept.
- How long `read` waits for the mutex while a worker holds it: the code gives no bound.
