/** The EtherCAT driver: one master, one domain, and the frames it sends. */
module EthercatDriver {
  import opened Machine
  import opened BusTrace
  import opened RateLimit
  import opened SlaveSearch
  import opened ProcessData

  // ------------------------------------------------------- the state of the bus

  datatype DomainState = DomainState(workingCounter: uint32, wcState: uint32, redundancyActive: uint32)
  datatype MasterState = MasterState(slavesResponding: uint32, alStates: uint32, linkUp: bool)
  datatype SlaveState = SlaveState(online: bool, operational: bool, alState: uint32)

  /** What one EtherCAT state check asks the master library for. */
  datatype BusState = BusState(domain: DomainState, master: MasterState, slave: SlaveState)

  datatype Poll = Poll(time: real, state: BusState)

  datatype EthercatState = EthercatState(
    haveDomain: bool, workingCounter: uint32, wcState: uint32,
    haveMaster: bool, slavesResponding: uint32, alStates: uint32, linkUp: bool,
    haveSlave: bool, online: bool, operational: bool, slaveAlState: uint32)

  const NO_BUS_STATE := BusState(DomainState(0, 0, 0), MasterState(0, 0, false), SlaveState(false, false, 0))

  /** The published form of a state of which all three parts have been seen. */
  function Exposed(s: BusState): EthercatState {
    EthercatState(
      true, s.domain.workingCounter, s.domain.wcState,
      true, s.master.slavesResponding, s.master.alStates, s.master.linkUp,
      true, s.slave.online, s.slave.operational, s.slave.alState)
  }

  // ------------------------------------------------- the library as environment

  /** The outcome of every library call that an activation may make. */
  datatype Startup = Startup(
    requested: bool, info: bool, ring: Ring, domain: bool, slaveConfig: bool, pdos: bool, entries: bool,
    offsets: Offsets, activated: bool, processData: bool, calibration: CalibrationUploads)

  datatype Stamp = Stamp(sec: int, nanosec: nat)

  datatype Sample = Sample(
    stamp: Stamp, force: seq<real>, torque: seq<real>, statusCode: bv32, sampleCounter: uint32)

  datatype Fault =
    | NoMaster | NoMasterInfo | SlaveNotFound | NoDomain | NoSlaveConfig | PdosRejected | EntriesRejected
    | NotActivated | NoProcessData | UploadFailed | BadScale | NotActive | MasterNotRequested

  /** The configuration fields of the control word. */
  datatype Selection = Selection(filter: bv8, slot: bv8, rate: bv8)

  function ControlWord(s: Selection): Word {
    Word(ControlBits(s))
  }

  function ControlBits(s: Selection): bv32 {
    (((s.filter & 0x0F) as bv32) << 4) | (((s.slot & 0x0F) as bv32) << 8) | (((s.rate & 0x0F) as bv32) << 12)
  }

  lemma ControlWordLeavesBiasClear(s: Selection)
    ensures BiasBitsClear(ControlWord(s))
  {
  }

  /** The low half-bytes of the three selections can be read back from the control word,
      which leaves bits 0-3 and 16-31 clear. */
  lemma ControlWordIsLossless(s: Selection)
    ensures ControlWord(s).bits & 0xFFFF_000F == 0
    ensures ((ControlWord(s).bits >> 4) & 0x0F) as bv8 == s.filter & 0x0F
    ensures ((ControlWord(s).bits >> 8) & 0x0F) as bv8 == s.slot & 0x0F
    ensures ((ControlWord(s).bits >> 12) & 0x0F) as bv8 == s.rate & 0x0F
  {
  }

  /** Selections of four bits stand in the word as they are. */
  lemma SmallSelection(s: Selection)
    requires s.filter <= 0xF && s.slot <= 0xF && s.rate <= 0xF
    ensures (ControlWord(s).bits >> 4) & 0xF == s.filter as bv32
    ensures (ControlWord(s).bits >> 8) & 0xF == s.slot as bv32
    ensures (ControlWord(s).bits >> 12) & 0xF == s.rate as bv32
    ensures ControlWord(s).bits & 0xFFFF_000F == 0
  {
  }

  class Driver {
    const selection: Selection
    const readCalibration: bool
    var slave: SlaveConfig
    var countsPerForce: real
    var countsPerTorque: real
    // Which library objects are held (the pointers that are not null).
    var master: bool
    var domain: bool
    var slaveConfig: bool
    var processData: bool
    var active: bool
    /** Where the registration of the PDO entries put them. */
    var offsets: Offsets
    // The two control words in the process data.
    var control1: Word
    var control2: Word
    // The last bus state, rewritten only when a compared field changes.
    var lastDomain: DomainState
    var lastMaster: MasterState
    var lastSlave: SlaveState
    var haveDomain: bool
    var haveMaster: bool
    var haveSlave: bool
    var stateCheckRequired: bool
    var nextStateCheckTime: real

    ghost var requests: nat
    ghost var releases: nat
    ghost var frames: seq<Frame>
    ghost var script: seq<BusOp>
    /** The state checks of the current activation. */
    ghost var polls: seq<Poll>

    ghost function Base(): Word {
      ControlWord(selection)
    }

    predicate IsActive()
      reads this`active, this`processData
    {
      active && processData
    }

    predicate GoodScales()
      reads this`countsPerForce, this`countsPerTorque
    {
      countsPerForce > 0.0 && countsPerTorque > 0.0
    }

    ghost predicate Cached(s: BusState)
      reads this`lastDomain, this`lastMaster, this`lastSlave, this`haveDomain, this`haveMaster, this`haveSlave
    {
      StateSnapshot() == Exposed(s)
    }

    ghost predicate Valid()
      reads this
    {
      ResourcesKept() && BusKept() && (active ==> PollsKept()) && (readCalibration || GoodScales())
    }

    /** Every requested master is released or held; an active driver holds everything. */
    ghost predicate ResourcesKept()
      reads this`requests, this`releases, this`master, this`domain, this`slaveConfig, this`processData, this`active
    {
      && requests - releases == (if master then 1 else 0)
      && (!master ==> !domain && !slaveConfig && !processData && !active)
      && (active ==> master && domain && slaveConfig && processData)
    }

    /** The frames sent are those of the calls completed. */
    ghost predicate BusKept()
      reads this`frames, this`script, this`active
    {
      frames == Render(Base(), script) && WellScripted(script) && (IsOpen(script) <==> active)
    }

    /** In the current activation state checks are at least a second apart, the next one is
        due a second after the last, and the cache shows the last one. */
    ghost predicate PollsKept()
      reads this`polls, this`stateCheckRequired, this`nextStateCheckTime,
            this`lastDomain, this`lastMaster, this`lastSlave, this`haveDomain, this`haveMaster, this`haveSlave
    {
      && Spaced(Times(polls), 1.0)
      && (stateCheckRequired <==> polls == [])
      && (polls != [] ==>
            && nextStateCheckTime == polls[|polls| - 1].time + 1.0
            && Cached(polls[|polls| - 1].state))
    }

    /** Between two lock-protected sections the driver is either fully up or fully down. */
    ghost predicate Settled()
      reads this
    {
      Valid() && (active <==> master) && (active ==> GoodScales())
    }

    constructor (selection: Selection, readCalibration: bool, slave: SlaveConfig, force: real, torque: real)
      requires force > 0.0 && torque > 0.0
      ensures Settled() && !active && frames == [] && requests == 0
      ensures this.selection == selection && this.readCalibration == readCalibration && this.slave == slave
      ensures countsPerForce == force && countsPerTorque == torque
    {
      this.selection, this.readCalibration, this.slave := selection, readCalibration, slave;
      countsPerForce, countsPerTorque := force, torque;
      master, domain, slaveConfig, processData, active := false, false, false, false, false;
      control1, control2, offsets := ZERO, ZERO, Offsets([], 0, 0, 0, 0);
      lastDomain, lastMaster, lastSlave := NO_BUS_STATE.domain, NO_BUS_STATE.master, NO_BUS_STATE.slave;
      haveDomain, haveMaster, haveSlave := false, false, false;
      stateCheckRequired, nextStateCheckTime := true, 0.0;
      requests, releases, frames, script, polls := 0, 0, [], [], [];
    }

    function StateSnapshot(): EthercatState
      reads this`lastDomain, this`lastMaster, this`lastSlave, this`haveDomain, this`haveMaster, this`haveSlave
    {
      EthercatState(
        haveDomain, lastDomain.workingCounter, lastDomain.wcState,
        haveMaster, lastMaster.slavesResponding, lastMaster.alStates, lastMaster.linkUp,
        haveSlave, lastSlave.online, lastSlave.operational, lastSlave.alState)
    }

    /** What is requested is held or released, and an active driver holds everything it needs. */
    lemma ResourcesBalance()
      requires Valid()
      ensures requests - releases == if master then 1 else 0
      ensures active ==> master && domain && slaveConfig && processData
      ensures !master ==> !domain && !slaveConfig && !processData && !active
    {
    }

    /** What an observer of the bus can rely on, over every run so far: pulses stand between
        base frames, the bias bits rise once per completed bias call and show the calls in
        order, and the frames are completed sessions, followed by an open one exactly while the
        driver is up. */
    lemma BusIsSafe()
      requires Valid()
      ensures forall i :: 0 <= i < |frames| ==> Framed(Base(), frames, i)
      ensures RisingEdges(frames, SET_BIAS) == CountOps(script, BusOp.SetBias)
      ensures RisingEdges(frames, CLEAR_BIAS) == CountOps(script, BusOp.ClearBias)
      ensures BiasCalls(frames) == BiasOps(script)
      ensures if active then SessionsThenOpen(Base(), frames) else Sessions(Base(), frames)
    {
      hide Render, WellScripted, IsOpen, Framed, RisingEdges, CountOps, BiasCalls, BiasOps, Sessions, SessionsThenOpen,
           ControlWord;
      ControlWordLeavesBiasClear(selection);
      PulsesAreFramed(Base(), script);
      PulsesAreBiasCalls(Base(), script);
      if active {
        RunEndsOpen(Base(), script);
      } else {
        RunIsSessions(Base(), script);
      }
    }

    /** Within an activation any interval of `length` seconds holds at most
        floor(length) + 1 state checks. */
    lemma StateChecksAreRare(from: real, length: real)
      requires Valid() && active && length >= 0.0
      ensures CountIn(Times(polls), from, from + length) <= length.Floor + 1
    {
      PerSecondBound(Times(polls), from, length);
    }

    // ------------------------------------------------------------ activation

    method Init(env: Startup) returns (fault: Option<Fault>)
      requires Settled() && !active
      modifies this
      ensures Valid()
      ensures fault == StartupFault(env, old(slave), readCalibration)
      ensures fault.None? ==> Settled() && active && polls == [] && offsets == env.offsets
      ensures requests == old(requests) + (if env.requested then 1 else 0) && releases == old(releases)
      ensures script == old(script) + if active then [Open] else []
      ensures active <==> fault.None? || fault.value.UploadFailed? || fault.value.BadScale?
      ensures if !env.requested || !env.info || NoMatch(old(slave), env.ring) then slave == old(slave)
              else PinnedToFirst(old(slave), env.ring, slave)
      ensures ScalesAfter(env, fault, old(countsPerForce), old(countsPerTorque))
      ensures fault.None? && readCalibration ==> ScalesReplied(env.calibration)
      ensures fault.None? && !readCalibration ==>
                countsPerForce == old(countsPerForce) && countsPerTorque == old(countsPerTorque)
      ensures StateSnapshot() == old(StateSnapshot())
    {
      hide Render, WellScripted, IsOpen, FramesOf, ControlWord, PollsKept, NoMatch, PinnedToFirst, BusKept, ScalesReplied,
           ScalesIn;
      fault := Prepare(env);
      if fault.Some? { return; }
      fault := ActivateMaster(env);
      if fault.Some? { return; }
      fault := CalibrateIfAsked(env);
    }

    method CalibrateIfAsked(env: Startup) returns (fault: Option<Fault>)
      requires Valid() && active
      modifies this`countsPerForce, this`countsPerTorque
      ensures Valid() && (fault.None? ==> GoodScales())
      ensures fault == if readCalibration then CalibrationFault(env) else None
      ensures fault.None? && readCalibration ==> ScalesReplied(env.calibration)
      ensures !readCalibration ==> countsPerForce == old(countsPerForce) && countsPerTorque == old(countsPerTorque)
      ensures ScalesAfter(env, fault, old(countsPerForce), old(countsPerTorque))
    {
      hide BusKept, PollsKept, ScalesIn, ScalesReplied, CalibrationFault;
      fault := None;
      if readCalibration {
        fault := ReadCalibration(env);
      }
    }

    /** The scales are the numbers whose bytes the sensor replied. */
    ghost predicate ScalesReplied(u: CalibrationUploads)
      reads this`countsPerForce, this`countsPerTorque
    {
      exists force: uint32, torque: uint32 ::
        && u.force == Some(Bytes(force)) && u.torque == Some(Bytes(torque))
        && countsPerForce == force as real && countsPerTorque == torque as real
    }

    /** The scales change only in a calibration whose uploads succeed, and then even to values
        that are rejected afterwards. */
    ghost predicate ScalesAfter(env: Startup, fault: Option<Fault>, force: real, torque: real)
      reads this`countsPerForce, this`countsPerTorque
    {
      var scales := ScalesIn(env.calibration);
      if readCalibration && scales.Some? && (fault.None? || fault.value.BadScale?) then
        countsPerForce == scales.value.0 as real && countsPerTorque == scales.value.1 as real
      else countsPerForce == force && countsPerTorque == torque
    }

    /** Everything before the master is activated. */
    method Prepare(env: Startup) returns (fault: Option<Fault>)
      requires Settled() && !active
      modifies this`master, this`requests, this`slave, this`domain, this`slaveConfig, this`offsets
      ensures Valid()
      ensures fault == PreparationFault(env, old(slave))
      ensures fault.None? ==> master && domain && slaveConfig && offsets == env.offsets
      ensures requests == old(requests) + if env.requested then 1 else 0
      ensures if !env.requested || !env.info || NoMatch(old(slave), env.ring) then slave == old(slave)
              else PinnedToFirst(old(slave), env.ring, slave)
    {
      hide BusKept, PollsKept, NoMatch, PinnedToFirst, PdoFault;
      fault := RequestMaster(env);
      if fault.Some? { return; }
      fault := PinSlave(env.ring);
      if fault.Some? { return; }
      fault := ConfigurePdos(env);
    }

    method RequestMaster(env: Startup) returns (fault: Option<Fault>)
      requires Settled() && !active
      modifies this`master, this`requests
      ensures Valid() && master == env.requested
      ensures fault == if !env.requested then Some(NoMaster) else if !env.info then Some(NoMasterInfo) else None
      ensures requests == old(requests) + if env.requested then 1 else 0
    {
      master := env.requested;
      if !master { return Some(NoMaster); }
      requests := requests + 1;
      fault := if env.info then None else Some(NoMasterInfo);
    }

    /** Searches the ring and narrows the configuration to the slave found. */
    method PinSlave(ring: Ring) returns (fault: Option<Fault>)
      modifies this`slave
      ensures fault == if NoMatch(old(slave), ring) then Some(SlaveNotFound) else None
      ensures if fault.Some? then slave == old(slave) else PinnedToFirst(old(slave), ring, slave)
    {
      var found := FindSlave(slave, ring);
      if found.None? { return Some(SlaveNotFound); }
      slave := Pinned(slave, found.value);
      fault := None;
    }

    method ConfigurePdos(env: Startup) returns (fault: Option<Fault>)
      requires Valid() && master && !active
      modifies this`domain, this`slaveConfig, this`offsets
      ensures Valid()
      ensures fault == PdoFault(env)
      ensures fault.None? ==> domain && slaveConfig && offsets == env.offsets
    {
      domain := env.domain;
      if !domain { return Some(NoDomain); }
      slaveConfig := env.slaveConfig;
      if !slaveConfig { return Some(NoSlaveConfig); }
      if !env.pdos { return Some(PdosRejected); }
      if !env.entries { return Some(EntriesRejected); }
      offsets := env.offsets;
      fault := None;
    }

    /** Activates the master, and sends the first frame. */
    method ActivateMaster(env: Startup) returns (fault: Option<Fault>)
      requires Valid() && master && domain && slaveConfig && !active
      modifies this`control1, this`control2, this`frames, this`script, this`polls,
               this`processData, this`active, this`stateCheckRequired
      ensures Valid()
      ensures fault == if !env.activated then Some(NotActivated) else if !env.processData then Some(NoProcessData) else None
      ensures active <==> fault.None?
      ensures script == old(script) + if active then [Open] else []
      ensures active ==> polls == []
    {
      hide Render, WellScripted, IsOpen, FramesOf, ControlWord;
      if !env.activated { return Some(NotActivated); }
      processData := env.processData;
      if !processData { return Some(NoProcessData); }
      stateCheckRequired, active, polls := true, true, [];
      Send(ControlWord(selection));
      script := script + [Open];
      OneMoreOp(Base(), old(script), Open);
      fault := None;
    }

    method ReadCalibration(env: Startup) returns (fault: Option<Fault>)
      requires Valid() && active && readCalibration
      modifies this`countsPerForce, this`countsPerTorque
      ensures Valid()
      ensures fault == CalibrationFault(env)
      ensures fault.None? ==> GoodScales() && ScalesReplied(env.calibration)
      ensures ScalesAfter(env, fault, old(countsPerForce), old(countsPerTorque))
    {
      hide ScalesIn, BusKept, PollsKept;
      var scales := ScalesIn(env.calibration);
      if scales.None? { return Some(UploadFailed); }
      ScalesMeaning(env.calibration, scales.value.0, scales.value.1);
      countsPerForce := scales.value.0 as real;
      countsPerTorque := scales.value.1 as real;
      fault := if countsPerForce > 0.0 && countsPerTorque > 0.0 then None else Some(BadScale);
    }

    /** The last frame of a session is zero. */
    method StopSending()
      requires Valid() && active
      modifies this`control1, this`control2, this`frames, this`script, this`active
      ensures BusKept() && !active && script == old(script) + [Close]
    {
      hide Render, WellScripted, IsOpen, FramesOf, ControlWord;
      Send(ZERO);
      active := false;
      script := script + [Close];
      OneMoreOp(Base(), old(script), Close);
    }

    /** Releases whatever is held; a second call changes nothing. */
    method Shutdown()
      requires Valid()
      modifies this`control1, this`control2, this`frames, this`script, this`releases, this`active,
               this`master, this`domain, this`slaveConfig, this`processData, this`stateCheckRequired
      ensures Settled() && !master && releases == requests
      ensures script == old(script) + if old(active) then [Close] else []
    {
      hide BusKept, PollsKept;
      if master {
        if active {
          StopSending();
        }
        releases, master := releases + 1, false;
      }
      domain, slaveConfig, processData, stateCheckRequired := false, false, false, true;
    }

    // ------------------------------------------------------------- the cycle

    /** Write the control words, then receive, process, queue and send: one frame. */
    method Send(word: Word)
      requires master && domain && processData
      modifies this`control1, this`control2, this`frames
      ensures frames == old(frames) + [Frame(word, ZERO)]
    {
      control1, control2 := word, ZERO;
      frames := frames + [Frame(control1, control2)];
    }

    method SetBias() returns (fault: Option<Fault>)
      requires Valid()
      modifies this`control1, this`control2, this`frames, this`script
      ensures Valid() && (fault.None? <==> active) && (fault.Some? ==> fault == Some(NotActive))
      ensures script == old(script) + if active then [BusOp.SetBias] else []
      ensures frames == old(frames) +
                if active then [Frame(Word(Base().bits | 1), Word(0)), Frame(Base(), Word(0))] else []
    {
      FramesMeaning(Base());
      fault := Pulse(SET_BIAS, BusOp.SetBias);
    }

    method ClearBias() returns (fault: Option<Fault>)
      requires Valid()
      modifies this`control1, this`control2, this`frames, this`script
      ensures Valid() && (fault.None? <==> active) && (fault.Some? ==> fault == Some(NotActive))
      ensures script == old(script) + if active then [BusOp.ClearBias] else []
      ensures frames == old(frames) +
                if active then [Frame(Word(Base().bits | 4), Word(0)), Frame(Base(), Word(0))] else []
    {
      FramesMeaning(Base());
      fault := Pulse(CLEAR_BIAS, BusOp.ClearBias);
    }

    method Pulse(bit: Word, ghost op: BusOp) returns (fault: Option<Fault>)
      requires Valid() && FramesOf(Base(), op) == [Frame(Or(Base(), bit), ZERO), Frame(Base(), ZERO)] && !op.Open? && !op.Close?
      modifies this`control1, this`control2, this`frames, this`script
      ensures Valid() && (fault.None? <==> active) && (fault.Some? ==> fault == Some(NotActive))
      ensures script == old(script) + if active then [op] else []
      ensures frames == old(frames) + if active then FramesOf(Base(), op) else []
    {
      ghost var pulse := FramesOf(Base(), op);
      hide Render, WellScripted, IsOpen, FramesOf, Or, PollsKept;
      if !IsActive() { return Some(NotActive); }
      Send(Or(ControlWord(selection), bit));
      Send(ControlWord(selection));
      assert frames == old(frames) + pulse;
      script := script + [op];
      OneMoreOp(Base(), old(script), op);
      fault := None;
    }

    /** One real-time cycle at clock `now` (`stamp`, as a message shows it), with the process
        data just received. `state` is what a state check would be told. */
    method ReadOnce(now: real, stamp: Stamp, state: BusState, data: seq<uint8>) returns (r: Result<Sample, Fault>)
      requires Valid() && Placed(offsets, |data|)
      requires active && polls != [] ==> polls[|polls| - 1].time <= now
      modifies this`control1, this`control2, this`frames, this`script, this`polls,
               this`lastDomain, this`lastMaster, this`lastSlave, this`haveDomain, this`haveMaster, this`haveSlave,
               this`stateCheckRequired, this`nextStateCheckTime
      ensures Valid()
      ensures r.Ok? <==> active && GoodScales()
      ensures r.Err? ==> r.error == (if active then BadScale else NotActive) && script == old(script) && polls == old(polls)
      ensures r.Ok? ==>
                && script == old(script) + [Read]
                && polls == old(polls) + (if CheckDue(old(polls), now) then [Poll(now, state)] else [])
                && Fresh(now)
                && polls[|polls| - 1].time <= now < polls[|polls| - 1].time + 1.0
                && r.value == SampleOf(stamp, Decode(data, offsets), countsPerForce, countsPerTorque)
                && Measures(r.value, stamp, data)
    {
      hide Render, WellScripted, IsOpen, FramesOf, ControlWord, PollsKept, Fresh, SampleOf, Decode, Placed, Measures;
      if !IsActive() { return Err(NotActive); }
      if !GoodScales() { return Err(BadScale); }
      CheckIfDue(now, state);
      SampleMeasures(stamp, data);
      r := Ok(SampleOf(stamp, Decode(data, offsets), countsPerForce, countsPerTorque));
      Send(ControlWord(selection));
      script := script + [Read];
      OneMoreOp(Base(), old(script), Read);
    }

    /** The sample carries the stamp, and the words at the registered places: scaled to force
        and torque, the status code and the counter. */
    ghost predicate Measures(s: Sample, stamp: Stamp, data: seq<uint8>)
      requires Placed(offsets, |data|) && GoodScales()
      reads this`offsets, this`countsPerForce, this`countsPerTorque
    {
      && s.stamp == stamp && |s.force| == |s.torque| == 3
      && (forall k :: 0 <= k < 3 ==>
            && s.force[k] == S32At(data, offsets.counts[k]) as real / countsPerForce
            && s.torque[k] == S32At(data, offsets.counts[k + 3]) as real / countsPerTorque)
      && s.statusCode == U32At(data, offsets.statusCode) as bv32
      && s.sampleCounter == U32At(data, offsets.sampleCounter)
    }

    lemma SampleMeasures(stamp: Stamp, data: seq<uint8>)
      requires Placed(offsets, |data|) && GoodScales()
      ensures Measures(SampleOf(stamp, Decode(data, offsets), countsPerForce, countsPerTorque), stamp, data)
    {
      SampleMeaning(stamp, data, offsets, countsPerForce, countsPerTorque);
      hide Decode, SampleOf, U32At, S32At;
    }

    method CheckIfDue(now: real, state: BusState)
      requires PollsKept()
      requires polls != [] ==> polls[|polls| - 1].time <= now
      modifies this`polls, this`lastDomain, this`lastMaster, this`lastSlave, this`haveDomain, this`haveMaster,
               this`haveSlave, this`stateCheckRequired, this`nextStateCheckTime
      ensures PollsKept() && Fresh(now)
      ensures polls == old(polls) + if CheckDue(old(polls), now) then [Poll(now, state)] else []
    {
      hide Spaced, Times;
      if stateCheckRequired || now >= nextStateCheckTime {
        CheckEthercatState(state);
        stateCheckRequired := false;
        nextStateCheckTime := now + 1.0;
        OneMorePoll(polls, Poll(now, state));
        polls := polls + [Poll(now, state)];
      }
    }

    /** The cache shows a check of this activation made less than a second before `now`. */
    ghost predicate Fresh(now: real)
      reads this`polls, this`lastDomain, this`lastMaster, this`lastSlave, this`haveDomain, this`haveMaster, this`haveSlave
    {
      && polls != []
      && polls[|polls| - 1].time <= now < polls[|polls| - 1].time + 1.0
      && Cached(polls[|polls| - 1].state)
    }

    method CheckEthercatState(state: BusState)
      modifies this`lastDomain, this`lastMaster, this`lastSlave, this`haveDomain, this`haveMaster, this`haveSlave
      ensures Cached(state)
      ensures var s := StateSnapshot();
              && s.haveDomain && s.haveMaster && s.haveSlave
              && s.workingCounter == state.domain.workingCounter && s.wcState == state.domain.wcState
              && s.slavesResponding == state.master.slavesResponding && s.alStates == state.master.alStates
              && s.linkUp == state.master.linkUp && s.online == state.slave.online
              && s.operational == state.slave.operational && s.slaveAlState == state.slave.alState
    {
      if !haveDomain || state.domain.workingCounter != lastDomain.workingCounter ||
         state.domain.wcState != lastDomain.wcState {
        lastDomain, haveDomain := state.domain, true;
      }
      if !haveMaster || state.master.slavesResponding != lastMaster.slavesResponding ||
         state.master.alStates != lastMaster.alStates || state.master.linkUp != lastMaster.linkUp {
        lastMaster, haveMaster := state.master, true;
      }
      if !haveSlave || state.slave.online != lastSlave.online ||
         state.slave.operational != lastSlave.operational || state.slave.alState != lastSlave.alState {
        lastSlave, haveSlave := state.slave, true;
      }
    }

    /** The SDO reads of the diagnostics worker. */
    method ReadDiagnosticReadings(uploads: DiagnosticUploads) returns (r: Result<RawReadings, Fault>)
      ensures r == if !master then Err(MasterNotRequested)
                   else if ReadingsIn(uploads).None? then Err(UploadFailed) else Ok(ReadingsIn(uploads).value)
      ensures r.Ok? <==> master && HasSize(uploads.voltage, 2) && HasSize(uploads.temperature, 2) && uploads.message.Some?
      ensures r.Ok? ==>
                var v, t, m := uploads.voltage.value, uploads.temperature.value, uploads.message.value;
                && r.value.voltage == (v[0] as int) + 256 * (v[1] as int)
                && -32768 <= r.value.temperature < 32768
                && r.value.temperature % 65536 == (t[0] as int) + 256 * (t[1] as int)
                && |r.value.message| <= |m| && (|r.value.message| < |m| ==> m[|r.value.message|] == 0)
                && forall i :: 0 <= i < |r.value.message| ==> m[i] != 0 && r.value.message[i] == m[i] as char
    {
      if !master { return Err(MasterNotRequested); }
      if !HasSize(uploads.voltage, 2) || !HasSize(uploads.temperature, 2) || uploads.message.None? {
        return Err(UploadFailed);
      }
      var voltage := U16At(uploads.voltage.value, 0);
      var temperature := Signed(U16At(uploads.temperature.value, 0), 0x1_0000);
      CleanStringMeaning(uploads.message.value);
      r := Ok(RawReadings(voltage, temperature, CleanString(uploads.message.value)));
    }
  }

  function SampleOf(stamp: Stamp, inputs: Inputs, force: real, torque: real): Sample
    requires |inputs.counts| == 6 && force > 0.0 && torque > 0.0
  {
    var c := inputs.counts;
    Sample(
      stamp,
      [c[0] as real / force, c[1] as real / force, c[2] as real / force],
      [c[3] as real / torque, c[4] as real / torque, c[5] as real / torque],
      inputs.statusCode, inputs.sampleCounter)
  }

  lemma SampleMeaning(stamp: Stamp, data: seq<uint8>, o: Offsets, force: real, torque: real)
    requires Placed(o, |data|) && force > 0.0 && torque > 0.0
    ensures var s := SampleOf(stamp, Decode(data, o), force, torque);
            && s.stamp == stamp && |s.force| == |s.torque| == 3
            && (forall k :: 0 <= k < 3 ==>
                  && s.force[k] == S32At(data, o.counts[k]) as real / force
                  && s.torque[k] == S32At(data, o.counts[k + 3]) as real / torque)
            && s.statusCode == U32At(data, o.statusCode) as bv32
            && s.sampleCounter == U32At(data, o.sampleCounter)
  {
    hide U32At, S32At;
    var c := Decode(data, o).counts;
    assert forall k :: 0 <= k < 6 ==> c[k] == S32At(data, o.counts[k]);
  }

  /** From the sensor to the sample: six signed counts, a status code and a counter, written
      at the registered places, come out as forces, torques, that code and that counter. */
  lemma EncodedIsSampled(
    stamp: Stamp, data: seq<uint8>, o: Offsets, counts: seq<Int32>, statusCode: uint32, counter: uint32,
    force: real, torque: real)
    requires Placed(o, |data|) && |counts| == 6 && InputsApart(o) && force > 0.0 && torque > 0.0
    ensures var s := SampleOf(stamp, Decode(Encoded(data, o, counts, statusCode, counter), o), force, torque);
            && s.force == [counts[0] as real / force, counts[1] as real / force, counts[2] as real / force]
            && s.torque == [counts[3] as real / torque, counts[4] as real / torque, counts[5] as real / torque]
            && s.statusCode == statusCode as bv32 && s.sampleCounter == counter && s.stamp == stamp
  {
    EncodedIsDecoded(data, o, counts, statusCode, counter);
    hide Decode, Encoded, Placed, InputsApart;
  }

  lemma SampleCarries(stamp: Stamp, inputs: Inputs, force: real, torque: real)
    requires |inputs.counts| == 6 && force > 0.0 && torque > 0.0
    ensures var s := SampleOf(stamp, inputs, force, torque);
            s.statusCode == inputs.statusCode && s.sampleCounter == inputs.sampleCounter
  {
  }

  function Times(polls: seq<Poll>): (ts: seq<real>)
    ensures |ts| == |polls| && forall i :: 0 <= i < |polls| ==> ts[i] == polls[i].time
  {
    seq(|polls|, i requires 0 <= i < |polls| => polls[i].time)
  }

  lemma OneMorePoll(polls: seq<Poll>, p: Poll)
    requires Spaced(Times(polls), 1.0)
    requires polls != [] ==> p.time - polls[|polls| - 1].time >= 1.0
    ensures Spaced(Times(polls + [p]), 1.0)
  {
    var ts := Times(polls + [p]);
    forall i | 0 < i < |ts|
      ensures ts[i] - ts[i - 1] >= 1.0
    {
      if i < |polls| {
        assert Times(polls)[i] - Times(polls)[i - 1] >= 1.0;
      }
    }
  }

  /** A state check is due at the first read of an activation and a second after the last. */
  predicate CheckDue(polls: seq<Poll>, now: real) {
    polls == [] || now >= polls[|polls| - 1].time + 1.0
  }

  /** With the first read of an activation, and then whenever a whole second has passed. */
  lemma CheckDueMeaning(polls: seq<Poll>, now: real)
    ensures CheckDue(polls, now) <==> polls != [] ==> now - polls[|polls| - 1].time >= 1.0
  {
  }

  // ---------------------------------------------------- how an activation fails

  function PdoFault(env: Startup): Option<Fault> {
    if !env.domain then Some(NoDomain)
    else if !env.slaveConfig then Some(NoSlaveConfig)
    else if !env.pdos then Some(PdosRejected)
    else if !env.entries then Some(EntriesRejected)
    else None
  }

  function CalibrationFault(env: Startup): Option<Fault> {
    var scales := ScalesIn(env.calibration);
    if scales.None? then Some(UploadFailed)
    else if scales.value.0 == 0 || scales.value.1 == 0 then Some(BadScale)
    else None
  }

  /** The first library call that fails decides. */
  ghost function PreparationFault(env: Startup, wanted: SlaveConfig): Option<Fault> {
    if !env.requested then Some(NoMaster)
    else if !env.info then Some(NoMasterInfo)
    else if NoMatch(wanted, env.ring) then Some(SlaveNotFound)
    else PdoFault(env)
  }

  ghost function StartupFault(env: Startup, wanted: SlaveConfig, readCalibration: bool): Option<Fault> {
    if PreparationFault(env, wanted).Some? then PreparationFault(env, wanted)
    else if !env.activated then Some(NotActivated)
    else if !env.processData then Some(NoProcessData)
    else if readCalibration then CalibrationFault(env)
    else None
  }

  /** Which call fails first, spelled out: the uploads come last, and a scale of 0 is the last
      thing that can be wrong. */
  lemma StartupFaultMeaning(env: Startup, wanted: SlaveConfig, readCalibration: bool)
    ensures var u := env.calibration;
            var uploaded := u.serial.Some? && u.partNumber.Some? && u.time.Some? &&
              u.force.Some? && |u.force.value| == 4 && u.torque.Some? && |u.torque.value| == 4;
            StartupFault(env, wanted, readCalibration) ==
            if !env.requested then Some(NoMaster)
            else if !env.info then Some(NoMasterInfo)
            else if forall i :: 0 <= i < |env.ring| ==> !Matches(wanted, env.ring, i) then Some(SlaveNotFound)
            else if !env.domain then Some(NoDomain)
            else if !env.slaveConfig then Some(NoSlaveConfig)
            else if !env.pdos then Some(PdosRejected)
            else if !env.entries then Some(EntriesRejected)
            else if !env.activated then Some(NotActivated)
            else if !env.processData then Some(NoProcessData)
            else if !readCalibration then None
            else if !uploaded then Some(UploadFailed)
            else if u.force.value == [0, 0, 0, 0] || u.torque.value == [0, 0, 0, 0] then Some(BadScale)
            else None
  {
    var u := env.calibration;
    if HasSize(u.force, 4) && HasSize(u.torque, 4) {
      LittleEndian(u.force.value, 0);
      LittleEndian(u.torque.value, 0);
    }
  }

  lemma OneMoreOp(base: Word, script: seq<BusOp>, op: BusOp)
    ensures Render(base, script + [op]) == Render(base, script) + FramesOf(base, op)
    ensures FramesOf(base, Open) == FramesOf(base, Read) == [Frame(base, ZERO)] && FramesOf(base, Close) == [Frame(ZERO, ZERO)]
    ensures WellScripted(script) && (op.Open? <==> !IsOpen(script)) ==> WellScripted(script + [op])
    ensures IsOpen(script + [op]) <==> !op.Close?
  {
    var now := script + [op];
    assert now[..|now| - 1] == script;
    assert forall i :: 0 <= i < |script| ==> now[..i] == script[..i];
  }
}
