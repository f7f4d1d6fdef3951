/** EtherCAT health: as the driver decides it, as text, and as the monitor derives it. */
module Health {
  import opened Machine
  import opened Text
  import opened EthercatDriver

  datatype KeyValue = KeyValue(key: string, value: string)

  datatype Status = Status(name: string, level: nat, message: string, values: seq<KeyValue>)

  datatype Snapshot = Snapshot(driverActive: bool, statusCode: bv32, sampleCounter: uint32, ethercat: EthercatState)

  const NO_ETHERCAT_STATE := EthercatState(false, 0, 0, false, 0, 0, false, false, false, false, 0)
  const NO_SNAPSHOT := Snapshot(false, 0, 0, NO_ETHERCAT_STATE)

  /** Before the first read and after a deactivation nothing is known. */
  lemma DefaultSnapshot()
    ensures var s := NO_SNAPSHOT;
            && !s.driverActive && s.statusCode == 0 && s.sampleCounter == 0
            && !s.ethercat.haveDomain && s.ethercat.workingCounter == 0 && s.ethercat.wcState == 0
            && !s.ethercat.haveMaster && s.ethercat.slavesResponding == 0 && s.ethercat.alStates == 0
            && !s.ethercat.linkUp && !s.ethercat.haveSlave && !s.ethercat.online && !s.ethercat.operational
            && s.ethercat.slaveAlState == 0
  {
  }

  // --------------------------------------------------------------- the driver

  predicate CommunicationOk(s: Snapshot) {
    && s.driverActive && s.ethercat.haveDomain && s.ethercat.haveMaster && s.ethercat.haveSlave
    && s.ethercat.linkUp && s.ethercat.slavesResponding > 0 && s.ethercat.online && s.ethercat.operational
  }

  function BoolText(b: bool): string {
    if b then "true" else "false"
  }

  function CommunicationValues(e: EthercatState): seq<KeyValue> {
    [ KeyValue("ethercat_domain_state_seen", BoolText(e.haveDomain)),
      KeyValue("ethercat_domain_working_counter", Decimal(e.workingCounter)),
      KeyValue("ethercat_domain_wc_state", Decimal(e.wcState)),
      KeyValue("ethercat_master_state_seen", BoolText(e.haveMaster)),
      KeyValue("ethercat_master_slaves_responding", Decimal(e.slavesResponding)),
      KeyValue("ethercat_master_al_states", Decimal(e.alStates)),
      KeyValue("ethercat_master_link_up", BoolText(e.linkUp)),
      KeyValue("ethercat_slave_state_seen", BoolText(e.haveSlave)),
      KeyValue("ethercat_slave_online", BoolText(e.online)),
      KeyValue("ethercat_slave_operational", BoolText(e.operational)),
      KeyValue("ethercat_slave_al_state", Decimal(e.slaveAlState)) ]
  }

  function CommunicationStatus(sensor: string, s: Snapshot): Status {
    Status(
      sensor + ": Axia80 EtherCAT communication",
      LevelCode(if !s.driverActive then STALE else if CommunicationOk(s) then OK else ERROR),
      if !s.driverActive then "driver is not active"
      else if CommunicationOk(s) then "EtherCAT communication OK" else "EtherCAT communication fault",
      CommunicationValues(s.ethercat))
  }

  /** The row, spelled out. */
  lemma CommunicationStatusMeaning(sensor: string, s: Snapshot)
    ensures var status := CommunicationStatus(sensor, s);
            var good := CommunicationOk(s);
            && status.name == sensor + ": Axia80 EtherCAT communication"
            && status.level == (if !s.driverActive then 3 else if good then 0 else 2)
            && status.message == (
                 if !s.driverActive then "driver is not active"
                 else if good then "EtherCAT communication OK" else "EtherCAT communication fault")
            && status.values == CommunicationValues(s.ethercat)
  {
    hide CommunicationOk, CommunicationValues;
  }

  /** Reading a published value back. */
  predicate ShowsFlag(items: seq<KeyValue>, key: string, b: bool) {
    FirstValue(items, key) == Some(if b then "true" else "false")
  }

  predicate ShowsCount(items: seq<KeyValue>, key: string, n: uint32) {
    FirstValue(items, key).Some? && ParseU32(FirstValue(items, key).value) == Ok(n)
  }

  /** Every field of the EtherCAT state can be read back under its key, whatever follows. */
  lemma ValuesReadBack(e: EthercatState, more: seq<KeyValue>)
    ensures var items := CommunicationValues(e) + more;
            && ShowsFlag(items, "ethercat_domain_state_seen", e.haveDomain)
            && ShowsCount(items, "ethercat_domain_working_counter", e.workingCounter)
            && ShowsCount(items, "ethercat_domain_wc_state", e.wcState)
            && ShowsFlag(items, "ethercat_master_state_seen", e.haveMaster)
            && ShowsCount(items, "ethercat_master_slaves_responding", e.slavesResponding)
            && ShowsCount(items, "ethercat_master_al_states", e.alStates)
            && ShowsFlag(items, "ethercat_master_link_up", e.linkUp)
            && ShowsFlag(items, "ethercat_slave_state_seen", e.haveSlave)
            && ShowsFlag(items, "ethercat_slave_online", e.online)
            && ShowsFlag(items, "ethercat_slave_operational", e.operational)
            && ShowsCount(items, "ethercat_slave_al_state", e.slaveAlState)
  {
    var v, items := CommunicationValues(e), CommunicationValues(e) + more;
    DriverKeys(e);
    AllKeys(e);
    hide CommunicationValues, FirstValue, ParseU32, Decimal;
    forall i | 0 <= i < 11
      ensures FirstValue(items, v[i].key) == Some(v[i].value)
    {
      assert forall j :: 0 <= j <= i ==> items[j] == v[j];
      FirstValueAt(items, v[i].key, i);
    }
    PrintersRoundTrip(e.workingCounter);
    PrintersRoundTrip(e.wcState);
    PrintersRoundTrip(e.slavesResponding);
    PrintersRoundTrip(e.alStates);
    PrintersRoundTrip(e.slaveAlState);
  }

  lemma AllKeys(e: EthercatState)
    ensures var v := CommunicationValues(e);
            && |v| == 11
            && v[0] == KeyValue("ethercat_domain_state_seen", BoolText(e.haveDomain))
            && v[1] == KeyValue("ethercat_domain_working_counter", Decimal(e.workingCounter))
            && v[2] == KeyValue("ethercat_domain_wc_state", Decimal(e.wcState))
            && v[3] == KeyValue("ethercat_master_state_seen", BoolText(e.haveMaster))
            && v[4] == KeyValue("ethercat_master_slaves_responding", Decimal(e.slavesResponding))
            && v[5] == KeyValue("ethercat_master_al_states", Decimal(e.alStates))
            && v[6] == KeyValue("ethercat_master_link_up", BoolText(e.linkUp))
            && v[7] == KeyValue("ethercat_slave_state_seen", BoolText(e.haveSlave))
            && v[8] == KeyValue("ethercat_slave_online", BoolText(e.online))
            && v[9] == KeyValue("ethercat_slave_operational", BoolText(e.operational))
            && v[10] == KeyValue("ethercat_slave_al_state", Decimal(e.slaveAlState))
  {
  }

  // -------------------------------------------------------------- the monitor

  /** The merged values of all rows: the first value of a key wins. */
  function FirstValue(items: seq<KeyValue>, key: string): Option<string> {
    if items == [] then None
    else if items[0].key == key then Some(items[0].value)
    else FirstValue(items[1..], key)
  }

  function Items(statuses: seq<Status>): seq<KeyValue> {
    if statuses == [] then [] else Items(statuses[..|statuses| - 1]) + statuses[|statuses| - 1].values
  }

  /** What Python's `strip` takes off: C's white space and the four separators. */
  predicate IsBlank(c: char) {
    IsSpace(c) || '\U{1c}' <= c <= '\U{1f}'
  }

  function Strip(s: string): string {
    if s != "" && IsBlank(s[0]) then Strip(s[1..])
    else if s != "" && IsBlank(s[|s| - 1]) then Strip(s[..|s| - 1])
    else s
  }

  function Lower(s: string): string {
    seq(|s|, i requires 0 <= i < |s| => if 'A' <= s[i] <= 'Z' then s[i] - 'A' + 'a' else s[i])
  }

  lemma BlankMeaning(c: char)
    ensures IsBlank(c) <==>
            || c == ' ' || c == '\t' || c == '\n' || c == '\U{0b}' || c == '\U{0c}' || c == '\r'
            || c == '\U{1c}' || c == '\U{1d}' || c == '\U{1e}' || c == '\U{1f}'
  {
    SpaceMeaning(c);
  }

  /** Blanks are taken off at both ends, and nothing else. */
  lemma {:induction false} StripMeaning(s: string) returns (before: string, after: string)
    ensures s == before + Strip(s) + after
    ensures forall i :: 0 <= i < |before| ==> IsBlank(before[i])
    ensures forall i :: 0 <= i < |after| ==> IsBlank(after[i])
    ensures Strip(s) != "" ==> !IsBlank(Strip(s)[0]) && !IsBlank(Strip(s)[|Strip(s)| - 1])
  {
    StripStep(s);
    hide IsBlank, Strip;
    if s != "" && IsBlank(s[0]) {
      var rest;
      rest, after := StripMeaning(s[1..]);
      before := [s[0]] + rest;
      PutBack([s[0]], rest, Strip(s), after, s);
    } else if s != "" && IsBlank(s[|s| - 1]) {
      var rest;
      before, rest := StripMeaning(s[..|s| - 1]);
      after := rest + [s[|s| - 1]];
      assert s == s[..|s| - 1] + [s[|s| - 1]];
      assert before + Strip(s) + after == before + Strip(s) + rest + [s[|s| - 1]];
    } else {
      before, after := "", "";
    }
  }

  lemma StripStep(s: string)
    ensures Strip(s) ==
            if s != "" && IsBlank(s[0]) then Strip(s[1..])
            else if s != "" && IsBlank(s[|s| - 1]) then Strip(s[..|s| - 1])
            else s
  {
    hide IsBlank;
  }

  lemma PutBack(first: string, rest: string, middle: string, after: string, s: string)
    requires |first| == 1 && s != "" && first == [s[0]] && s[1..] == rest + middle + after
    ensures s == first + rest + middle + after
  {
    assert s == [s[0]] + s[1..];
  }

  lemma LowerMeaning(s: string, i: nat)
    requires i < |s|
    ensures |Lower(s)| == |s|
    ensures if 'A' <= s[i] <= 'Z' then (Lower(s)[i] as int) == (s[i] as int) + 32 else Lower(s)[i] == s[i]
  {
  }

  function ParseFlag(value: Option<string>): Option<bool> {
    if value.None? then None
    else
      var text := Lower(Strip(value.value));
      if text in {"true", "1", "yes", "up", "online", "operational"} then Some(true)
      else if text in {"false", "0", "no", "down", "offline"} then Some(false)
      else None
  }

  /** The texts that mean true and false; letters of either case and blanks around them do not
      matter, and nothing else means anything. */
  lemma FlagTexts(text: string)
    ensures var t := Lower(Strip(text));
            && (ParseFlag(Some(text)) == Some(true) <==>
                t == "true" || t == "1" || t == "yes" || t == "up" || t == "online" || t == "operational")
            && (ParseFlag(Some(text)) == Some(false) <==> t == "false" || t == "0" || t == "no" || t == "down" || t == "offline")
    ensures ParseFlag(None) == None
  {
    hide Lower, Strip;
    var words := ["true", "1", "yes", "up", "online", "operational"];
    assert |words[0]| == 4 && |words[1]| == 1 && |words[2]| == 3 && |words[3]| == 2 && |words[4]| == 6 && |words[5]| == 11;
    assert "1"[0] == '1' && "0"[0] == '0' && "up"[0] == 'u' && "no"[0] == 'n' && "down"[0] == 'd' && "true"[0] == 't';
  }

  /** Python's floats, and its reading of text as a float (None where it raises), which is
      not part of this model. */
  datatype Float = Finite(value: real) | PositiveInfinity | NegativeInfinity | NotANumber

  type FloatText = string -> Option<Float>

  predicate Positive(f: Option<Float>) {
    f.Some? && (f.value == PositiveInfinity || (f.value.Finite? && f.value.value > 0.0))
  }

  lemma PositiveMeaning(f: Float)
    ensures Positive(Some(f)) <==> f == PositiveInfinity || (f.Finite? && f.value > 0.0)
    ensures !Positive(None)
  {
  }

  /** Python reads the decimal text of a 32-bit count as that number. */
  ghost predicate ReadsCounts(float: FloatText) {
    forall n: uint32 :: float(Decimal(n)) == Some(Finite(n as real))
  }

  /** One such reading of text. */
  function ReadDecimal(text: string): Option<Float> {
    if text != "" && AllDigits(text, 10) then Some(Finite(Value(text, 10) as real)) else None
  }

  lemma SomeReadingReadsCounts()
    ensures ReadsCounts(ReadDecimal)
  {
    forall n: uint32
      ensures ReadDecimal(Decimal(n)) == Some(Finite(n as real))
    {
      PrintReads(n, 10);
    }
  }

  function ParseNumber(value: Option<string>, float: FloatText): Option<Float> {
    float(Strip(if value.None? then "None" else value.value))
  }

  /** The monitor's own verdict from the merged values. */
  predicate DerivedOk(anyRow: bool, value: string -> Option<string>, float: FloatText) {
    && anyRow
    && ParseFlag(value("ethercat_master_link_up")) == Some(true)
    && Positive(ParseNumber(value("ethercat_master_slaves_responding"), float))
    && ParseFlag(value("ethercat_slave_online")) == Some(true)
    && ParseFlag(value("ethercat_slave_operational")) == Some(true)
  }

  /** What the monitor derives from one diagnostic message. */
  predicate Derived(statuses: seq<Status>, float: FloatText) {
    DerivedOk(statuses != [], key => FirstValue(Items(statuses), key), float)
  }

  /** Before any message, and after an empty one, the health is not good. */
  lemma NothingDerived(float: FloatText)
    ensures !Derived([], float)
  {
  }

  // ---------------------------------------------------------------- agreement

  lemma {:induction false} FirstValueAt(items: seq<KeyValue>, key: string, i: nat)
    requires i < |items| && items[i].key == key && forall j :: 0 <= j < i ==> items[j].key != key
    ensures FirstValue(items, key) == Some(items[i].value)
  {
    if i == 0 {
    } else {
      FirstValueAt(items[1..], key, i - 1);
    }
  }

  lemma {:induction false} FirstStatusFirst(first: Status, rest: seq<Status>)
    ensures first.values <= Items([first] + rest)
  {
    if rest == [] {
      assert [first] + rest == [first] && [first][..0] == [];
    } else {
      FirstStatusFirst(first, rest[..|rest| - 1]);
      var all := [first] + rest;
      assert all[..|all| - 1] == [first] + rest[..|rest| - 1];
    }
  }

  lemma FlagRoundTrip(b: bool)
    ensures ParseFlag(Some(BoolText(b))) == Some(b)
  {
    assert Lower("true") == "true" && Lower("false") == "false";
  }

  lemma CountRoundTrip(n: uint32, float: FloatText)
    requires ReadsCounts(float)
    ensures Positive(ParseNumber(Some(Decimal(n)), float)) <==> n > 0
  {
    PrintReads(n, 10);
    var s := Decimal(n);
    assert DigitValue(s[0]) < 10 && DigitValue(s[|s| - 1]) < 10;
    assert Strip(s) == s;
  }

  lemma DriverKeys(e: EthercatState)
    ensures var v := CommunicationValues(e);
            && v[4].key == "ethercat_master_slaves_responding" && v[6].key == "ethercat_master_link_up"
            && v[8].key == "ethercat_slave_online" && v[9].key == "ethercat_slave_operational"
            && (forall i, j :: 0 <= i < j < |v| ==> v[i].key != v[j].key)
  {
    var v := CommunicationValues(e);
    assert |v[0].key| == 26 && |v[1].key| == 31 && |v[2].key| == 24 && |v[3].key| == 26;
    assert |v[4].key| == 33 && |v[5].key| == 25 && |v[6].key| == 23 && |v[7].key| == 25;
    assert |v[8].key| == 21 && |v[9].key| == 26 && |v[10].key| == 23;
    assert v[0].key[9] == 'd' && v[3].key[9] == 'm' && v[9].key[9] == 's';
    assert v[5].key[9] == 'm' && v[7].key[9] == 's' && v[6].key[9] == 'm' && v[10].key[9] == 's';
  }

  /** Through the text and the first-wins merge the monitor sees exactly the driver's four
      conditions, whatever rows follow. */
  lemma MonitorSeesDriver(sensor: string, s: Snapshot, others: seq<Status>, float: FloatText)
    requires ReadsCounts(float)
    ensures Derived([CommunicationStatus(sensor, s)] + others, float) <==>
            s.ethercat.linkUp && s.ethercat.slavesResponding > 0 && s.ethercat.online && s.ethercat.operational
  {
    var e, first := s.ethercat, CommunicationStatus(sensor, s);
    var v, items := CommunicationValues(s.ethercat), Items([first] + others);
    FirstStatusFirst(first, others);
    DriverKeys(e);
    hide CommunicationValues, Items, FirstValue, ParseFlag, ParseNumber, Positive;
    assert forall i :: 0 <= i < |v| ==> items[i] == v[i];
    ValuesOf(e);
    FirstValueAt(items, "ethercat_master_link_up", 6);
    FirstValueAt(items, "ethercat_master_slaves_responding", 4);
    FirstValueAt(items, "ethercat_slave_online", 8);
    FirstValueAt(items, "ethercat_slave_operational", 9);
    FlagRoundTrip(e.linkUp);
    FlagRoundTrip(e.online);
    FlagRoundTrip(e.operational);
    CountRoundTrip(e.slavesResponding, float);
  }

  lemma ValuesOf(e: EthercatState)
    ensures var v := CommunicationValues(e);
            && |v| == 11
            && v[4].value == Decimal(e.slavesResponding) && v[6].value == BoolText(e.linkUp)
            && v[8].value == BoolText(e.online) && v[9].value == BoolText(e.operational)
  {
  }

  /** The monitor never reads `driver_active` or the seen flags, so it agrees with the driver
      exactly on the snapshots that have them all set, or on which it would find a fault. */
  lemma AgreementCondition(sensor: string, s: Snapshot, others: seq<Status>, float: FloatText)
    requires ReadsCounts(float)
    ensures (Derived([CommunicationStatus(sensor, s)] + others, float) <==> CommunicationOk(s)) <==>
            || (s.driverActive && s.ethercat.haveDomain && s.ethercat.haveMaster && s.ethercat.haveSlave)
            || !s.ethercat.linkUp || s.ethercat.slavesResponding == 0 || !s.ethercat.online || !s.ethercat.operational
  {
    MonitorSeesDriver(sensor, s, others, float);
  }

  /** A snapshot is either the default one, or taken after all three states were seen. */
  predicate DefaultOrPolled(s: Snapshot) {
    s == NO_SNAPSHOT ||
    (s.driverActive && s.ethercat.haveDomain && s.ethercat.haveMaster && s.ethercat.haveSlave)
  }

  /** On such snapshots driver and monitor always agree. */
  lemma AgreementOnPolled(sensor: string, s: Snapshot, others: seq<Status>, float: FloatText)
    requires ReadsCounts(float) && DefaultOrPolled(s)
    ensures Derived([CommunicationStatus(sensor, s)] + others, float) <==> CommunicationOk(s)
  {
    MonitorSeesDriver(sensor, s, others, float);
  }

  /** Whatever rows follow, and however Python reads other text: the monitor's verdict on a
      message that starts with the row `first` is `ok`. */
  ghost predicate MonitorConcludes(first: Status, ok: bool) {
    forall others: seq<Status>, float: FloatText {:trigger Derived([first] + others, float)} ::
      ReadsCounts(float) ==> (Derived([first] + others, float) <==> ok)
  }

  lemma MonitorAgrees(sensor: string, s: Snapshot)
    requires DefaultOrPolled(s)
    ensures MonitorConcludes(CommunicationStatus(sensor, s), CommunicationOk(s))
  {
    hide Derived, CommunicationStatus, CommunicationOk, DefaultOrPolled;
    forall others: seq<Status>, float: FloatText | ReadsCounts(float)
      ensures Derived([CommunicationStatus(sensor, s)] + others, float) <==> CommunicationOk(s)
    {
      AgreementOnPolled(sensor, s, others, float);
    }
  }

  /** As some reading of text does read counts, a message leads to one conclusion. */
  lemma ConclusionIsUnique(first: Status, a: bool, b: bool)
    requires MonitorConcludes(first, a) && MonitorConcludes(first, b)
    ensures a == b
  {
    hide Derived, ReadsCounts;
    SomeReadingReadsCounts();
    assert Derived([first] + [], ReadDecimal) <==> a;
    assert Derived([first] + [], ReadDecimal) <==> b;
  }

  /** Not on every snapshot: with a link but no state check the monitor would say OK. */
  lemma UnreachableDisagreement(sensor: string, float: FloatText)
    requires ReadsCounts(float)
    ensures var s := Snapshot(true, 0, 0, EthercatState(false, 0, 0, false, 1, 8, true, false, true, true, 8));
            Derived([CommunicationStatus(sensor, s)], float) && !CommunicationOk(s)
  {
    var s := Snapshot(true, 0, 0, EthercatState(false, 0, 0, false, 1, 8, true, false, true, true, 8));
    MonitorSeesDriver(sensor, s, [], float);
    assert [CommunicationStatus(sensor, s)] + [] == [CommunicationStatus(sensor, s)];
  }
}
