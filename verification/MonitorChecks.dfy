/** The monitor's checks and the alerts they raise. */
module MonitorChecks {
  import opened Machine
  import opened Text
  import opened Health
  import opened EthercatDriver
  import opened MonitorMessage

  datatype Check = Check(name: string, ok: bool, detail: string)

  const HARDWARE := "hardware_interfaces"

  datatype Interface = Interface(name: string, available: bool)

  /** The reply to a query of the interfaces; None where it failed. */
  type Reply = Option<seq<Interface>>

  const EXPECTED_STATE_INTERFACES: seq<string> := [
    "ati_axia80_m20/timestamp.sec", "ati_axia80_m20/timestamp.nanosec",
    "ati_axia80_m20/force.x", "ati_axia80_m20/force.y", "ati_axia80_m20/force.z",
    "ati_axia80_m20/torque.x", "ati_axia80_m20/torque.y", "ati_axia80_m20/torque.z",
    "ati_axia80_m20/status_code", "ati_axia80_m20/sample_counter"
  ]

  /** The names among `expected` that are not in `names`, in order. */
  function Missing(expected: seq<string>, names: set<string>): seq<string> {
    if expected == [] then []
    else
      var n := |expected| - 1;
      Missing(expected[..n], names) + if expected[n] in names then [] else [expected[n]]
  }

  function AvailableNames(interfaces: seq<Interface>): set<string> {
    set i | 0 <= i < |interfaces| && interfaces[i].available :: interfaces[i].name
  }

  /** The missing list once `reply` has come in. */
  function MissingAfter(missing: seq<string>, reply: Reply): seq<string> {
    if reply.None? then missing else Missing(EXPECTED_STATE_INTERFACES, AvailableNames(reply.value))
  }

  /** A name is missing exactly if it is expected and no available interface has it. */
  lemma {:induction false} MissingMeaning(expected: seq<string>, interfaces: seq<Interface>, name: string)
    ensures name in Missing(expected, AvailableNames(interfaces)) <==>
            && name in expected
            && forall i :: 0 <= i < |interfaces| && interfaces[i].available ==> interfaces[i].name != name
  {
    if expected == [] {
    } else {
      MissingMeaning(expected[..|expected| - 1], interfaces, name);
    }
  }

  function AlertOf(c: Check): string {
    c.name + ": " + c.detail
  }

  /** The alerts that a list of checks calls for. */
  function AlertsOf(checks: seq<Check>): seq<string> {
    if checks == [] then []
    else
      var c := checks[|checks| - 1];
      AlertsOf(checks[..|checks| - 1]) + if c.ok then [] else [AlertOf(c)]
  }

  /** The dictionary of checks: no name twice, no colon in a name. */
  predicate WellNamed(checks: seq<Check>) {
    && (forall i :: 0 <= i < |checks| ==> ':' !in checks[i].name)
    && (forall i, j :: 0 <= i < j < |checks| ==> checks[i].name != checks[j].name)
  }

  predicate HasHardware(checks: seq<Check>) {
    exists i :: 0 <= i < |checks| && checks[i].name == HARDWARE
  }

  /** The hardware check from two reads of the missing list: whether it is empty, and its
      length. */
  function MissingCheck(none: bool, count: nat): Check {
    Check(HARDWARE, none, "missing " + Decimal(count) + " expected state interfaces")
  }

  function HardwareCheck(missing: nat): Check {
    MissingCheck(missing == 0, missing)
  }

  predicate IsHardwareAlert(alert: string) {
    HARDWARE + ":" <= alert
  }

  function WithoutHardware(alerts: seq<string>): seq<string> {
    if alerts == [] then []
    else
      var a := alerts[|alerts| - 1];
      WithoutHardware(alerts[..|alerts| - 1]) + if IsHardwareAlert(a) then [] else [a]
  }

  /** Assigning the hardware entry of the dictionary, if there is one. */
  function Patched(checks: seq<Check>, absent: nat): (patched: seq<Check>)
    ensures |patched| == |checks|
    ensures forall i :: 0 <= i < |checks| ==>
              patched[i] == if checks[i].name == HARDWARE then HardwareCheck(absent) else checks[i]
  {
    seq(|checks|, i requires 0 <= i < |checks| => if checks[i].name == HARDWARE then HardwareCheck(absent) else checks[i])
  }

  function PatchedAlerts(alerts: seq<string>, absent: nat): seq<string> {
    WithoutHardware(alerts) + if absent != 0 then [AlertOf(HardwareCheck(absent))] else []
  }

  /** The alerts show the failing checks, and nothing else, in some order. */
  ghost predicate Coherent(checks: seq<Check>, alerts: seq<string>) {
    multiset(alerts) == multiset(AlertsOf(checks))
  }

  // ------------------------------------------------------------------ checks

  const CHECK_NAMES: seq<string> := [
    "set_bias_service", "clear_bias_service", "wrench_topic", "diagnostics_topic", "wrench_updating",
    "wrench_values_valid", "hardware_interfaces", "ethercat_health", "diagnostic_ethercat_communication",
    "diagnostic_sample_counter", "diagnostic_runtime_sdo", "diagnostic_sensor_status"
  ]

  const ROW_SUFFIXES: seq<string> := [
    "Axia80 EtherCAT communication", "Axia80 sample counter", "Axia80 runtime SDO diagnostics",
    "Axia80 sensor status code"
  ]

  /** What a run of the checks reads, each at its own moment: the ROS graph, the wrench, the
      health, the diagnostic rows, and twice the missing list. */
  datatype Probe = Probe(
    setBias: bool, setBiasDetail: string, clearBias: bool, clearBiasDetail: string,
    wrenchTopic: bool, wrenchTopicDetail: string, diagnosticsTopic: bool, diagnosticsTopicDetail: string,
    updating: bool, updatingDetail: string, valid: bool, healthOk: bool, healthSummary: string,
    rows: seq<Row>, noneMissing: bool, missingCount: nat)

  function FirstRow(rows: seq<Row>, suffix: string): Option<Row> {
    if rows == [] then None
    else if EndsWith(rows[0].name, suffix) then Some(rows[0])
    else FirstRow(rows[1..], suffix)
  }

  const NAME_LENGTHS: seq<nat> := [16, 18, 12, 17, 15, 19, 19, 15, 33, 25, 22, 24]

  /** The names differ in length or in their first letter. */
  lemma NamesAreDistinct()
    ensures forall i, j :: 0 <= i < j < |CHECK_NAMES| ==> CHECK_NAMES[i] != CHECK_NAMES[j]
  {
    NameLengths();
    FirstLetters();
    hide CHECK_NAMES;
    forall i, j | 0 <= i < j < 12
      ensures CHECK_NAMES[i] != CHECK_NAMES[j]
    {
      assert NAME_LENGTHS[i] != NAME_LENGTHS[j] || (i == 4 && j == 7) || (i == 5 && j == 6);
    }
  }

  lemma NameLengths()
    ensures |CHECK_NAMES| == 12 && forall i :: 0 <= i < 12 ==> |CHECK_NAMES[i]| == NAME_LENGTHS[i]
  {
  }

  lemma FirstLetters()
    ensures CHECK_NAMES[4][0] == CHECK_NAMES[5][0] == 'w'
    ensures CHECK_NAMES[7][0] == 'e' && CHECK_NAMES[6][0] == 'h'
  {
  }

  lemma NamesHaveNoColon()
    ensures forall i :: 0 <= i < |CHECK_NAMES| ==> ':' !in CHECK_NAMES[i]
  {
  }

  lemma NamesMakeWellNamed(checks: seq<Check>)
    requires |checks| == |CHECK_NAMES| && forall i :: 0 <= i < |checks| ==> checks[i].name == CHECK_NAMES[i]
    ensures WellNamed(checks) && HasHardware(checks)
  {
    NamesAreDistinct();
    NamesHaveNoColon();
    assert checks[6].name == HARDWARE;
  }

  function FixedChecks(probe: Probe): (checks: seq<Check>)
    ensures |checks| == 8
  {
    [ Check(CHECK_NAMES[0], probe.setBias, probe.setBiasDetail),
      Check(CHECK_NAMES[1], probe.clearBias, probe.clearBiasDetail),
      Check(CHECK_NAMES[2], probe.wrenchTopic, probe.wrenchTopicDetail),
      Check(CHECK_NAMES[3], probe.diagnosticsTopic, probe.diagnosticsTopicDetail),
      Check(CHECK_NAMES[4], probe.updating, probe.updatingDetail),
      Check(CHECK_NAMES[5], probe.valid, "force/torque finite numeric values"),
      MissingCheck(probe.noneMissing, probe.missingCount),
      Check(CHECK_NAMES[7], probe.healthOk, probe.healthSummary) ]
  }

  lemma FixedNames(probe: Probe)
    ensures forall i :: 0 <= i < 8 ==> FixedChecks(probe)[i].name == CHECK_NAMES[i]
  {
  }

  /** The eight checks, spelled out. */
  lemma FixedMeaning(probe: Probe)
    ensures var made := FixedChecks(probe);
            && made[0] == Check("set_bias_service", probe.setBias, probe.setBiasDetail)
            && made[1] == Check("clear_bias_service", probe.clearBias, probe.clearBiasDetail)
            && made[2] == Check("wrench_topic", probe.wrenchTopic, probe.wrenchTopicDetail)
            && made[3] == Check("diagnostics_topic", probe.diagnosticsTopic, probe.diagnosticsTopicDetail)
            && made[4] == Check("wrench_updating", probe.updating, probe.updatingDetail)
            && made[5] == Check("wrench_values_valid", probe.valid, "force/torque finite numeric values")
            && made[6] == Check(
                 "hardware_interfaces", probe.noneMissing,
                 "missing " + Decimal(probe.missingCount) + " expected state interfaces")
            && made[7] == Check("ethercat_health", probe.healthOk, probe.healthSummary)
  {
  }

  /** Which row each of the other four shows. */
  lemma RowNames()
    ensures CHECK_NAMES[8] == "diagnostic_ethercat_communication" && ROW_SUFFIXES[0] == "Axia80 EtherCAT communication"
    ensures CHECK_NAMES[9] == "diagnostic_sample_counter" && ROW_SUFFIXES[1] == "Axia80 sample counter"
    ensures CHECK_NAMES[10] == "diagnostic_runtime_sdo" && ROW_SUFFIXES[2] == "Axia80 runtime SDO diagnostics"
    ensures CHECK_NAMES[11] == "diagnostic_sensor_status" && ROW_SUFFIXES[3] == "Axia80 sensor status code"
  {
  }

  /** The check of the `k`th diagnostic row. */
  function RowCheck(rows: seq<Row>, k: nat): Check
    requires k < 4
  {
    var row := FirstRow(rows, ROW_SUFFIXES[k]);
    Check(
      CHECK_NAMES[8 + k], row.Some? && row.value.level == 0,
      if row.Some? then row.value.message else ROW_SUFFIXES[k] + " not reported")
  }

  lemma RowCheckMeaning(rows: seq<Row>, k: nat)
    requires k < 4
    ensures RowCheck(rows, k).name == CHECK_NAMES[8 + k]
    ensures RowCheck(rows, k).ok <==> RowReported(rows, ROW_SUFFIXES[k])
    ensures (forall i :: 0 <= i < |rows| ==> !EndsWith(rows[i].name, ROW_SUFFIXES[k])) ==>
              RowCheck(rows, k).detail == ROW_SUFFIXES[k] + " not reported"
    ensures forall i | 0 <= i < |rows| && EndsWith(rows[i].name, ROW_SUFFIXES[k]) ::
              (forall j :: 0 <= j < i ==> !EndsWith(rows[j].name, ROW_SUFFIXES[k])) ==>
              RowCheck(rows, k).detail == rows[i].message
  {
    FirstRowIsFirst(rows, ROW_SUFFIXES[k]);
  }

  /** The driver's own message: each diagnostic check passes exactly when its row, of the
      four that the driver sends, has level 0. */
  lemma ChecksShowLevels(sensor: string, rows: seq<Row>, k: nat)
    requires |rows| == 4 && forall j :: 0 <= j < 4 ==> rows[j].name == sensor + ": " + ROW_SUFFIXES[j]
    requires k < 4
    ensures RowCheck(rows, k) == Check(CHECK_NAMES[8 + k], rows[k].level == 0, rows[k].message)
  {
    forall j | 0 <= j < 4
      ensures EndsWith(rows[j].name, ROW_SUFFIXES[k]) <==> j == k
    {
      SuffixesDiffer(sensor + ": ", j, k);
    }
    hide EndsWith;
    FirstRowIsFirst(rows, ROW_SUFFIXES[k]);
    assert EndsWith(rows[k].name, ROW_SUFFIXES[k]);
  }

  /** After the driver's own message has been read, two checks show its verdict: the health
      derived from the values, and the row's own level. */
  lemma TwoChecksAgree(
    sensor: string, s: Snapshot, others: seq<Status>, float: FloatText, rows: seq<Row>)
    requires ReadsCounts(float) && DefaultOrPolled(s)
    requires var statuses := [CommunicationStatus(sensor, s)] + others;
             |rows| == |statuses| && forall i :: 0 <= i < |rows| ==> Shows(rows[i], statuses[i])
    ensures Derived([CommunicationStatus(sensor, s)] + others, float) <==> CommunicationOk(s)
    ensures RowCheck(rows, 0).ok <==> CommunicationOk(s)
  {
    hide Derived, CommunicationOk, CommunicationStatus, DefaultOrPolled, ReadsCounts, RowCheck, EndsWith, ROW_SUFFIXES;
    AgreementOnPolled(sensor, s, others, float);
    DriverRow(sensor, s);
    assert Shows(rows[0], ([CommunicationStatus(sensor, s)] + others)[0]);
    FirstRowShown(rows);
  }

  lemma DriverRow(sensor: string, s: Snapshot)
    ensures EndsWith(CommunicationStatus(sensor, s).name, ROW_SUFFIXES[0])
    ensures CommunicationStatus(sensor, s).level == 0 <==> CommunicationOk(s)
  {
    CommunicationStatusMeaning(sensor, s);
    InactiveIsNotGood(s);
    DriverRowName(sensor);
    SuffixesDiffer(sensor + ": ", 0, 0);
    hide EndsWith, CommunicationStatus, CommunicationOk, ROW_SUFFIXES;
  }

  lemma InactiveIsNotGood(s: Snapshot)
    ensures CommunicationOk(s) ==> s.driverActive
  {
  }

  lemma DriverRowName(sensor: string)
    ensures sensor + ": Axia80 EtherCAT communication" == sensor + ": " + ROW_SUFFIXES[0]
  {
    assert ": Axia80 EtherCAT communication" == ": " + "Axia80 EtherCAT communication";
    assert sensor + (": " + ROW_SUFFIXES[0]) == sensor + ": " + ROW_SUFFIXES[0];
  }

  lemma FirstRowShown(rows: seq<Row>)
    requires rows != [] && EndsWith(rows[0].name, ROW_SUFFIXES[0])
    ensures RowCheck(rows, 0).ok <==> rows[0].level == 0
  {
    hide EndsWith, ROW_SUFFIXES;
  }

  lemma SuffixesDiffer(prefix: string, j: nat, k: nat)
    requires j < 4 && k < 4
    ensures EndsWith(prefix + ROW_SUFFIXES[j], ROW_SUFFIXES[k]) <==> j == k
  {
    var name, suffix := prefix + ROW_SUFFIXES[j], ROW_SUFFIXES[k];
    LastLetters();
    EndsAlike(name, suffix);
    if j == k {
      assert name[|name| - |suffix|..] == suffix;
    } else {
      assert name[|name| - 1] == "nrse"[j];
    }
  }

  lemma LastLetters()
    ensures forall j :: 0 <= j < 4 ==> |ROW_SUFFIXES[j]| > 0 && ROW_SUFFIXES[j][|ROW_SUFFIXES[j]| - 1] == "nrse"[j]
  {
    assert |ROW_SUFFIXES[0]| == 29 && |ROW_SUFFIXES[1]| == 21 && |ROW_SUFFIXES[2]| == 30 && |ROW_SUFFIXES[3]| == 25;
  }

  /** The first row whose name ends so has level 0. */
  predicate RowReported(rows: seq<Row>, suffix: string) {
    exists i :: 0 <= i < |rows| && EndsWith(rows[i].name, suffix) && rows[i].level == 0 &&
      forall j :: 0 <= j < i ==> !EndsWith(rows[j].name, suffix)
  }

  lemma {:induction false} FirstRowIsFirst(rows: seq<Row>, suffix: string)
    ensures FirstRow(rows, suffix).None? ==> forall i :: 0 <= i < |rows| ==> !EndsWith(rows[i].name, suffix)
    ensures FirstRow(rows, suffix).Some? ==>
              exists i :: 0 <= i < |rows| && rows[i] == FirstRow(rows, suffix).value && EndsWith(rows[i].name, suffix) &&
                forall j :: 0 <= j < i ==> !EndsWith(rows[j].name, suffix)
  {
    hide EndsWith;
    if rows == [] || EndsWith(rows[0].name, suffix) {
    } else {
      FirstRowIsFirst(rows[1..], suffix);
      if FirstRow(rows, suffix).Some? {
        var i :| 0 <= i < |rows[1..]| && rows[1..][i] == FirstRow(rows[1..], suffix).value &&
          EndsWith(rows[1..][i].name, suffix) && forall j :: 0 <= j < i ==> !EndsWith(rows[1..][j].name, suffix);
        assert rows[i + 1] == rows[1..][i];
        forall j | 0 <= j < i + 1
          ensures !EndsWith(rows[j].name, suffix)
        {
          assert j > 0 ==> rows[j] == rows[1..][j - 1];
        }
      }
    }
  }

  // ----------------------------------------------------- coherence of alerts

  lemma HardwareAlertNamesHardware(c: Check)
    requires ':' !in c.name
    ensures IsHardwareAlert(AlertOf(c)) <==> c.name == HARDWARE
  {
    var a, prefix := AlertOf(c), HARDWARE + ":";
    assert a[|c.name|] == ':' && a[..|c.name|] == c.name;
    assert ':' !in HARDWARE;
    if prefix <= a {
      assert a[|HARDWARE|] == ':' && a[..|HARDWARE|] == HARDWARE;
      assert forall i :: 0 <= i < |c.name| ==> a[i] == c.name[i];
      assert forall i :: 0 <= i < |HARDWARE| ==> a[i] == HARDWARE[i];
      assert |c.name| == |HARDWARE|;
    }
  }

  lemma {:induction false} FilterCounts(alerts: seq<string>, a: string)
    ensures multiset(WithoutHardware(alerts))[a] == if IsHardwareAlert(a) then 0 else multiset(alerts)[a]
  {
    if alerts == [] {
    } else {
      FilterCounts(alerts[..|alerts| - 1], a);
      assert alerts == alerts[..|alerts| - 1] + [alerts[|alerts| - 1]];
    }
  }

  lemma FilterRespectsMultisets(s: seq<string>, t: seq<string>)
    requires multiset(s) == multiset(t)
    ensures multiset(WithoutHardware(s)) == multiset(WithoutHardware(t))
  {
    forall a: string
      ensures multiset(WithoutHardware(s))[a] == multiset(WithoutHardware(t))[a]
    {
      FilterCounts(s, a);
      FilterCounts(t, a);
    }
  }

  lemma {:induction false} AlertsAppend(a: seq<Check>, b: seq<Check>)
    ensures AlertsOf(a + b) == AlertsOf(a) + AlertsOf(b)
  {
    if b == [] {
      assert a + b == a;
    } else {
      AlertsAppend(a, b[..|b| - 1]);
      assert (a + b)[..|a + b| - 1] == a + b[..|b| - 1];
    }
  }

  lemma {:induction false} FilterAppend(a: seq<string>, b: seq<string>)
    ensures WithoutHardware(a + b) == WithoutHardware(a) + WithoutHardware(b)
  {
    hide IsHardwareAlert;
    if b == [] {
      assert a + b == a;
    } else {
      FilterAppend(a, b[..|b| - 1]);
      assert (a + b)[..|a + b| - 1] == a + b[..|b| - 1];
    }
  }

  lemma WithoutLast(alerts: seq<string>, a: string)
    ensures WithoutHardware(alerts + [a]) == WithoutHardware(alerts) + if IsHardwareAlert(a) then [] else [a]
  {
    assert (alerts + [a])[..|alerts|] == alerts;
  }

  /** There is one alert, "name: detail", for each failing check, in their order. */
  lemma {:induction false} AlertsMeaning(checks: seq<Check>) returns (failing: seq<nat>)
    ensures forall i :: 0 <= i < |checks| ==> (!checks[i].ok <==> i in failing)
    ensures forall j, k :: 0 <= j < k < |failing| ==> failing[j] < failing[k]
    ensures |AlertsOf(checks)| == |failing|
    ensures forall k :: 0 <= k < |failing| ==>
              failing[k] < |checks| &&
              AlertsOf(checks)[k] == checks[failing[k]].name + ": " + checks[failing[k]].detail
  {
    if checks == [] {
      failing := [];
    } else {
      var n := |checks| - 1;
      failing := AlertsMeaning(checks[..n]);
      if !checks[n].ok {
        failing := failing + [n];
      }
    }
  }

  /** Other checks raise no alert that the patch would drop. */
  lemma {:induction false} OthersAreKept(checks: seq<Check>)
    requires Others(checks)
    ensures WithoutHardware(AlertsOf(checks)) == AlertsOf(checks)
  {
    hide AlertOf, IsHardwareAlert;
    if checks == [] {
    } else {
      var before, c := AlertsOf(checks[..|checks| - 1]), checks[|checks| - 1];
      OthersAreKept(checks[..|checks| - 1]);
      HardwareAlertNamesHardware(c);
      WithoutLast(before, AlertOf(c));
      assert AlertsOf(checks) == if c.ok then before else before + [AlertOf(c)];
    }
  }

  lemma AlertsOfOne(c: Check)
    requires c.name == HARDWARE
    ensures AlertsOf([c]) == if c.ok then [] else [AlertOf(c)]
    ensures WithoutHardware(AlertsOf([c])) == []
  {
    assert [c][..0] == [];
    assert ':' !in HARDWARE;
    HardwareAlertNamesHardware(c);
    WithoutLast([], AlertOf(c));
    assert [] + [AlertOf(c)] == [AlertOf(c)];
  }

  lemma AlertsOfPatched(checks: seq<Check>, absent: nat)
    requires WellNamed(checks)
    ensures multiset(AlertsOf(Patched(checks, absent))) ==
            multiset(WithoutHardware(AlertsOf(checks))) +
            if HasHardware(checks) && absent != 0 then multiset{AlertOf(HardwareCheck(absent))} else multiset{}
  {
    if k :| 0 <= k < |checks| && checks[k].name == HARDWARE {
      hide AlertOf, HardwareCheck, WithoutHardware, AlertsOf, Others, WellNamed, Patched;
      IsPatchedCheck(absent);
      SplitAtHardware(checks, k, absent);
      AroundHardware(checks[..k], checks[k], checks[k + 1..]);
      AroundHardware(checks[..k], HardwareCheck(absent), checks[k + 1..]);
    } else {
      OthersAreKept(checks);
      assert Patched(checks, absent) == checks;
    }
  }

  lemma SplitAtHardware(checks: seq<Check>, k: nat, absent: nat)
    requires WellNamed(checks) && k < |checks| && checks[k].name == HARDWARE
    ensures Others(checks[..k]) && Others(checks[k + 1..])
    ensures checks == checks[..k] + [checks[k]] + checks[k + 1..]
    ensures Patched(checks, absent) == checks[..k] + [HardwareCheck(absent)] + checks[k + 1..]
  {
  }

  lemma IsPatchedCheck(absent: nat)
    ensures HardwareCheck(absent).name == HARDWARE && (HardwareCheck(absent).ok <==> absent == 0)
  {
  }

  predicate Others(checks: seq<Check>) {
    forall i :: 0 <= i < |checks| ==> ':' !in checks[i].name && checks[i].name != HARDWARE
  }

  /** The alerts of a list with the hardware check `c` in it. */
  lemma AroundHardware(pre: seq<Check>, c: Check, post: seq<Check>)
    requires c.name == HARDWARE && Others(pre) && Others(post)
    ensures var alerts := AlertsOf(pre + [c] + post);
            && WithoutHardware(alerts) == AlertsOf(pre) + AlertsOf(post)
            && multiset(alerts) == multiset(AlertsOf(pre) + AlertsOf(post)) + if c.ok then multiset{} else multiset{AlertOf(c)}
  {
    hide AlertOf, WithoutHardware, IsHardwareAlert, AlertsOf, Others;
    var a, b, d := AlertsOf(pre), AlertsOf([c]), AlertsOf(post);
    AlertsAppend(pre + [c], post);
    AlertsAppend(pre, [c]);
    AlertsOfOne(c);
    Interleave(a, b, d);
    assert WithoutHardware(a + b + d) == a + d by {
      FilterAppend(a + b, d);
      FilterAppend(a, b);
      OthersAreKept(pre);
      OthersAreKept(post);
      assert a + [] + d == a + d;
    }
  }

  lemma Interleave(a: seq<string>, b: seq<string>, c: seq<string>)
    ensures multiset(a + b + c) == multiset(a + c) + multiset(b)
  {
  }

  /** Whether a run of the checks stores a hardware check that shows the missing list then in
      force, if `between` comes in between its two reads of the list and `late` before the
      store. */
  predicate StoresTheListInForce(missing: seq<string>, between: Reply, late: Reply) {
    var second := MissingAfter(missing, between);
    var inForce := MissingAfter(second, late);
    (missing == [] <==> inForce == []) && |second| == |inForce|
  }

  /** Not always: a first reply, with everything available, that comes in just before the
      store is shown as if everything were missing. */
  lemma LateReplyIsNotShown()
    ensures var all := Some(seq(10, i requires 0 <= i < 10 => Interface(EXPECTED_STATE_INTERFACES[i], true)));
            && MissingAfter(EXPECTED_STATE_INTERFACES, all) == []
            && !StoresTheListInForce(EXPECTED_STATE_INTERFACES, None, all)
  {
    var list := seq(10, i requires 0 <= i < 10 => Interface(EXPECTED_STATE_INTERFACES[i], true));
    var missing := Missing(EXPECTED_STATE_INTERFACES, AvailableNames(list));
    assert |EXPECTED_STATE_INTERFACES| == 10;
    hide EXPECTED_STATE_INTERFACES, AvailableNames, Missing;
    forall name
      ensures name !in missing
    {
      MissingMeaning(EXPECTED_STATE_INTERFACES, list, name);
      if i :| 0 <= i < 10 && EXPECTED_STATE_INTERFACES[i] == name {
        assert list[i].available && list[i].name == name;
      }
    }
    OnlyNothingHasNoMember(missing);
  }

  lemma OnlyNothingHasNoMember(s: seq<string>)
    ensures (forall x :: x !in s) ==> s == []
  {
    if s != [] {
      assert s[0] in s;
    }
  }

  /** A check made of two reads is the one due for a count exactly when both reads fit it:
      the detail text shows the count. */
  lemma HardwareCheckShowsCount(none: bool, count: nat, inForce: nat)
    ensures MissingCheck(none, count) == HardwareCheck(inForce) <==> (none <==> inForce == 0) && count == inForce
  {
    var a, b := Decimal(count), Decimal(inForce);
    PrintReads(count, 10);
    PrintReads(inForce, 10);
    if MissingCheck(none, count) == HardwareCheck(inForce) {
      var text, tail := MissingCheck(none, count).detail, " expected state interfaces";
      assert text == "missing " + a + tail && text == "missing " + b + tail;
      assert |a| == |b|;
      assert text[8..8 + |a|] == a && text[8..8 + |b|] == b;
    }
  }

  lemma PatchedStaysWellNamed(checks: seq<Check>, absent: nat)
    requires WellNamed(checks)
    ensures WellNamed(Patched(checks, absent)) && (HasHardware(Patched(checks, absent)) <==> HasHardware(checks))
  {
    assert forall i :: 0 <= i < |checks| ==> Patched(checks, absent)[i].name == checks[i].name;
  }

  /** Patching in place keeps checks and alerts coherent exactly when the hardware entry is
      there to be replaced, or nothing is missing. */
  lemma PatchCoherence(checks: seq<Check>, alerts: seq<string>, absent: nat)
    requires WellNamed(checks) && Coherent(checks, alerts)
    ensures Coherent(Patched(checks, absent), PatchedAlerts(alerts, absent)) <==> HasHardware(checks) || absent == 0
  {
    AlertsOfPatched(checks, absent);
    FilterRespectsMultisets(alerts, AlertsOf(checks));
    var kept := multiset(WithoutHardware(alerts));
    if absent != 0 {
      assert multiset(PatchedAlerts(alerts, absent)) == kept + multiset{AlertOf(HardwareCheck(absent))};
      assert |kept + multiset{AlertOf(HardwareCheck(absent))}| == |kept| + 1;
    } else {
      assert PatchedAlerts(alerts, absent) == WithoutHardware(alerts);
    }
  }
}
