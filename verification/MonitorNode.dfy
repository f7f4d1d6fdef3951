/** The monitor: what it shows of the diagnostics, its checks and alerts, and its throttle. */
module MonitorNode {
  import opened Machine
  import opened Health
  import opened RateLimit
  import opened MonitorMessage
  import opened MonitorChecks

  datatype HealthItem = HealthItem(name: string, ok: bool)

  predicate AllOk(items: seq<HealthItem>) {
    forall i :: 0 <= i < |items| ==> items[i].ok
  }

  class Node {
    const wrenchPushRate: real
    const historySize: nat
    var rows: seq<Row>
    var values: map<string, string>
    var metrics: Metrics
    var healthOk: bool
    var healthItems: seq<HealthItem>
    var counterHistory: seq<CounterSample>
    var missing: seq<string>
    var checks: seq<Check>
    var alerts: seq<string>
    var lastBroadcast: real

    ghost var broadcasts: seq<real>

    ghost predicate Valid()
      reads this
    {
      && WellNamed(checks) && HasHardware(checks) && Coherent(checks, alerts)
      && Spaced(broadcasts, MinPeriod()) && |counterHistory| <= historySize
      && (broadcasts != [] ==> lastBroadcast == broadcasts[|broadcasts| - 1])
    }

    function MinPeriod(): real {
      1.0 / MaxReal(1.0, wrenchPushRate)
    }

    /** Construction ends with a first run of the checks. */
    constructor (rate: real, historySize: nat, first: Probe)
      ensures Valid() && broadcasts == [] && wrenchPushRate == rate && this.historySize == historySize
    {
      wrenchPushRate, this.historySize := rate, historySize;
      rows, values, metrics, healthOk, healthItems, counterHistory := [], map[], Metrics(None, None), false, [], [];
      missing, checks, alerts, lastBroadcast, broadcasts := EXPECTED_STATE_INTERFACES, [], [], 0.0, [];
      new;
      var made := BuildChecks(first);
      StoreChecks(made);
    }

    // ------------------------------------------------------------ diagnostics

    method OnDiagnostics(statuses: seq<Status>, time: real, float: FloatText)
      requires Valid()
      modifies this`rows, this`values, this`metrics, this`healthOk, this`healthItems, this`counterHistory
      ensures Valid() && |rows| == |statuses|
      ensures forall i :: 0 <= i < |rows| ==> Shows(rows[i], statuses[i])
      ensures Merged(values, Items(statuses))
      ensures healthOk <==> Derived(statuses, float)
      ensures healthOk <==> AllOk(healthItems)
      ensures var found := MetricsOf(Items(statuses));
              && metrics.temperature == (if found.temperature.Some? then found.temperature else old(metrics).temperature)
              && metrics.voltage == (if found.voltage.Some? then found.voltage else old(metrics).voltage)
      ensures var sample := SampleIn(statuses, time, float);
              counterHistory ==
              if sample.Some? then Recent(old(counterHistory) + [sample.value], historySize) else old(counterHistory)
    {
      hide FirstValue, Derived, DerivedOk, ParseFlag, ParseNumber, Positive, Merged, Coherent, WellNamed, HasHardware,
           Spaced, Overwritten, MetricsOf, CounterSampleOf, SampleIn, Recent;
      var newRows, flat, found := ReadStatuses(statuses);
      var ok, list := DeriveHealth(newRows != [], flat, float);
      var sample := CounterSampleOf(key => Lookup(flat, key), time, float);
      MergedDerives(flat, statuses, float);
      MergedSample(flat, statuses, time, float);
      rows, values, healthOk, healthItems := newRows, flat, ok, list;
      metrics := Metrics(
        if found.temperature.Some? then found.temperature else metrics.temperature,
        if found.voltage.Some? then found.voltage else metrics.voltage);
      if sample.Some? {
        counterHistory := Recent(counterHistory + [sample.value], historySize);
      }
    }

    method ReadStatuses(statuses: seq<Status>)
      returns (newRows: seq<Row>, flat: map<string, string>, found: Metrics)
      ensures |newRows| == |statuses| && forall i :: 0 <= i < |newRows| ==> Shows(newRows[i], statuses[i])
      ensures Merged(flat, Items(statuses)) && found == MetricsOf(Items(statuses))
    {
      hide FirstValue, Merged, Shows, MetricsOf, Overwritten;
      NothingMerged();
      newRows, flat, found := [], map[], MetricsOf([]);
      var i := 0;
      ghost var done: seq<KeyValue> := [];
      while i < |statuses|
        invariant 0 <= i <= |statuses| && |newRows| == i
        invariant forall j :: 0 <= j < i ==> Shows(newRows[j], statuses[j])
        invariant done == Items(statuses[..i]) && Merged(flat, done) && found == MetricsOf(done)
      {
        var row;
        row, flat, found := ReadStatus(statuses[i], flat, found, done);
        assert statuses[..i + 1][..i] == statuses[..i];
        done := done + statuses[i].values;
        newRows := newRows + [row];
        i := i + 1;
      }
      assert statuses[..i] == statuses;
    }

    /** One row: the message-wide dictionary keeps the first value of a key (`setdefault`),
        the row's own keeps the last. */
    method ReadStatus(status: Status, flat: map<string, string>, found: Metrics, ghost done: seq<KeyValue>)
      returns (row: Row, merged: map<string, string>, latest: Metrics)
      requires Merged(flat, done) && found == MetricsOf(done)
      ensures Shows(row, status)
      ensures Merged(merged, done + status.values) && latest == MetricsOf(done + status.values)
    {
      hide Merged, Overwritten, MetricsOf, IsTemperature, IsVoltage;
      NothingOverwritten();
      var items := status.values;
      var values: map<string, string> := map[];
      merged, latest := flat, found;
      var i := 0;
      assert done + items[..0] == done && items[..0] == [];
      while i < |items|
        invariant 0 <= i <= |items| && Overwritten(values, items[..i])
        invariant Merged(merged, done + items[..i]) && latest == MetricsOf(done + items[..i])
      {
        var item := items[i];
        OneMoreItem(merged, done + items[..i], item);
        OneMoreOverwrites(values, items[..i], item);
        OneMoreMetric(done + items[..i], item);
        assert items[..i] + [item] == items[..i + 1];
        assert done + items[..i] + [item] == done + items[..i + 1];
        values := values[item.key := item.value];
        if item.key !in merged {
          merged := merged[item.key := item.value];
        }
        if IsTemperature(item.key) {
          latest := latest.(temperature := Some(item.value));
        }
        if IsVoltage(item.key) {
          latest := latest.(voltage := Some(item.value));
        }
        i := i + 1;
      }
      assert items[..i] == items;
      row := Row(status.name, status.level, status.message, values);
    }

    method DeriveHealth(anyRow: bool, flat: map<string, string>, float: FloatText)
      returns (ok: bool, items: seq<HealthItem>)
      ensures ok <==> DerivedOk(anyRow, key => Lookup(flat, key), float)
      ensures ok <==> AllOk(items)
      ensures items == [
                HealthItem("driver_diagnostics", anyRow),
                HealthItem("master_link", ParseFlag(Lookup(flat, "ethercat_master_link_up")) == Some(true)),
                HealthItem(
                  "slaves_responding", Positive(ParseNumber(Lookup(flat, "ethercat_master_slaves_responding"), float))),
                HealthItem("slave_online", ParseFlag(Lookup(flat, "ethercat_slave_online")) == Some(true)),
                HealthItem("slave_operational", ParseFlag(Lookup(flat, "ethercat_slave_operational")) == Some(true))]
    {
      items := [HealthItem("driver_diagnostics", anyRow)];
      var linkUp := ParseFlag(Lookup(flat, "ethercat_master_link_up"));
      items := items + [HealthItem("master_link", linkUp == Some(true))];
      var slaves := ParseNumber(Lookup(flat, "ethercat_master_slaves_responding"), float);
      items := items + [HealthItem("slaves_responding", Positive(slaves))];
      var online := ParseFlag(Lookup(flat, "ethercat_slave_online"));
      items := items + [HealthItem("slave_online", online == Some(true))];
      var operational := ParseFlag(Lookup(flat, "ethercat_slave_operational"));
      items := items + [HealthItem("slave_operational", operational == Some(true))];
      assert items[0].ok == anyRow && items[1].ok == (linkUp == Some(true)) && items[2].ok == Positive(slaves);
      assert items[3].ok == (online == Some(true)) && items[4].ok == (operational == Some(true));
      ok := AllOk(items);
    }

    // ------------------------------------------------------- checks and alerts

    /** The checks of one run, from what it read. */
    method BuildChecks(probe: Probe) returns (made: seq<Check>)
      ensures WellNamed(made) && HasHardware(made)
      ensures |made| == |CHECK_NAMES| && made[..8] == FixedChecks(probe)
      ensures forall k :: 0 <= k < 4 ==> made[8 + k] == RowCheck(probe.rows, k)
    {
      hide RowCheck, FixedChecks, WellNamed, HasHardware;
      made := FixedChecks(probe);
      FixedNames(probe);
      var k := 0;
      while k < 4
        invariant 0 <= k <= 4 && |made| == 8 + k
        invariant made[..8] == FixedChecks(probe)
        invariant forall i :: 0 <= i < |made| ==> made[i].name == CHECK_NAMES[i]
        invariant forall j :: 0 <= j < k ==> made[8 + j] == RowCheck(probe.rows, j)
      {
        RowCheckMeaning(probe.rows, k);
        made := made + [RowCheck(probe.rows, k)];
        k := k + 1;
      }
      NamesMakeWellNamed(made);
    }

    /** A run of the checks with interface replies coming in on the other thread: one between
        its two reads of the missing list, one before it stores what it built. Checks and
        alerts stay coherent, but the hardware check shows the missing list in force exactly
        when both reads fit that list. */
    method RunChecks(probe: Probe, between: Reply, late: Reply)
      requires Valid()
      modifies this`missing, this`checks, this`alerts
      ensures Valid() && |checks| == |CHECK_NAMES|
      ensures missing == MissingAfter(MissingAfter(old(missing), between), late)
      ensures checks[6] == HardwareCheck(|missing|) <==> StoresTheListInForce(old(missing), between, late)
      ensures checks[7].ok == healthOk && forall k :: 0 <= k < 4 ==> checks[8 + k] == RowCheck(rows, k)
    {
      hide WellNamed, HasHardware, Coherent, Spaced, RowCheck, MissingCheck, HardwareCheck, MissingAfter;
      var none := |missing| == 0;
      OnInterfaces(between);
      var count := |missing|;
      var read := probe.(healthOk := healthOk, rows := rows, noneMissing := none, missingCount := count);
      var made := BuildChecks(read);
      OnInterfaces(late);
      StoreChecks(made);
      assert checks[6] == made[..8][6] == FixedChecks(read)[6];
      assert checks[7] == made[..8][7] == FixedChecks(read)[7];
      HardwareCheckShowsCount(none, count, |missing|);
    }

    /** The locked section that ends a run of the checks: both lists are replaced. */
    method StoreChecks(made: seq<Check>)
      requires WellNamed(made) && HasHardware(made)
      modifies this`checks, this`alerts
      ensures checks == made && alerts == AlertsOf(made) && Coherent(checks, alerts)
    {
      var list: seq<string> := [];
      var i := 0;
      while i < |made|
        invariant 0 <= i <= |made| && list == AlertsOf(made[..i])
      {
        assert made[..i + 1][..i] == made[..i];
        if !made[i].ok {
          list := list + [AlertOf(made[i])];
        }
        i := i + 1;
      }
      assert made[..i] == made;
      checks, alerts := made, list;
    }

    /** The locked section of a late reply: one check is replaced in place, and the alerts
        are patched instead of rebuilt. */
    method OnInterfaces(reply: Reply)
      requires Valid()
      modifies this`missing, this`checks, this`alerts
      ensures Valid() && missing == MissingAfter(old(missing), reply)
      ensures |checks| == |old(checks)|
      ensures forall i :: 0 <= i < |checks| ==>
                checks[i] == if reply.Some? && old(checks)[i].name == HARDWARE then HardwareCheck(|missing|) else old(checks)[i]
      ensures reply.None? ==> alerts == old(alerts)
    {
      hide Coherent, WellNamed, HasHardware, Spaced, HardwareCheck, PatchedAlerts, AvailableNames, Missing;
      if reply.None? { return; }
      var names := NamesIn(reply.value);
      var list := ListMissing(names);
      PatchCoherence(checks, alerts, |list|);
      PatchedStaysWellNamed(checks, |list|);
      missing := list;
      checks := Patched(checks, |list|);
      alerts := PatchedAlerts(alerts, |list|);
    }

    method NamesIn(interfaces: seq<Interface>) returns (names: set<string>)
      ensures names == AvailableNames(interfaces)
    {
      names := {};
      var i := 0;
      while i < |interfaces|
        invariant 0 <= i <= |interfaces|
        invariant names == AvailableNames(interfaces[..i])
      {
        var all, before := interfaces[..i + 1], interfaces[..i];
        assert AvailableNames(all) ==
               AvailableNames(before) + if interfaces[i].available then {interfaces[i].name} else {} by {
          assert all[i] == interfaces[i] && forall k :: 0 <= k < i ==> all[k] == before[k];
        }
        if interfaces[i].available {
          names := names + {interfaces[i].name};
        }
        i := i + 1;
      }
      assert interfaces[..i] == interfaces;
    }

    method ListMissing(names: set<string>) returns (list: seq<string>)
      ensures list == Missing(EXPECTED_STATE_INTERFACES, names)
    {
      hide EXPECTED_STATE_INTERFACES;
      list := [];
      var i := 0;
      var expected := EXPECTED_STATE_INTERFACES;
      while i < |expected|
        invariant 0 <= i <= |expected| && list == Missing(expected[..i], names)
      {
        assert expected[..i + 1][..i] == expected[..i];
        if expected[i] !in names {
          list := list + [expected[i]];
        }
        i := i + 1;
      }
      assert expected[..i] == expected;
    }

    /** The driver's own message, and then a run of the checks: the health check and the
        check of the communication row both show the driver's verdict. */
    method CheckDriverMessage(
      sensor: string, s: Snapshot, others: seq<Status>, time: real, float: FloatText, probe: Probe)
      requires Valid() && ReadsCounts(float) && DefaultOrPolled(s)
      modifies this
      ensures Valid() && |checks| == |CHECK_NAMES|
      ensures checks[7].ok == checks[8].ok == CommunicationOk(s)
    {
      hide Derived, Merged, WellNamed, HasHardware, Coherent, Spaced, RowCheck, MetricsOf, SampleIn, Recent, Shows,
           StoresTheListInForce, HardwareCheck, DefaultOrPolled, ReadsCounts, CommunicationOk, CommunicationStatus;
      var statuses := [CommunicationStatus(sensor, s)] + others;
      OnDiagnostics(statuses, time, float);
      TwoChecksAgree(sensor, s, others, float, rows);
      RunChecks(probe, None, None);
      assert checks[8] == checks[8 + 0] == RowCheck(rows, 0);
    }

    // ----------------------------------------------------------- the throttle

    /** Sends a wrench to the browsers unless the last one is too recent. */
    method ScheduleWrenchBroadcast(now: real, connected: bool) returns (sent: bool)
      requires Valid()
      modifies this`lastBroadcast, this`broadcasts
      ensures Valid()
      ensures sent <==> connected && now - old(lastBroadcast) >= 1.0 / if wrenchPushRate > 1.0 then wrenchPushRate else 1.0
      ensures broadcasts == old(broadcasts) + if sent then [now] else []
      ensures lastBroadcast == if sent then now else old(lastBroadcast)
    {
      if !connected { return false; }
      if now - lastBroadcast < 1.0 / MaxReal(1.0, wrenchPushRate) { return false; }
      lastBroadcast := now;
      broadcasts := broadcasts + [now];
      sent := true;
    }

    /** Any interval of `length` seconds holds at most length * max(1, rate) + 1 broadcasts. */
    lemma BroadcastsAreThrottled(from: real, length: real)
      requires Valid() && length >= 0.0
      ensures CountIn(broadcasts, from, from + length) as real <= length * MaxReal(1.0, wrenchPushRate) + 1.0
    {
      RateBound(broadcasts, MaxReal(1.0, wrenchPushRate), from, length);
    }
  }
}
