/** What the monitor keeps of a diagnostic message. */
module MonitorMessage {
  import opened Machine
  import opened Text
  import opened Health

  datatype Row = Row(name: string, level: nat, message: string, values: map<string, string>)

  /** What a row keeps of a status. */
  ghost predicate Shows(row: Row, status: Status) {
    && row.name == status.name && row.level == status.level && row.message == status.message
    && Overwritten(row.values, status.values)
  }

  function Lookup(flat: map<string, string>, key: string): Option<string> {
    if key in flat then Some(flat[key]) else None
  }

  /** The dictionary holds, for each key, the first value that was reported. */
  ghost predicate Merged(flat: map<string, string>, items: seq<KeyValue>) {
    forall key :: Lookup(flat, key) == FirstValue(items, key)
  }

  lemma {:induction false} FirstValueAppends(items: seq<KeyValue>, item: KeyValue, key: string)
    ensures FirstValue(items + [item], key) ==
            if FirstValue(items, key).Some? then FirstValue(items, key)
            else if item.key == key then Some(item.value) else None
  {
    if items == [] {
      assert items + [item] == [item];
    } else {
      FirstValueAppends(items[1..], item, key);
      assert (items + [item])[1..] == items[1..] + [item];
    }
  }

  lemma NothingMerged()
    ensures Merged(map[], [])
  {
  }

  lemma OneMoreItem(flat: map<string, string>, items: seq<KeyValue>, item: KeyValue)
    requires Merged(flat, items)
    ensures Merged(if item.key in flat then flat else flat[item.key := item.value], items + [item])
  {
    forall key
      ensures Lookup(if item.key in flat then flat else flat[item.key := item.value], key) ==
              FirstValue(items + [item], key)
    {
      FirstValueAppends(items, item, key);
      assert Lookup(flat, key) == FirstValue(items, key);
      assert Lookup(flat, item.key) == FirstValue(items, item.key);
    }
  }

  /** The value last given to a key. */
  function LastValue(items: seq<KeyValue>, key: string): Option<string> {
    if items == [] then None
    else
      var last := items[|items| - 1];
      if last.key == key then Some(last.value) else LastValue(items[..|items| - 1], key)
  }

  /** The dictionary holds, for each key, the last value. */
  ghost predicate Overwritten(values: map<string, string>, items: seq<KeyValue>) {
    forall key :: Lookup(values, key) == LastValue(items, key)
  }

  lemma NothingOverwritten()
    ensures Overwritten(map[], [])
  {
  }

  lemma OneMoreOverwrites(values: map<string, string>, items: seq<KeyValue>, item: KeyValue)
    requires Overwritten(values, items)
    ensures Overwritten(values[item.key := item.value], items + [item])
  {
    assert (items + [item])[..|items|] == items;
    forall key
      ensures Lookup(values[item.key := item.value], key) == LastValue(items + [item], key)
    {
      assert Lookup(values, key) == LastValue(items, key);
    }
  }

  predicate Contains(s: string, part: string) {
    exists i :: 0 <= i <= |s| && part <= s[i..]
  }

  predicate IsTemperature(key: string) {
    var k := Lower(key);
    Contains(k, "temperature") || k == "temp" || EndsWith(k, ".temp")
  }

  predicate IsVoltage(key: string) {
    var k := Lower(key);
    Contains(k, "voltage") || Contains(k, "volt")
  }

  const TEMPERATURE_KEY := "gage_temperature_c"
  const VOLTAGE_KEY := "supply_voltage_v"

  /** Of the driver's own keys, each metric means its own. */
  lemma MetricKeys()
    ensures IsTemperature(TEMPERATURE_KEY) && !IsVoltage(TEMPERATURE_KEY)
    ensures IsVoltage(VOLTAGE_KEY) && !IsTemperature(VOLTAGE_KEY)
  {
    hide Lower, Contains, EndsWith, TEMPERATURE_KEY, VOLTAGE_KEY;
    LettersOfKeys();
    LowerKeeps(TEMPERATURE_KEY);
    LowerKeeps(VOLTAGE_KEY);
    PartsOfKeys();
    ContainsMiddle("gage_", "temperature", "_c");
    ContainsMiddle("supply_", "voltage", "_v");
    HasNo(TEMPERATURE_KEY, "voltage", 0);
    HasNo(TEMPERATURE_KEY, "volt", 0);
    HasNo(VOLTAGE_KEY, "temperature", 2);
    EndsAlike(VOLTAGE_KEY, ".temp");
  }

  lemma PartsOfKeys()
    ensures TEMPERATURE_KEY == "gage_" + "temperature" + "_c" && VOLTAGE_KEY == "supply_" + "voltage" + "_v"
  {
  }

  lemma LettersOfKeys()
    ensures forall i :: 0 <= i < |TEMPERATURE_KEY| ==> TEMPERATURE_KEY[i] != 'v' && !('A' <= TEMPERATURE_KEY[i] <= 'Z')
    ensures forall i :: 0 <= i < |VOLTAGE_KEY| ==> VOLTAGE_KEY[i] != 'm' && !('A' <= VOLTAGE_KEY[i] <= 'Z')
    ensures |VOLTAGE_KEY| == 16 && VOLTAGE_KEY[15] == 'v'
  {
  }

  lemma LowerKeeps(s: string)
    requires forall i :: 0 <= i < |s| ==> !('A' <= s[i] <= 'Z')
    ensures Lower(s) == s
  {
  }

  lemma ContainsMiddle(a: string, part: string, b: string)
    ensures Contains(a + part + b, part)
  {
    assert (a + part + b)[|a|..] == part + b;
  }

  lemma HasNo(s: string, part: string, at: nat)
    requires at < |part| && forall i :: 0 <= i < |s| ==> s[i] != part[at]
    ensures !Contains(s, part)
  {
    if Contains(s, part) {
      HasAll(s, part, at);
    }
  }

  lemma HasAll(s: string, part: string, at: nat)
    requires Contains(s, part) && at < |part|
    ensures exists i :: 0 <= i < |s| && s[i] == part[at]
  {
    var i :| 0 <= i <= |s| && part <= s[i..];
    assert s[i + at] == s[i..][at] == part[at];
  }

  datatype Metrics = Metrics(temperature: Option<string>, voltage: Option<string>)

  /** The last value whose key is of the kind. */
  function LastOfKind(kind: string -> bool, items: seq<KeyValue>): Option<string> {
    if items == [] then None
    else
      var last := items[|items| - 1];
      if kind(last.key) then Some(last.value) else LastOfKind(kind, items[..|items| - 1])
  }

  function MetricsOf(items: seq<KeyValue>): Metrics {
    Metrics(LastOfKind(IsTemperature, items), LastOfKind(IsVoltage, items))
  }

  lemma OneMoreMetric(items: seq<KeyValue>, item: KeyValue)
    ensures MetricsOf(items + [item]) ==
            Metrics(if IsTemperature(item.key) then Some(item.value) else MetricsOf(items).temperature,
                    if IsVoltage(item.key) then Some(item.value) else MetricsOf(items).voltage)
  {
    hide IsTemperature, IsVoltage;
    assert (items + [item])[..|items|] == items;
  }

  /** A bounded queue: of what was appended, only the last `size` entries stay. */
  function Recent<T>(s: seq<T>, size: nat): (r: seq<T>)
    ensures |r| <= size && |r| <= |s| && r == s[|s| - |r|..]
  {
    if |s| <= size then s else s[|s| - size..]
  }

  /** A full queue drops its oldest entry for the new one, which comes last. */
  lemma RecentMeaning<T>(s: seq<T>, x: T, size: nat)
    requires |s| <= size
    ensures Recent(s + [x], size) ==
            if size == 0 then [] else if |s| < size then s + [x] else s[1..] + [x]
  {
  }

  datatype CounterSample = CounterSample(
    time: real, repeats: Option<Float>, jumps: Option<Float>, skipped: Option<Float>,
    expectedRepeats: Option<Float>, expectedSkipped: Option<Float>, expectedJumps: Option<Float>)

  const RATE_KEYS: seq<string> := [
    "actual_repeats_per_sec", "actual_jump_events_per_sec", "actual_skipped_samples_per_sec",
    "expected_repeats_per_sec", "expected_skipped_samples_per_sec", "expected_jump_events_per_sec"
  ]

  function RateOf(value: string -> Option<string>, k: nat, float: FloatText): Option<Float>
    requires k < |RATE_KEYS|
  {
    ParseNumber(value(RATE_KEYS[k]), float)
  }

  /** The sample of the counter rates in one message, if it has any actual rate. */
  function CounterSampleOf(value: string -> Option<string>, time: real, float: FloatText): Option<CounterSample> {
    var repeats, jumps, skipped := RateOf(value, 0, float), RateOf(value, 1, float), RateOf(value, 2, float);
    if repeats.None? && jumps.None? && skipped.None? then None
    else Some(CounterSample(
      time, repeats, jumps, skipped, RateOf(value, 3, float), RateOf(value, 4, float), RateOf(value, 5, float)))
  }

  /** The rates and their keys, spelled out. */
  lemma CounterSampleMeaning(value: string -> Option<string>, time: real, float: FloatText)
    ensures var r := CounterSampleOf(value, time, float);
            var repeats := ParseNumber(value("actual_repeats_per_sec"), float);
            var jumps := ParseNumber(value("actual_jump_events_per_sec"), float);
            var skipped := ParseNumber(value("actual_skipped_samples_per_sec"), float);
            && (r.None? <==> repeats.None? && jumps.None? && skipped.None?)
            && (r.Some? ==>
                  && r.value.time == time
                  && r.value.repeats == repeats && r.value.jumps == jumps && r.value.skipped == skipped
                  && r.value.expectedRepeats == ParseNumber(value("expected_repeats_per_sec"), float)
                  && r.value.expectedJumps == ParseNumber(value("expected_jump_events_per_sec"), float)
                  && r.value.expectedSkipped == ParseNumber(value("expected_skipped_samples_per_sec"), float))
  {
    hide ParseNumber;
  }

  function SampleIn(statuses: seq<Status>, time: real, float: FloatText): Option<CounterSample> {
    CounterSampleOf(key => FirstValue(Items(statuses), key), time, float)
  }

  lemma MergedSample(flat: map<string, string>, statuses: seq<Status>, time: real, float: FloatText)
    requires Merged(flat, Items(statuses))
    ensures CounterSampleOf(key => Lookup(flat, key), time, float) == SampleIn(statuses, time, float)
  {
    hide Items, FirstValue, Lookup;
    SameValuesSameSample(key => Lookup(flat, key), key => FirstValue(Items(statuses), key), time, float);
  }

  lemma SameValuesSameSample(
    f: string -> Option<string>, g: string -> Option<string>, time: real, float: FloatText)
    requires forall key :: f(key) == g(key)
    ensures CounterSampleOf(f, time, float) == CounterSampleOf(g, time, float)
  {
    assert |RATE_KEYS| == 6;
    hide ParseNumber, RATE_KEYS;
    assert forall k :: 0 <= k < 6 ==> RateOf(f, k, float) == RateOf(g, k, float);
  }

  lemma MergedDerives(flat: map<string, string>, statuses: seq<Status>, float: FloatText)
    requires Merged(flat, Items(statuses))
    ensures DerivedOk(statuses != [], key => Lookup(flat, key), float) <==> Derived(statuses, float)
  {
    hide ParseFlag, ParseNumber, Positive, Items, FirstValue;
  }
}
