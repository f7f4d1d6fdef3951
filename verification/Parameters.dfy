/** From the hardware description's text parameters to the driver's configuration. */
module Parameters {
  import opened Machine
  import opened Text
  import EthercatDriver
  import SlaveSearch
  import CounterSpec

  type HardwareParameters = map<string, string>

  /** The C library's text conversions for floating point, which are not part of this model. */
  datatype Double = Finite(value: real) | NonFinite
  datatype DoubleReading = DoubleNumber(value: Double, consumed: nat) | NoDouble | DoubleTooLarge
  datatype DoubleText = DoubleText(read: string -> DoubleReading, show: real -> string)

  datatype Fault =
    | Missing(key: string)
    | Malformed(key: string, error: ParseError)
    | NotBoolean(key: string)
    | NotPositive(key: string)

  const VENDOR_ID: uint32 := 0x0000_0732
  const PRODUCT_CODE: uint32 := 0x2648_3053
  const REVISION: uint32 := 0x0000_0001

  datatype Parsed = Parsed(
    masterIndex: uint32, alias: nat, position: nat, vendorId: uint32, productCode: uint32, revision: uint32,
    readCalibration: bool, sdoEnabled: bool, sdoTimeoutMs: uint32,
    countsPerForce: real, countsPerTorque: real,
    filter: nat, slot: nat, rateCode: nat,
    sensorRate: real, readRate: real,
    setBiasOnActivate: bool, clearBiasOnActivate: bool)

  function Optional(params: HardwareParameters, key: string, default: string): string {
    if key in params then params[key] else default
  }

  function Required(params: HardwareParameters, key: string): Result<string, Fault> {
    if key !in params || params[key] == "" then Err(Missing(key)) else Ok(params[key])
  }

  function Keyed<T>(key: string, r: Result<T, ParseError>): Result<T, Fault> {
    match r
    case Ok(value) => Ok(value)
    case Err(e) => Err(Malformed(key, e))
  }

  function ParseBool(text: string, key: string): Result<bool, Fault> {
    if text in {"true", "True", "1", "yes", "Yes"} then Ok(true)
    else if text in {"false", "False", "0", "no", "No"} then Ok(false)
    else Err(NotBoolean(key))
  }

  function ParsePositive(text: string, key: string, lib: DoubleText): (r: Result<real, Fault>)
    ensures r.Ok? ==> r.value > 0.0
  {
    match lib.read(text)
    case NoDouble => Err(Malformed(key, NotANumber))
    case DoubleTooLarge => Err(Malformed(key, OutOfRange))
    case DoubleNumber(d, consumed) =>
      if consumed != |text| || d.NonFinite? || d.value <= 0.0 then Err(NotPositive(key)) else Ok(d.value)
  }

  const SAMPLE_RATES: seq<real> := [487.0, 975.0, 1990.0, 3900.0]

  function SampleRate(code: nat): real
    requires code < |SAMPLE_RATES|
  {
    SAMPLE_RATES[code]
  }

  function SelectionOf(p: Parsed): EthercatDriver.Selection
    requires p.filter <= 8 && p.slot <= 1 && p.rateCode <= 3
  {
    EthercatDriver.Selection(p.filter as bv8, p.slot as bv8, p.rateCode as bv8)
  }

  function SlaveOf(p: Parsed): SlaveSearch.SlaveConfig {
    SlaveSearch.SlaveConfig(p.vendorId, p.productCode, p.alias, p.position)
  }

  function RatesOf(p: Parsed): CounterSpec.Rates {
    CounterSpec.Rates(p.sensorRate, p.readRate)
  }

  /** What the parameters say, in terms of the integers that texts denote. */
  ghost predicate SaysInt(text: string, max: nat, value: nat) {
    exists n :: DenotesInt(text, n) && Acceptable(n, max) && value == if n >= 0 then n else n + TWO64
  }

  predicate SaysBool(text: string, value: bool) {
    if value then text in {"true", "True", "1", "yes", "Yes"} else text in {"false", "False", "0", "no", "No"}
  }

  predicate SaysPositive(text: string, value: real, lib: DoubleText) {
    value > 0.0 && lib.read(text) == DoubleNumber(Finite(value), |text|)
  }

  /** Every field of `p` is what its parameter, or the parameter's default, says. */
  ghost predicate Denotes(p: Parsed, params: HardwareParameters, lib: DoubleText) {
    && AddressesSaid(p, params) && SdoSaid(p, params) && ScalesSaid(p, params, lib)
    && RatesSaid(p, params, lib) && BiasSaid(p, params)
  }

  ghost predicate AddressesSaid(p: Parsed, params: HardwareParameters) {
    && SaysInt(Optional(params, "master_index", "0"), MAX32, p.masterIndex)
    && SaysInt(Optional(params, "slave_alias", "0"), 0xFFFF, p.alias)
    && "slave_position" in params && params["slave_position"] != ""
    && SaysInt(params["slave_position"], 0xFFFF, p.position)
    && SaysInt(Optional(params, "vendor_id", Decimal(VENDOR_ID)), MAX32, p.vendorId)
    && SaysInt(Optional(params, "product_code", Decimal(PRODUCT_CODE)), MAX32, p.productCode)
    && SaysInt(Optional(params, "revision", Decimal(REVISION)), MAX32, p.revision)
  }

  ghost predicate SdoSaid(p: Parsed, params: HardwareParameters) {
    && SaysBool(Optional(params, "read_calibration_sdo", "true"), p.readCalibration)
    && SaysBool(Optional(params, "runtime_diagnostic_sdo", "true"), p.sdoEnabled)
    && SaysInt(Optional(params, "runtime_diagnostic_sdo_timeout_ms", "5"), MAX32, p.sdoTimeoutMs)
    && p.sdoTimeoutMs > 0
  }

  ghost predicate BiasSaid(p: Parsed, params: HardwareParameters) {
    && SaysBool(Optional(params, "set_bias_on_activate", "false"), p.setBiasOnActivate)
    && SaysBool(Optional(params, "clear_bias_on_activate", "false"), p.clearBiasOnActivate)
  }

  ghost predicate ScalesSaid(p: Parsed, params: HardwareParameters, lib: DoubleText) {
    && SaysPositive(Optional(params, "counts_per_force", "1000000"), p.countsPerForce, lib)
    && SaysPositive(Optional(params, "counts_per_torque", "1000000"), p.countsPerTorque, lib)
    && SaysInt(Optional(params, "filter_selection", "0"), 8, p.filter)
    && SaysInt(Optional(params, "calibration_slot", "0"), 1, p.slot)
    && SaysInt(Optional(params, "sample_rate_code", "1"), 3, p.rateCode)
  }

  ghost predicate RatesSaid(p: Parsed, params: HardwareParameters, lib: DoubleText) {
    && p.rateCode < |SAMPLE_RATES|
    && SaysPositive(Optional(params, "expected_sensor_rate_hz", lib.show(SampleRate(p.rateCode))), p.sensorRate, lib)
    && SaysPositive(Optional(params, "expected_read_rate_hz", lib.show(p.sensorRate)), p.readRate, lib)
  }

  /** The parsers accept exactly the texts that say something, and return what they say. */
  lemma ParsersSay(text: string, max: nat, v: nat)
    requires max < 0x100
    ensures ParseU32(text) == Ok(v) <==> SaysInt(text, MAX32, v)
    ensures ParseU16(text) == Ok(v) <==> SaysInt(text, 0xFFFF, v)
    ensures ParseU8(text, max) == Ok(v) <==> SaysInt(text, max, v)
  {
    hide ParseUpTo, SaysInt;
    U16IsBounded(text);
    ParsedIsSaid(text, MAX32, v);
    ParsedIsSaid(text, 0xFFFF, v);
    ParsedIsSaid(text, max, v);
  }

  lemma ParsedIsSaid(text: string, max: nat, v: nat)
    requires max < TWO64
    ensures ParseUpTo(text, max) == Ok(v) <==> SaysInt(text, max, v)
  {
    hide ParseUpTo, DenotesInt, Acceptable;
    if ParseUpTo(text, max) == Ok(v) {
      OnlyNumeralsAccepted(text, max);
      var n :| DenotesInt(text, n);
      NumeralsAccepted(text, n, max);
    }
    if SaysInt(text, max, v) {
      var n :| DenotesInt(text, n) && Acceptable(n, max) && v == if n >= 0 then n else n + TWO64;
      NumeralsAccepted(text, n, max);
    }
  }

  lemma BoolsSay(text: string, key: string, b: bool)
    ensures ParseBool(text, key) == Ok(b) <==> SaysBool(text, b)
  {
  }

  lemma PositivesSay(text: string, key: string, lib: DoubleText, v: real)
    ensures ParsePositive(text, key, lib) == Ok(v) <==> SaysPositive(text, v, lib)
  {
  }

  /** Every field of `p` is what its parser returns. */
  ghost predicate Parses(p: Parsed, params: HardwareParameters, lib: DoubleText) {
    && AddressesParse(p, params) && SdoParse(p, params) && ScalesParse(p, params, lib)
    && RatesParse(p, params, lib) && BiasParse(p, params)
  }

  ghost predicate AddressesParse(p: Parsed, params: HardwareParameters) {
    && ParseU32(Optional(params, "master_index", "0")) == Ok(p.masterIndex)
    && ParseU16(Optional(params, "slave_alias", "0")) == Ok(p.alias)
    && "slave_position" in params && params["slave_position"] != ""
    && ParseU16(params["slave_position"]) == Ok(p.position)
    && ParseU32(Optional(params, "vendor_id", Decimal(VENDOR_ID))) == Ok(p.vendorId)
    && ParseU32(Optional(params, "product_code", Decimal(PRODUCT_CODE))) == Ok(p.productCode)
    && ParseU32(Optional(params, "revision", Decimal(REVISION))) == Ok(p.revision)
  }

  ghost predicate SdoParse(p: Parsed, params: HardwareParameters) {
    && ParseBool(Optional(params, "read_calibration_sdo", "true"), "read_calibration_sdo") == Ok(p.readCalibration)
    && ParseBool(Optional(params, "runtime_diagnostic_sdo", "true"), "runtime_diagnostic_sdo") == Ok(p.sdoEnabled)
    && ParseU32(Optional(params, "runtime_diagnostic_sdo_timeout_ms", "5")) == Ok(p.sdoTimeoutMs)
    && p.sdoTimeoutMs > 0
  }

  ghost predicate BiasParse(p: Parsed, params: HardwareParameters) {
    && ParseBool(Optional(params, "set_bias_on_activate", "false"), "set_bias_on_activate") == Ok(p.setBiasOnActivate)
    && ParseBool(Optional(params, "clear_bias_on_activate", "false"), "clear_bias_on_activate")
       == Ok(p.clearBiasOnActivate)
  }

  ghost predicate ScalesParse(p: Parsed, params: HardwareParameters, lib: DoubleText) {
    && ParsePositive(Optional(params, "counts_per_force", "1000000"), "counts_per_force", lib) == Ok(p.countsPerForce)
    && ParsePositive(Optional(params, "counts_per_torque", "1000000"), "counts_per_torque", lib)
       == Ok(p.countsPerTorque)
    && ParseU8(Optional(params, "filter_selection", "0"), 8) == Ok(p.filter)
    && ParseU8(Optional(params, "calibration_slot", "0"), 1) == Ok(p.slot)
    && ParseU8(Optional(params, "sample_rate_code", "1"), 3) == Ok(p.rateCode)
  }

  ghost predicate RatesParse(p: Parsed, params: HardwareParameters, lib: DoubleText) {
    && p.rateCode < |SAMPLE_RATES|
    && ParsePositive(
         Optional(params, "expected_sensor_rate_hz", lib.show(SampleRate(p.rateCode))), "expected_sensor_rate_hz", lib)
       == Ok(p.sensorRate)
    && ParsePositive(
         Optional(params, "expected_read_rate_hz", lib.show(p.sensorRate)), "expected_read_rate_hz", lib)
       == Ok(p.readRate)
  }

  lemma AddressesParseAsSaid(p: Parsed, params: HardwareParameters)
    ensures AddressesParse(p, params) <==> AddressesSaid(p, params)
  {
    hide ParseU32, ParseU16, ParseU8, Optional, Decimal, SaysInt;
    ParsersSay(Optional(params, "master_index", "0"), 0, p.masterIndex);
    ParsersSay(Optional(params, "slave_alias", "0"), 0, p.alias);
    if "slave_position" in params {
      ParsersSay(params["slave_position"], 0, p.position);
    }
    ParsersSay(Optional(params, "vendor_id", Decimal(VENDOR_ID)), 0, p.vendorId);
    ParsersSay(Optional(params, "product_code", Decimal(PRODUCT_CODE)), 0, p.productCode);
    ParsersSay(Optional(params, "revision", Decimal(REVISION)), 0, p.revision);
  }

  lemma SdoParseAsSaid(p: Parsed, params: HardwareParameters)
    ensures SdoParse(p, params) <==> SdoSaid(p, params)
  {
    hide ParseU32, ParseU16, ParseU8, ParseBool, Optional, SaysInt, SaysBool;
    ParsersSay(Optional(params, "runtime_diagnostic_sdo_timeout_ms", "5"), 0, p.sdoTimeoutMs);
    BoolsSay(Optional(params, "read_calibration_sdo", "true"), "read_calibration_sdo", p.readCalibration);
    BoolsSay(Optional(params, "runtime_diagnostic_sdo", "true"), "runtime_diagnostic_sdo", p.sdoEnabled);
  }

  lemma BiasParseAsSaid(p: Parsed, params: HardwareParameters)
    ensures BiasParse(p, params) <==> BiasSaid(p, params)
  {
    hide ParseBool, Optional, SaysBool;
    BoolsSay(Optional(params, "set_bias_on_activate", "false"), "set_bias_on_activate", p.setBiasOnActivate);
    BoolsSay(Optional(params, "clear_bias_on_activate", "false"), "clear_bias_on_activate", p.clearBiasOnActivate);
  }

  lemma ScalesParseAsSaid(p: Parsed, params: HardwareParameters, lib: DoubleText)
    ensures ScalesParse(p, params, lib) <==> ScalesSaid(p, params, lib)
  {
    hide ParseU32, ParseU16, ParseU8, ParsePositive, Optional, SaysInt, SaysPositive;
    PositivesSay(Optional(params, "counts_per_force", "1000000"), "counts_per_force", lib, p.countsPerForce);
    PositivesSay(Optional(params, "counts_per_torque", "1000000"), "counts_per_torque", lib, p.countsPerTorque);
    ParsersSay(Optional(params, "filter_selection", "0"), 8, p.filter);
    ParsersSay(Optional(params, "calibration_slot", "0"), 1, p.slot);
    ParsersSay(Optional(params, "sample_rate_code", "1"), 3, p.rateCode);
  }

  lemma RatesParseAsSaid(p: Parsed, params: HardwareParameters, lib: DoubleText)
    ensures RatesParse(p, params, lib) <==> RatesSaid(p, params, lib)
  {
    hide ParsePositive, Optional, SaysPositive, SampleRate;
    if p.rateCode < |SAMPLE_RATES| {
      PositivesSay(
        Optional(params, "expected_sensor_rate_hz", lib.show(SampleRate(p.rateCode))), "expected_sensor_rate_hz", lib,
        p.sensorRate);
      PositivesSay(
        Optional(params, "expected_read_rate_hz", lib.show(p.sensorRate)), "expected_read_rate_hz", lib, p.readRate);
    }
  }

  lemma ParsesIsDenotes(p: Parsed, params: HardwareParameters, lib: DoubleText)
    ensures Parses(p, params, lib) <==> Denotes(p, params, lib)
  {
    hide AddressesParse, AddressesSaid, SdoParse, SdoSaid, ScalesParse, ScalesSaid, RatesParse, RatesSaid,
         BiasParse, BiasSaid;
    AddressesParseAsSaid(p, params);
    SdoParseAsSaid(p, params);
    ScalesParseAsSaid(p, params, lib);
    RatesParseAsSaid(p, params, lib);
    BiasParseAsSaid(p, params);
  }

  // ------------------------------------------------------------------- faults

  function FaultOf<T>(r: Result<T, Fault>): Option<Fault> {
    if r.Err? then Some(r.error) else None
  }

  /** What is wrong with each parameter, in the order in which they are read. */
  function Faults(params: HardwareParameters, lib: DoubleText): seq<Option<Fault>> {
    AddressFaults(params) + SdoFaults(params) + ScaleFaults(params, lib) + RateFaults(params, lib) + BiasFaults(params)
  }

  function AddressFaults(params: HardwareParameters): seq<Option<Fault>> {
    [ FaultOf(Keyed("master_index", ParseU32(Optional(params, "master_index", "0")))),
      FaultOf(Keyed("slave_alias", ParseU16(Optional(params, "slave_alias", "0")))),
      if Required(params, "slave_position").Err? then FaultOf(Required(params, "slave_position"))
      else FaultOf(Keyed("slave_position", ParseU16(params["slave_position"]))),
      FaultOf(Keyed("vendor_id", ParseU32(Optional(params, "vendor_id", Decimal(VENDOR_ID))))),
      FaultOf(Keyed("product_code", ParseU32(Optional(params, "product_code", Decimal(PRODUCT_CODE))))),
      FaultOf(Keyed("revision", ParseU32(Optional(params, "revision", Decimal(REVISION))))) ]
  }

  function SdoFaults(params: HardwareParameters): seq<Option<Fault>> {
    var timeout := ParseU32(Optional(params, "runtime_diagnostic_sdo_timeout_ms", "5"));
    [ FaultOf(ParseBool(Optional(params, "read_calibration_sdo", "true"), "read_calibration_sdo")),
      FaultOf(ParseBool(Optional(params, "runtime_diagnostic_sdo", "true"), "runtime_diagnostic_sdo")),
      if timeout == Ok(0) then Some(NotPositive("runtime_diagnostic_sdo_timeout_ms"))
      else FaultOf(Keyed("runtime_diagnostic_sdo_timeout_ms", timeout)) ]
  }

  function ScaleFaults(params: HardwareParameters, lib: DoubleText): seq<Option<Fault>> {
    [ FaultOf(ParsePositive(Optional(params, "counts_per_force", "1000000"), "counts_per_force", lib)),
      FaultOf(ParsePositive(Optional(params, "counts_per_torque", "1000000"), "counts_per_torque", lib)),
      FaultOf(Keyed("filter_selection", ParseU8(Optional(params, "filter_selection", "0"), 8))),
      FaultOf(Keyed("calibration_slot", ParseU8(Optional(params, "calibration_slot", "0"), 1))),
      FaultOf(RateCodeIn(params)) ]
  }

  function RateCodeIn(params: HardwareParameters): Result<nat, Fault> {
    Keyed("sample_rate_code", ParseU8(Optional(params, "sample_rate_code", "1"), 3))
  }

  /** The sensor rate of the parameters, its default being that of the rate code. */
  function SensorRateIn(params: HardwareParameters, lib: DoubleText): Result<real, Fault> {
    var code := if RateCodeIn(params).Ok? && RateCodeIn(params).value <= 3 then RateCodeIn(params).value else 0;
    ParsePositive(Optional(params, "expected_sensor_rate_hz", lib.show(SampleRate(code))), "expected_sensor_rate_hz", lib)
  }

  function RateFaults(params: HardwareParameters, lib: DoubleText): seq<Option<Fault>> {
    var sensor := SensorRateIn(params, lib);
    [ FaultOf(sensor),
      if sensor.Err? then None
      else FaultOf(
        ParsePositive(Optional(params, "expected_read_rate_hz", lib.show(sensor.value)), "expected_read_rate_hz", lib)) ]
  }

  function BiasFaults(params: HardwareParameters): seq<Option<Fault>> {
    [ FaultOf(ParseBool(Optional(params, "set_bias_on_activate", "false"), "set_bias_on_activate")),
      FaultOf(ParseBool(Optional(params, "clear_bias_on_activate", "false"), "clear_bias_on_activate")) ]
  }

  predicate NoFault(fs: seq<Option<Fault>>) {
    forall k :: 0 <= k < |fs| ==> fs[k].None?
  }

  predicate FirstFault(fs: seq<Option<Fault>>, f: Fault) {
    exists k :: 0 <= k < |fs| && fs[k] == Some(f) && forall j :: 0 <= j < k ==> fs[j].None?
  }

  lemma FirstInParts(a: seq<Option<Fault>>, b: seq<Option<Fault>>)
    ensures NoFault(a + b) <==> NoFault(a) && NoFault(b)
    ensures forall f :: FirstFault(a, f) ==> FirstFault(a + b, f)
    ensures forall f :: NoFault(a) && FirstFault(b, f) ==> FirstFault(a + b, f)
  {
    assert forall k :: 0 <= k < |a| ==> (a + b)[k] == a[k];
    assert forall k :: 0 <= k < |b| ==> (a + b)[|a| + k] == b[k];
    forall f | NoFault(a) && FirstFault(b, f)
      ensures FirstFault(a + b, f)
    {
      var k :| 0 <= k < |b| && b[k] == Some(f) && forall j :: 0 <= j < k ==> b[j].None?;
      assert (a + b)[|a| + k] == Some(f);
      assert forall j :: |a| <= j < |a| + k ==> (a + b)[j] == b[j - |a|];
    }
  }

  /** The parse succeeds exactly when the parameters denote a configuration, and returns that
      one; otherwise it returns what is wrong with the first parameter that is at fault. */
  method ParseHardwareParameters(params: HardwareParameters, lib: DoubleText) returns (r: Result<Parsed, Fault>)
    ensures r.Ok? ==> Denotes(r.value, params, lib)
    ensures r.Err? ==> FirstFault(Faults(params, lib), r.error) && forall p :: !Denotes(p, params, lib)
  {
    hide Denotes, Parses, Faults, FirstFault, NoFault;
    r := ParseInOrder(params, lib);
    forall p
      ensures Parses(p, params, lib) <==> Denotes(p, params, lib)
      ensures Parses(p, params, lib) ==> NoFault(Faults(params, lib))
    {
      ParsesIsDenotes(p, params, lib);
      ParsesWithoutFault(p, params, lib);
    }
    if r.Err? {
      FirstIsSome(Faults(params, lib), r.error);
    }
  }

  lemma FirstIsSome(fs: seq<Option<Fault>>, f: Fault)
    requires FirstFault(fs, f)
    ensures !NoFault(fs)
  {
  }

  lemma ParsesWithoutFault(p: Parsed, params: HardwareParameters, lib: DoubleText)
    ensures Parses(p, params, lib) ==> NoFault(Faults(params, lib))
  {
    AddressesWithoutFault(p, params);
    SdoWithoutFault(p, params);
    ScalesWithoutFault(p, params, lib);
    RatesWithoutFault(p, params, lib);
    BiasWithoutFault(p, params);
    FaultsInParts(params, lib);
    hide AddressFaults, SdoFaults, ScaleFaults, RateFaults, BiasFaults, NoFault, FirstFault, Faults,
         AddressesParse, SdoParse, RatesParse, BiasParse;
    if Parses(p, params, lib) {
      assert ScalesParse(p, params, lib);
    }
  }

  lemma AddressesWithoutFault(p: Parsed, params: HardwareParameters)
    ensures AddressesParse(p, params) ==> NoFault(AddressFaults(params))
  {
    hide ParseU32, ParseU16, Optional, Decimal;
  }

  lemma SdoWithoutFault(p: Parsed, params: HardwareParameters)
    ensures SdoParse(p, params) ==> NoFault(SdoFaults(params))
  {
    hide ParseU32, ParseBool, Optional;
  }

  lemma ScalesWithoutFault(p: Parsed, params: HardwareParameters, lib: DoubleText)
    ensures ScalesParse(p, params, lib) ==> NoFault(ScaleFaults(params, lib)) && RateCodeIn(params) == Ok(p.rateCode)
  {
    hide ParseU8, ParsePositive, Optional;
  }

  lemma RatesWithoutFault(p: Parsed, params: HardwareParameters, lib: DoubleText)
    ensures RatesParse(p, params, lib) && RateCodeIn(params) == Ok(p.rateCode) ==> NoFault(RateFaults(params, lib))
  {
    hide ParsePositive, Optional, SampleRate, RateCodeIn;
  }

  lemma BiasWithoutFault(p: Parsed, params: HardwareParameters)
    ensures BiasParse(p, params) ==> NoFault(BiasFaults(params))
  {
    hide ParseBool, Optional;
  }

  lemma FaultsInParts(params: HardwareParameters, lib: DoubleText)
    ensures var a, b, c, d, e := AddressFaults(params), SdoFaults(params), ScaleFaults(params, lib),
              RateFaults(params, lib), BiasFaults(params);
            var all := Faults(params, lib);
            && (NoFault(all) <==> NoFault(a) && NoFault(b) && NoFault(c) && NoFault(d) && NoFault(e))
            && (forall f :: FirstFault(a, f) ==> FirstFault(all, f))
            && (forall f :: NoFault(a) && FirstFault(b, f) ==> FirstFault(all, f))
            && (forall f :: NoFault(a) && NoFault(b) && FirstFault(c, f) ==> FirstFault(all, f))
            && (forall f :: NoFault(a) && NoFault(b) && NoFault(c) && FirstFault(d, f) ==> FirstFault(all, f))
            && (forall f :: NoFault(a) && NoFault(b) && NoFault(c) && NoFault(d) && FirstFault(e, f) ==>
                  FirstFault(all, f))
  {
    hide AddressFaults, SdoFaults, ScaleFaults, RateFaults, BiasFaults, NoFault, FirstFault;
    var a, b, c, d, e := AddressFaults(params), SdoFaults(params), ScaleFaults(params, lib),
      RateFaults(params, lib), BiasFaults(params);
    FirstInParts(a, b);
    FirstInParts(a + b, c);
    FirstInParts(a + b + c, d);
    FirstInParts(a + b + c + d, e);
  }

  /** Where the parse starts: every field has its initial value. */
  const NOTHING_PARSED := Parsed(0, 0, 0, 0, 0, 0, false, false, 0, 0.0, 0.0, 0, 0, 0, 0.0, 0.0, false, false)

  /** Fills in the result field by field; the first fault ends the parse. */
  method ParseInOrder(params: HardwareParameters, lib: DoubleText) returns (r: Result<Parsed, Fault>)
    ensures r.Ok? ==> Parses(r.value, params, lib)
    ensures r.Err? ==> FirstFault(Faults(params, lib), r.error)
  {
    hide ParseU32, ParseU16, ParseU8, ParseBool, ParsePositive, Optional, Decimal, SampleRate,
         Faults, AddressFaults, SdoFaults, ScaleFaults, RateFaults, BiasFaults, NoFault, FirstFault;
    FaultsInParts(params, lib);
    var result :- ParseAddresses(params, NOTHING_PARSED);
    result :- ParseSdo(params, result);
    result :- ParseScales(params, lib, result);
    result :- ParseRates(params, lib, result);
    r := ParseBias(params, result);
  }

  method ParseAddresses(params: HardwareParameters, result: Parsed) returns (r: Result<Parsed, Fault>)
    ensures r.Ok? ==>
              && AddressesParse(r.value, params) && NoFault(AddressFaults(params))
              && r.value == result.(
                   masterIndex := r.value.masterIndex, alias := r.value.alias, position := r.value.position,
                   vendorId := r.value.vendorId, productCode := r.value.productCode, revision := r.value.revision)
    ensures r.Err? ==> FirstFault(AddressFaults(params), r.error)
  {
    hide ParseU32, ParseU16, ParseU8, Optional, Decimal;
    ghost var fs := AddressFaults(params);
    assert fs == [fs[0], fs[1], fs[2], fs[3], fs[4], fs[5]];
    var p := result;
    var masterIndex :- Keyed("master_index", ParseU32(Optional(params, "master_index", "0")));
    p := p.(masterIndex := masterIndex);
    var alias :- Keyed("slave_alias", ParseU16(Optional(params, "slave_alias", "0")));
    p := p.(alias := alias);
    var positionText :- Required(params, "slave_position");
    var position :- Keyed("slave_position", ParseU16(positionText));
    p := p.(position := position);
    var vendorId :- Keyed("vendor_id", ParseU32(Optional(params, "vendor_id", Decimal(VENDOR_ID))));
    p := p.(vendorId := vendorId);
    var productCode :- Keyed("product_code", ParseU32(Optional(params, "product_code", Decimal(PRODUCT_CODE))));
    p := p.(productCode := productCode);
    var revision :- Keyed("revision", ParseU32(Optional(params, "revision", Decimal(REVISION))));
    r := Ok(p.(revision := revision));
  }

  method ParseSdo(params: HardwareParameters, result: Parsed) returns (r: Result<Parsed, Fault>)
    ensures r.Ok? ==>
              && SdoParse(r.value, params) && NoFault(SdoFaults(params))
              && r.value == result.(
                   readCalibration := r.value.readCalibration, sdoEnabled := r.value.sdoEnabled,
                   sdoTimeoutMs := r.value.sdoTimeoutMs)
    ensures r.Err? ==> FirstFault(SdoFaults(params), r.error)
  {
    hide ParseU32, ParseBool, Optional;
    ghost var fs := SdoFaults(params);
    assert fs == [fs[0], fs[1], fs[2]];
    var p := result;
    var readCalibration :- ParseBool(Optional(params, "read_calibration_sdo", "true"), "read_calibration_sdo");
    p := p.(readCalibration := readCalibration);
    var sdoEnabled :- ParseBool(Optional(params, "runtime_diagnostic_sdo", "true"), "runtime_diagnostic_sdo");
    p := p.(sdoEnabled := sdoEnabled);
    var timeout :- Keyed(
      "runtime_diagnostic_sdo_timeout_ms", ParseU32(Optional(params, "runtime_diagnostic_sdo_timeout_ms", "5")));
    p := p.(sdoTimeoutMs := timeout);
    if timeout == 0 {
      return Err(NotPositive("runtime_diagnostic_sdo_timeout_ms"));
    }
    r := Ok(p);
  }

  method ParseScales(params: HardwareParameters, lib: DoubleText, result: Parsed) returns (r: Result<Parsed, Fault>)
    ensures r.Ok? ==>
              && ScalesParse(r.value, params, lib) && NoFault(ScaleFaults(params, lib))
              && r.value == result.(
                   countsPerForce := r.value.countsPerForce, countsPerTorque := r.value.countsPerTorque,
                   filter := r.value.filter, slot := r.value.slot, rateCode := r.value.rateCode)
    ensures r.Err? ==> FirstFault(ScaleFaults(params, lib), r.error)
  {
    hide ParseU8, ParsePositive, Optional;
    ghost var fs := ScaleFaults(params, lib);
    assert fs == [fs[0], fs[1], fs[2], fs[3], fs[4]];
    var p := result;
    var force :- ParsePositive(Optional(params, "counts_per_force", "1000000"), "counts_per_force", lib);
    p := p.(countsPerForce := force);
    var torque :- ParsePositive(Optional(params, "counts_per_torque", "1000000"), "counts_per_torque", lib);
    p := p.(countsPerTorque := torque);
    var filter :- Keyed("filter_selection", ParseU8(Optional(params, "filter_selection", "0"), 8));
    p := p.(filter := filter);
    var slot :- Keyed("calibration_slot", ParseU8(Optional(params, "calibration_slot", "0"), 1));
    p := p.(slot := slot);
    var rateCode :- Keyed("sample_rate_code", ParseU8(Optional(params, "sample_rate_code", "1"), 3));
    r := Ok(p.(rateCode := rateCode));
  }

  method ParseRates(params: HardwareParameters, lib: DoubleText, result: Parsed) returns (r: Result<Parsed, Fault>)
    requires ParseU8(Optional(params, "sample_rate_code", "1"), 3) == Ok(result.rateCode)
    ensures r.Ok? ==>
              && RatesParse(r.value, params, lib) && NoFault(RateFaults(params, lib))
              && r.value == result.(sensorRate := r.value.sensorRate, readRate := r.value.readRate)
    ensures r.Err? ==> FirstFault(RateFaults(params, lib), r.error)
  {
    hide ParseU8, ParsePositive, Optional, SampleRate;
    ghost var fs := RateFaults(params, lib);
    assert fs == [fs[0], fs[1]];
    assert RateCodeIn(params) == Ok(result.rateCode);
    var p := result;
    var sensorRate :- ParsePositive(
      Optional(params, "expected_sensor_rate_hz", lib.show(SampleRate(p.rateCode))), "expected_sensor_rate_hz", lib);
    p := p.(sensorRate := sensorRate);
    var readRate :- ParsePositive(
      Optional(params, "expected_read_rate_hz", lib.show(p.sensorRate)), "expected_read_rate_hz", lib);
    r := Ok(p.(readRate := readRate));
  }

  method ParseBias(params: HardwareParameters, result: Parsed) returns (r: Result<Parsed, Fault>)
    ensures r.Ok? ==>
              && BiasParse(r.value, params) && NoFault(BiasFaults(params))
              && r.value == result.(
                   setBiasOnActivate := r.value.setBiasOnActivate, clearBiasOnActivate := r.value.clearBiasOnActivate)
    ensures r.Err? ==> FirstFault(BiasFaults(params), r.error)
  {
    hide ParseBool, Optional;
    ghost var fs := BiasFaults(params);
    assert fs == [fs[0], fs[1]];
    var p := result;
    var setBias :- ParseBool(Optional(params, "set_bias_on_activate", "false"), "set_bias_on_activate");
    p := p.(setBiasOnActivate := setBias);
    var clearBias :- ParseBool(Optional(params, "clear_bias_on_activate", "false"), "clear_bias_on_activate");
    r := Ok(p.(clearBiasOnActivate := clearBias));
  }

  predicate InRange(p: Parsed) {
    && p.filter <= 8 && p.slot <= 1 && p.rateCode <= 3
    && p.alias < 0x1_0000 && p.position < 0x1_0000
    && p.countsPerForce > 0.0 && p.countsPerTorque > 0.0 && p.sensorRate > 0.0 && p.readRate > 0.0
  }

  /** An accepted configuration is in range, so the driver's constructor accepts its scales
      and the sample-rate table is indexed inside its bounds. */
  lemma AcceptedIsInRange(p: Parsed, params: HardwareParameters, lib: DoubleText)
    requires Denotes(p, params, lib)
    ensures InRange(p)
  {
    hide DenotesInt;
  }

  /** The text of the default ids says the ids. */
  lemma DefaultIds(p: Parsed, params: HardwareParameters, lib: DoubleText)
    requires Denotes(p, params, lib)
    ensures "vendor_id" !in params ==> p.vendorId == 0x732
    ensures "product_code" !in params ==> p.productCode == 0x2648_3053
    ensures "revision" !in params ==> p.revision == 1
  {
    hide SaysInt, Decimal, SaysBool, SaysPositive;
    SaysItself(VENDOR_ID, p.vendorId);
    SaysItself(PRODUCT_CODE, p.productCode);
    SaysItself(REVISION, p.revision);
  }

  lemma SaysItself(id: uint32, v: nat)
    ensures SaysInt(Decimal(id), MAX32, v) ==> v == id
  {
    hide SaysInt, Decimal, ParseU32;
    PrintersRoundTrip(id);
    ParsersSay(Decimal(id), 0, v);
  }

  /** Flags are these ten words, and nothing else. */
  lemma FlagWords(text: string, key: string)
    ensures ParseBool(text, key) == Ok(true) <==>
            text == "true" || text == "True" || text == "1" || text == "yes" || text == "Yes"
    ensures ParseBool(text, key) == Ok(false) <==>
            text == "false" || text == "False" || text == "0" || text == "no" || text == "No"
    ensures ParseBool(text, key).Err? ==> ParseBool(text, key).error == NotBoolean(key)
  {
    WordsDiffer();
  }

  lemma WordsDiffer()
    ensures forall w, v :: w in ["true", "True", "1", "yes", "Yes"] && v in ["false", "False", "0", "no", "No"] ==> w != v
  {
    assert |"true"| == |"True"| == 4 && |"false"| == |"False"| == 5 && |"yes"| == |"Yes"| == 3;
    assert |"no"| == |"No"| == 2 && "1"[0] == '1' && "0"[0] == '0';
  }

  /** What is wrong with a number that is not a positive one. */
  lemma WhyNotPositive(text: string, key: string, lib: DoubleText)
    ensures var r, read := ParsePositive(text, key, lib), lib.read(text);
            && (r == Err(Malformed(key, NotANumber)) <==> read.NoDouble?)
            && (r == Err(Malformed(key, OutOfRange)) <==> read.DoubleTooLarge?)
            && (r == Err(NotPositive(key)) <==>
                  read.DoubleNumber? && (read.consumed != |text| || read.value.NonFinite? || read.value.value <= 0.0))
  {
  }

  /** The position has no default: without it, or with an empty text, it is missing. */
  lemma PositionIsRequired(params: HardwareParameters, lib: DoubleText)
    ensures AddressFaults(params)[2] == Some(Missing("slave_position")) <==>
            "slave_position" !in params || params["slave_position"] == ""
    ensures SdoFaults(params)[2] == Some(NotPositive("runtime_diagnostic_sdo_timeout_ms")) <==>
            ParseU32(Optional(params, "runtime_diagnostic_sdo_timeout_ms", "5")) == Ok(0)
  {
    hide ParseU32, ParseU16, ParseBool, Decimal;
  }

  // --------------------------------------------------------------- round trip

  /** The text of a flag, an integer or a rate that says it. */
  predicate Spells(params: HardwareParameters, key: string, text: string) {
    key in params && params[key] == text
  }

  predicate ReadsBack(lib: DoubleText, x: real) {
    lib.read(lib.show(x)) == DoubleNumber(Finite(x), |lib.show(x)|)
  }

  function FlagText(b: bool): string { if b then "true" else "false" }

  predicate AddressesSpelled(p: Parsed, params: HardwareParameters) {
    && Spells(params, "master_index", Decimal(p.masterIndex))
    && Spells(params, "slave_alias", Decimal(p.alias))
    && Spells(params, "slave_position", Decimal(p.position))
    && Spells(params, "vendor_id", HexU32(p.vendorId))
    && Spells(params, "product_code", HexU32(p.productCode))
    && Spells(params, "revision", HexU32(p.revision))
  }

  predicate SdoSpelled(p: Parsed, params: HardwareParameters) {
    && Spells(params, "read_calibration_sdo", FlagText(p.readCalibration))
    && Spells(params, "runtime_diagnostic_sdo", FlagText(p.sdoEnabled))
    && Spells(params, "runtime_diagnostic_sdo_timeout_ms", Decimal(p.sdoTimeoutMs))
  }

  predicate ScalesSpelled(p: Parsed, params: HardwareParameters, lib: DoubleText) {
    && Spells(params, "counts_per_force", lib.show(p.countsPerForce)) && ReadsBack(lib, p.countsPerForce)
    && Spells(params, "counts_per_torque", lib.show(p.countsPerTorque)) && ReadsBack(lib, p.countsPerTorque)
    && Spells(params, "filter_selection", Decimal(p.filter))
    && Spells(params, "calibration_slot", Decimal(p.slot))
    && Spells(params, "sample_rate_code", Decimal(p.rateCode))
  }

  predicate RatesSpelled(p: Parsed, params: HardwareParameters, lib: DoubleText) {
    && Spells(params, "expected_sensor_rate_hz", lib.show(p.sensorRate)) && ReadsBack(lib, p.sensorRate)
    && Spells(params, "expected_read_rate_hz", lib.show(p.readRate)) && ReadsBack(lib, p.readRate)
  }

  predicate BiasSpelled(p: Parsed, params: HardwareParameters) {
    && Spells(params, "set_bias_on_activate", FlagText(p.setBiasOnActivate))
    && Spells(params, "clear_bias_on_activate", FlagText(p.clearBiasOnActivate))
  }

  /** Every configuration in range can be said, key by key, and is the one denoted then. */
  lemma SpelledIsDenoted(p: Parsed, params: HardwareParameters, lib: DoubleText)
    requires p.filter <= 8 && p.slot <= 1 && p.rateCode <= 3 && p.alias < 0x1_0000 && p.position < 0x1_0000
    requires p.countsPerForce > 0.0 && p.countsPerTorque > 0.0 && p.sensorRate > 0.0 && p.readRate > 0.0
    requires p.sdoTimeoutMs > 0
    requires AddressesSpelled(p, params) && SdoSpelled(p, params) && ScalesSpelled(p, params, lib)
    requires RatesSpelled(p, params, lib) && BiasSpelled(p, params)
    ensures forall q :: Denotes(q, params, lib) <==> q == p
  {
    hide AddressesSaid, SdoSaid, ScalesSaid, RatesSaid, BiasSaid,
         AddressesSpelled, SdoSpelled, ScalesSpelled, RatesSpelled, BiasSpelled;
    AddressesSpelledSay(p, params);
    SdoSpelledSays(p, params);
    ScalesSpelledSay(p, params, lib);
    RatesSpelledSay(p, params, lib);
    BiasSpelledSays(p, params);
    assert Denotes(p, params, lib);
    hide Denotes;
    forall q | Denotes(q, params, lib)
      ensures q == p
    {
      DenotesOne(p, q, params, lib);
    }
  }

  lemma AddressesSpelledSay(p: Parsed, params: HardwareParameters)
    requires AddressesSpelled(p, params) && p.alias < 0x1_0000 && p.position < 0x1_0000
    ensures AddressesSaid(p, params)
  {
    hide SaysInt, Decimal, HexU32;
    DecimalSays(p.masterIndex);
    DecimalSays(p.alias);
    DecimalSays(p.position);
    PrintReads(p.position, 10);
    HexSays(p.vendorId);
    HexSays(p.productCode);
    HexSays(p.revision);
    NotEmpty(p.position);
  }

  lemma NotEmpty(n: nat)
    ensures Decimal(n) != ""
  {
    PrintReads(n, 10);
  }

  lemma SdoSpelledSays(p: Parsed, params: HardwareParameters)
    requires SdoSpelled(p, params) && p.sdoTimeoutMs > 0
    ensures SdoSaid(p, params)
  {
    hide SaysInt, Decimal;
    DecimalSays(p.sdoTimeoutMs);
  }

  lemma ScalesSpelledSay(p: Parsed, params: HardwareParameters, lib: DoubleText)
    requires ScalesSpelled(p, params, lib) && p.filter <= 8 && p.slot <= 1 && p.rateCode <= 3
    requires p.countsPerForce > 0.0 && p.countsPerTorque > 0.0
    ensures ScalesSaid(p, params, lib)
  {
    hide SaysInt, Decimal;
    DecimalSays(p.filter);
    DecimalSays(p.slot);
    DecimalSays(p.rateCode);
  }

  lemma RatesSpelledSay(p: Parsed, params: HardwareParameters, lib: DoubleText)
    requires RatesSpelled(p, params, lib) && p.rateCode <= 3 && p.sensorRate > 0.0 && p.readRate > 0.0
    ensures RatesSaid(p, params, lib)
  {
  }

  lemma BiasSpelledSays(p: Parsed, params: HardwareParameters)
    requires BiasSpelled(p, params)
    ensures BiasSaid(p, params)
  {
  }

  lemma HexSays(n: uint32)
    ensures SaysInt(HexU32(n), MAX32, n)
  {
    hide DenotesInt, HexU32;
    HexDenotes(n);
    assert DenotesInt(HexU32(n), n);
  }

  /** Parameters denote one configuration at most. */
  lemma DenotesOne(p: Parsed, q: Parsed, params: HardwareParameters, lib: DoubleText)
    requires Denotes(p, params, lib) && Denotes(q, params, lib)
    ensures p == q
  {
    ParsesIsDenotes(p, params, lib);
    ParsesIsDenotes(q, params, lib);
    hide Denotes, ParseU32, ParseU16, ParseU8, ParseBool, ParsePositive, Optional, Decimal, SampleRate;
  }

  /** Without a sensor rate the rate of the code counts. */
  lemma DefaultSensorRate(p: Parsed, params: HardwareParameters, lib: DoubleText)
    requires Denotes(p, params, lib) && "expected_sensor_rate_hz" !in params
    ensures p.rateCode <= 3
    ensures var text := lib.show(
              if p.rateCode == 0 then 487.0 else if p.rateCode == 1 then 975.0 else if p.rateCode == 2 then 1990.0 else 3900.0);
            lib.read(text) == DoubleNumber(Finite(p.sensorRate), |text|)
  {
    AcceptedIsInRange(p, params, lib);
    RateTable(p.rateCode);
    hide AddressesSaid, SdoSaid, ScalesSaid, BiasSaid, SampleRate;
  }

  lemma RateTable(code: nat)
    requires code <= 3
    ensures SampleRate(code) ==
            if code == 0 then 487.0 else if code == 1 then 975.0 else if code == 2 then 1990.0 else 3900.0
  {
  }

  /** Each fault names its own key. */
  predicate NameKeys(fs: seq<Option<Fault>>, keys: seq<string>) {
    |fs| == |keys| && forall k :: 0 <= k < |fs| && fs[k].Some? ==> fs[k].value.key == keys[k]
  }

  /** The faults stand in the order in which the parameters are read. */
  lemma FaultsInOrder(params: HardwareParameters, lib: DoubleText)
    ensures NameKeys(
              Faults(params, lib),
              ["master_index", "slave_alias", "slave_position", "vendor_id", "product_code", "revision"] +
              ["read_calibration_sdo", "runtime_diagnostic_sdo", "runtime_diagnostic_sdo_timeout_ms"] +
              ["counts_per_force", "counts_per_torque", "filter_selection", "calibration_slot", "sample_rate_code"] +
              ["expected_sensor_rate_hz", "expected_read_rate_hz"] + ["set_bias_on_activate", "clear_bias_on_activate"])
  {
    AddressKeys(params);
    SdoKeys(params);
    ScaleKeys(params, lib);
    RateKeys(params, lib);
    BiasKeys(params);
    hide AddressFaults, SdoFaults, ScaleFaults, RateFaults, BiasFaults;
  }

  lemma AddressKeys(params: HardwareParameters)
    ensures NameKeys(
              AddressFaults(params),
              ["master_index", "slave_alias", "slave_position", "vendor_id", "product_code", "revision"])
  {
    hide ParseU32, ParseU16, Optional, Decimal;
  }

  lemma SdoKeys(params: HardwareParameters)
    ensures NameKeys(
              SdoFaults(params), ["read_calibration_sdo", "runtime_diagnostic_sdo", "runtime_diagnostic_sdo_timeout_ms"])
  {
    KeysAreKept();
    hide ParseU32, ParseBool, Optional;
  }

  lemma ScaleKeys(params: HardwareParameters, lib: DoubleText)
    ensures NameKeys(
              ScaleFaults(params, lib),
              ["counts_per_force", "counts_per_torque", "filter_selection", "calibration_slot", "sample_rate_code"])
  {
    KeysAreKept();
    hide ParseU8, ParsePositive, Optional;
  }

  lemma RateKeys(params: HardwareParameters, lib: DoubleText)
    ensures NameKeys(RateFaults(params, lib), ["expected_sensor_rate_hz", "expected_read_rate_hz"])
  {
    KeysAreKept();
    hide ParsePositive, Optional, SampleRate, RateCodeIn;
  }

  lemma BiasKeys(params: HardwareParameters)
    ensures NameKeys(BiasFaults(params), ["set_bias_on_activate", "clear_bias_on_activate"])
  {
    KeysAreKept();
    hide ParseBool, Optional;
  }

  lemma KeysAreKept()
    ensures forall text, key :: ParseBool(text, key).Err? ==> ParseBool(text, key).error.key == key
    ensures forall text, key, lib :: ParsePositive(text, key, lib).Err? ==> ParsePositive(text, key, lib).error.key == key
  {
  }

  // ------------------------------------------------------------ expected rates

  /** The sample-counter monitor's threshold for large jumps is at least five times the ratio
      of the rates, rounded up, which it converts to 32 bits. */
  predicate JumpThresholdFits(p: Parsed)
    requires p.readRate > 0.0
  {
    CounterSpec.Ceil(p.sensorRate / p.readRate * 5.0) < TWO32
  }

  lemma ThresholdFitsWhen(p: Parsed)
    requires InRange(p)
    ensures JumpThresholdFits(p) <==> p.sensorRate <= 858_993_459.0 * p.readRate
    ensures JumpThresholdFits(p) <==> CounterSpec.RatesFit(RatesOf(p))
  {
    var ratio := p.sensorRate / p.readRate;
    assert p.sensorRate == ratio * p.readRate;
    CeilFits(ratio * 5.0);
    Scale(ratio, 858_993_459.0, p.readRate);
  }

  lemma CeilFits(x: real)
    ensures CounterSpec.Ceil(x) < TWO32 <==> x <= 4_294_967_295.0
  {
  }

  lemma Scale(x: real, y: real, f: real)
    requires f > 0.0
    ensures x <= y <==> x * f <= y * f
  {
  }

  /** The library prints six decimals of `rate`: what it reads back is off by half a
      millionth, and if it is not 0 at least a millionth (with a margin for binary
      fractions). */
  predicate ShowsMillionths(lib: DoubleText, rate: real) {
    var back := lib.read(lib.show(rate));
    back.DoubleNumber? && back.value.Finite? ==>
      var x := back.value.value;
      -0.000_000_6 <= x - rate <= 0.000_000_6 && (x > 0.0 ==> x >= 0.000_000_9)
  }

  /** The threshold of an accepted configuration fits exactly when the read rate is not below
      the sensor rate by a factor of more than 858 993 459, and then the monitor can work
      with the rates; it always fits when the read rate is left to its default. */
  lemma AcceptedRatesFit(p: Parsed, params: HardwareParameters, lib: DoubleText)
    requires Denotes(p, params, lib)
    ensures p.readRate > 0.0
    ensures JumpThresholdFits(p) <==> p.sensorRate <= 858_993_459.0 * p.readRate
    ensures JumpThresholdFits(p) <==> CounterSpec.RatesFit(RatesOf(p))
    ensures ShowsMillionths(lib, p.sensorRate) && "expected_read_rate_hz" !in params ==> JumpThresholdFits(p)
  {
    hide Denotes, JumpThresholdFits, ShowsMillionths, SaysPositive, CounterSpec.RatesFit;
    AcceptedIsInRange(p, params, lib);
    ThresholdFitsWhen(p);
    if "expected_read_rate_hz" !in params {
      ReadRateIsShown(p, params, lib);
      DefaultRateIsClose(lib, p.sensorRate, p.readRate);
    }
  }

  lemma DefaultRateIsClose(lib: DoubleText, sensorRate: real, readRate: real)
    requires SaysPositive(lib.show(sensorRate), readRate, lib)
    ensures ShowsMillionths(lib, sensorRate) ==> sensorRate <= 858_993_459.0 * readRate
  {
  }

  lemma ReadRateIsShown(p: Parsed, params: HardwareParameters, lib: DoubleText)
    requires Denotes(p, params, lib) && "expected_read_rate_hz" !in params
    ensures SaysPositive(lib.show(p.sensorRate), p.readRate, lib)
  {
    hide SaysInt, SaysBool, SaysPositive;
  }

  /** A library that writes numbers as whole millionths. */
  function Millionths(): DoubleText {
    DoubleText(
      t => if t != "" && AllDigits(t, 10) then DoubleNumber(Finite(Value(t, 10) as real / 1_000_000.0), |t|) else NoDouble,
      r => if r >= 0.0 then Decimal((r * 1_000_000.0 + 0.5).Floor) else "")
  }

  lemma MillionthsAreRead(n: nat)
    ensures Millionths().read(Decimal(n)) == DoubleNumber(Finite(n as real / 1_000_000.0), |Decimal(n)|)
  {
    PrintReads(n, 10);
  }

  /** So there is a library that shows millionths of every rate. */
  lemma MillionthsAreShown(rate: real)
    requires rate > 0.0
    ensures ShowsMillionths(Millionths(), rate)
    ensures Millionths().read(Millionths().show(rate)).DoubleNumber?
  {
    hide Millionths;
    var k: nat := (rate * 1_000_000.0 + 0.5).Floor;
    RateIsShown(rate);
    MillionthsAreRead(k);
    RoundingIsClose(rate, k, k as real / 1_000_000.0);
  }

  lemma RateIsShown(r: real)
    requires r >= 0.0
    ensures Millionths().show(r) == Decimal((r * 1_000_000.0 + 0.5).Floor)
  {
    hide Decimal;
  }

  lemma RoundingIsClose(r: real, k: nat, x: real)
    requires r > 0.0 && k == (r * 1_000_000.0 + 0.5).Floor && x == k as real / 1_000_000.0
    ensures -0.000_000_6 <= x - r <= 0.000_000_6 && (x > 0.0 ==> x >= 0.000_000_9)
  {
    assert x * 1_000_000.0 == k as real;
  }

  const SLOW_READ: HardwareParameters := map["slave_position" := "0", "expected_read_rate_hz" := "0.000001"]

  const SLOWLY_READ: Parsed := Parsed(
    0, 0, 0, VENDOR_ID, PRODUCT_CODE, REVISION, true, true, 5, 1_000_000.0, 1_000_000.0, 0, 0, 1,
    975.0, 0.000_001, false, false)

  /** Reading and printing as the C library does, on the texts that matter below. */
  predicate ReadsAsC(lib: DoubleText) {
    && lib.read("0.000001") == DoubleNumber(Finite(0.000_001), 8)
    && lib.read("1000000") == DoubleNumber(Finite(1_000_000.0), 7)
    && lib.read(lib.show(975.0)) == DoubleNumber(Finite(975.0), |lib.show(975.0)|)
  }

  lemma SomeLibraryReadsAsC() returns (lib: DoubleText)
    ensures ReadsAsC(lib)
  {
    lib := DoubleText(
      t =>
        if t == "0.000001" then DoubleNumber(Finite(0.000_001), 8)
        else if t == "1000000" then DoubleNumber(Finite(1_000_000.0), 7)
        else if t == "975.000000" then DoubleNumber(Finite(975.0), 10)
        else NoDouble,
      r => "975.000000");
    assert |"0.000001"| == 8 && |"1000000"| == 7 && |"975.000000"| == 10;
  }

  /** But not every accepted configuration fits: a read rate of a millionth does not. */
  lemma AcceptedRatesMayNotFit(lib: DoubleText)
    requires ReadsAsC(lib)
    ensures Denotes(SLOWLY_READ, SLOW_READ, lib) && !JumpThresholdFits(SLOWLY_READ)
  {
    hide AddressesSaid, ScalesSaid, RatesSaid, SdoSaid, BiasSaid, SLOW_READ, SLOWLY_READ, JumpThresholdFits, ReadsAsC;
    SlowAddresses();
    SlowScales(lib);
    SlowRates(lib);
    SlowSdo();
    SlowBias();
    SlowThreshold();
  }

  lemma SlowThreshold()
    ensures SLOWLY_READ.readRate > 0.0 && !JumpThresholdFits(SLOWLY_READ)
  {
    ThresholdFitsWhen(SLOWLY_READ);
  }

  lemma SlowBias()
    ensures BiasSaid(SLOWLY_READ, SLOW_READ)
  {
  }

  lemma SlowAddresses()
    ensures AddressesSaid(SLOWLY_READ, SLOW_READ)
  {
    hide SaysInt, Decimal;
    SmallTexts();
    DecimalSays(0);
    DecimalSays(VENDOR_ID);
    DecimalSays(PRODUCT_CODE);
    DecimalSays(REVISION);
  }

  lemma SlowSdo()
    ensures SdoSaid(SLOWLY_READ, SLOW_READ)
  {
    hide SaysInt, Decimal;
    SmallTexts();
    DecimalSays(5);
  }

  lemma SlowScales(lib: DoubleText)
    requires ReadsAsC(lib)
    ensures ScalesSaid(SLOWLY_READ, SLOW_READ, lib)
  {
    hide SaysInt, Decimal;
    SmallTexts();
    DecimalSays(0);
    DecimalSays(1);
  }

  lemma SlowRates(lib: DoubleText)
    requires ReadsAsC(lib)
    ensures RatesSaid(SLOWLY_READ, SLOW_READ, lib)
  {
    assert |"0.000001"| == 8;
  }

  lemma DecimalSays(n: uint32)
    ensures SaysInt(Decimal(n), MAX32, n)
    ensures n < 0x1_0000 ==> SaysInt(Decimal(n), 0xFFFF, n)
    ensures forall max: nat :: n <= max < 0x100 ==> SaysInt(Decimal(n), max, n)
  {
    hide DenotesInt;
    DecimalDenotes(n);
    assert DenotesInt(Decimal(n), n);
  }

  lemma SmallTexts()
    ensures Decimal(0) == "0" && Decimal(1) == "1" && Decimal(5) == "5"
  {
  }

  /** Where the selections of a configuration stand in the control word. */
  lemma SelectionBits(p: Parsed)
    requires p.filter <= 8 && p.slot <= 1 && p.rateCode <= 3
    ensures var bits := EthercatDriver.ControlWord(SelectionOf(p)).bits;
            && (bits >> 4) & 0xF == p.filter as bv32
            && (bits >> 8) & 0xF == p.slot as bv32
            && (bits >> 12) & 0xF == p.rateCode as bv32
            && bits & 0xFFFF_000F == 0
  {
    SmallFields(p.filter, p.slot, p.rateCode, p.filter as bv8, p.slot as bv8, p.rateCode as bv8);
    hide EthercatDriver.ControlWord, EthercatDriver.ControlBits;
  }

  lemma SmallFields(filter: nat, slot: nat, rate: nat, f: bv8, s: bv8, r: bv8)
    requires filter <= 8 && slot <= 1 && rate <= 3 && f == filter as bv8 && s == slot as bv8 && r == rate as bv8
    ensures var bits := EthercatDriver.ControlWord(EthercatDriver.Selection(f, s, r)).bits;
            && (bits >> 4) & 0xF == filter as bv32
            && (bits >> 8) & 0xF == slot as bv32
            && (bits >> 12) & 0xF == rate as bv32
            && bits & 0xFFFF_000F == 0
  {
    FieldIsKept(filter);
    FieldIsKept(slot);
    FieldIsKept(rate);
    EthercatDriver.SmallSelection(EthercatDriver.Selection(f, s, r));
    hide EthercatDriver.ControlWord, EthercatDriver.ControlBits;
  }

  lemma FieldIsKept(n: nat)
    requires n <= 8
    ensures (n as bv8) as bv32 == n as bv32 && n as bv8 <= 0xF
  {
    assert n == 0 || n == 1 || n == 2 || n == 3 || n == 4 || n == 5 || n == 6 || n == 7 || n == 8;
  }

  lemma SmallIntsFitABitVector(m: nat, n: nat)
    requires m <= 8 && n <= 8 && (m as bv8) & 0x0F == (n as bv8) & 0x0F
    ensures m == n
  {
  }

  /** From accepted parameters to the control word nothing is lost: equal words come from
      equal filter, slot and rate selections, and only bits 4 to 15 are used. */
  lemma ConfigurationIsLossless(p: Parsed, q: Parsed)
    requires p.filter <= 8 && p.slot <= 1 && p.rateCode <= 3
    requires q.filter <= 8 && q.slot <= 1 && q.rateCode <= 3
    ensures EthercatDriver.ControlWord(SelectionOf(p)) == EthercatDriver.ControlWord(SelectionOf(q)) <==>
            p.filter == q.filter && p.slot == q.slot && p.rateCode == q.rateCode
    ensures EthercatDriver.ControlWord(SelectionOf(p)).bits & 0xFFFF_000F == 0
  {
    var s, t := SelectionOf(p), SelectionOf(q);
    EthercatDriver.ControlWordIsLossless(s);
    EthercatDriver.ControlWordIsLossless(t);
    if EthercatDriver.ControlWord(s) == EthercatDriver.ControlWord(t) {
      SmallIntsFitABitVector(p.filter, q.filter);
      SmallIntsFitABitVector(p.slot, q.slot);
      SmallIntsFitABitVector(p.rateCode, q.rateCode);
    }
  }
}
