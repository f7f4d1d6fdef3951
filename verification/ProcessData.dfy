/** Bytes on the wire: the process data of a cycle and the replies to SDO uploads. */
module ProcessData {
  import opened Machine

  type uint8 = n: int | 0 <= n < 0x100
  type Int32 = n: int | -0x8000_0000 <= n < 0x8000_0000

  // ------------------------------------------------------ little-endian numbers

  function U16At(data: seq<uint8>, at: nat): (n: nat)
    requires at + 2 <= |data|
    ensures n < 0x1_0000
  {
    var low: nat, high: nat := data[at], data[at + 1];
    low + high * 0x100
  }

  function U32At(data: seq<uint8>, at: nat): uint32
    requires at + 4 <= |data|
  {
    U16At(data, at) + U16At(data, at + 2) * 0x1_0000
  }

  /** A word read as a two's complement number of `bits` values. */
  function Signed(n: nat, values: nat): int {
    if n < values / 2 then n else n - values
  }

  function S32At(data: seq<uint8>, at: nat): Int32
    requires at + 4 <= |data|
  {
    Signed(U32At(data, at), TWO32)
  }

  function Bytes(v: uint32): (data: seq<uint8>)
    ensures |data| == 4
  {
    [v % 0x100, v / 0x100 % 0x100, v / 0x1_0000 % 0x100, v / 0x100_0000]
  }

  /** The data with `v` written at `at`. */
  function Written(data: seq<uint8>, at: nat, v: uint32): (now: seq<uint8>)
    requires at + 4 <= |data|
    ensures |now| == |data|
  {
    data[..at] + Bytes(v) + data[at + 4..]
  }

  /** The bytes stand lowest first, and the top half of the range is negative. */
  lemma LittleEndian(data: seq<uint8>, at: nat)
    requires at + 4 <= |data|
    ensures U16At(data, at) as int == (data[at] as int) + 256 * (data[at + 1] as int)
    ensures U32At(data, at) as int ==
            (data[at] as int) + 256 * (data[at + 1] as int) + 65536 * (data[at + 2] as int) + 16777216 * (data[at + 3] as int)
    ensures (S32At(data, at) as int) % 4294967296 == U32At(data, at) as int
    ensures Signed(U16At(data, at), 0x1_0000) % 65536 == U16At(data, at)
    ensures -32768 <= Signed(U16At(data, at), 0x1_0000) < 32768
  {
  }

  /** Several words written one after the other. */
  function WrittenAll(data: seq<uint8>, entries: seq<(nat, uint32)>): (now: seq<uint8>)
    requires forall k :: 0 <= k < |entries| ==> entries[k].0 + 4 <= |data|
    ensures |now| == |data|
  {
    if entries == [] then data
    else
      var n := |entries| - 1;
      Written(WrittenAll(data, entries[..n]), entries[n].0, entries[n].1)
  }

  lemma {:induction false} AllAreRead(data: seq<uint8>, entries: seq<(nat, uint32)>)
    requires forall k :: 0 <= k < |entries| ==> entries[k].0 + 4 <= |data|
    requires forall j, k :: 0 <= j < k < |entries| ==> Apart(entries[j].0, entries[k].0)
    ensures forall k :: 0 <= k < |entries| ==> U32At(WrittenAll(data, entries), entries[k].0) == entries[k].1
  {
    hide U32At, Written;
    if entries == [] {
    } else {
      var n := |entries| - 1;
      AllAreRead(data, entries[..n]);
      WrittenIsRead(WrittenAll(data, entries[..n]), entries[n].0, entries[n].1);
      assert forall k :: 0 <= k < n ==> entries[..n][k] == entries[k];
      assert forall k :: 0 <= k < n ==> Apart(entries[k].0, entries[n].0);
    }
  }

  /** What is written is read back, and nothing else is disturbed. */
  lemma WrittenIsRead(data: seq<uint8>, at: nat, v: uint32)
    requires at + 4 <= |data|
    ensures U32At(Written(data, at, v), at) == v
    ensures forall i :: 0 <= i <= |data| - 4 && (i + 4 <= at || at + 4 <= i) ==>
              U32At(Written(data, at, v), i) == U32At(data, i)
  {
    var now := Written(data, at, v);
    assert now[at] == v % 0x100 && now[at + 1] == v / 0x100 % 0x100;
    assert now[at + 2] == v / 0x1_0000 % 0x100 && now[at + 3] == v / 0x100_0000;
    BytesAddUp(v);
    assert forall i :: 0 <= i < |data| && (i < at || at + 4 <= i) ==> now[i] == data[i];
  }

  lemma BytesAddUp(v: uint32)
    ensures v % 0x100 + v / 0x100 % 0x100 * 0x100 + (v / 0x1_0000 % 0x100 + v / 0x100_0000 * 0x100) * 0x1_0000 == v
  {
    var second: nat := v / 0x100;
    var third := second / 0x100;
    var a, b, c := v % 0x100, second % 0x100, third % 0x100;
    LowPart(v, a + 0x100 * b, third, 0x1_0000);
    LowPart(v, a + 0x100 * b + 0x1_0000 * c, third / 0x100, 0x100_0000);
  }

  /** Four bytes are told apart by their number. */
  lemma BytesAreRead(data: seq<uint8>)
    requires |data| == 4
    ensures Bytes(U32At(data, 0)) == data
  {
    var a: nat, b: nat, c: nat, d: nat := data[0], data[1], data[2], data[3];
    var v: nat := U32At(data, 0);
    LowPart(v, a, b + 0x100 * c + 0x1_0000 * d, 0x100);
    LowPart(v / 0x100, b, c + 0x100 * d, 0x100);
    LowPart(v, a + 0x100 * b, c + 0x100 * d, 0x1_0000);
    LowPart(v / 0x1_0000, c, d, 0x100);
    LowPart(v, a + 0x100 * b + 0x1_0000 * c, d, 0x100_0000);
  }

  lemma LowPart(v: nat, low: nat, high: nat, base: nat)
    requires low < base && v == low + base * high
    ensures v / base == high && v % base == low
  {
    Steps(base, high, v / base);
    Steps(base, v / base, high);
  }

  lemma {:induction false} Steps(base: nat, x: nat, y: nat)
    ensures x < y ==> base * x + base <= base * y
    decreases y
  {
    if y <= x {
    } else {
      assert base * y == base * (y - 1) + base;
      Steps(base, x, y - 1);
    }
  }

  // --------------------------------------------------------- the process data

  /** Where the master library placed the entries. */
  datatype Offsets = Offsets(counts: seq<nat>, statusCode: nat, sampleCounter: nat, control1: nat, control2: nat)

  predicate Apart(i: nat, j: nat) {
    i + 4 <= j || j + 4 <= i
  }

  /** Every entry has its four bytes, and the control words are apart from all others. */
  predicate Placed(o: Offsets, size: nat) {
    && |o.counts| == 6 && (forall k :: 0 <= k < 6 ==> o.counts[k] + 4 <= size)
    && o.statusCode + 4 <= size && o.sampleCounter + 4 <= size && o.control1 + 4 <= size && o.control2 + 4 <= size
    && Apart(o.control1, o.control2)
    && IsApart(o, o.control1) && IsApart(o, o.control2)
  }

  predicate IsApart(o: Offsets, control: nat) {
    && (forall k :: 0 <= k < |o.counts| ==> Apart(control, o.counts[k]))
    && Apart(control, o.statusCode) && Apart(control, o.sampleCounter)
  }

  datatype Inputs = Inputs(counts: seq<Int32>, statusCode: bv32, sampleCounter: uint32)

  function Decode(data: seq<uint8>, o: Offsets): (inputs: Inputs)
    requires Placed(o, |data|)
    ensures |inputs.counts| == 6
  {
    Inputs(
      seq(6, k requires 0 <= k < 6 => S32At(data, o.counts[k])),
      U32At(data, o.statusCode) as bv32,
      U32At(data, o.sampleCounter))
  }

  /** What the sensor puts into its process data. */
  function Encoded(data: seq<uint8>, o: Offsets, counts: seq<Int32>, statusCode: uint32, counter: uint32): (now: seq<uint8>)
    requires Placed(o, |data|) && |counts| == 6
    ensures |now| == |data|
  {
    WrittenAll(data, Entries(o, counts, statusCode, counter))
  }

  /** The words of the inputs and their places. */
  function Entries(o: Offsets, counts: seq<Int32>, statusCode: uint32, counter: uint32): (es: seq<(nat, uint32)>)
    requires |o.counts| == 6 && |counts| == 6
    ensures |es| == 8
  {
    [ (o.counts[0], (counts[0] as int) % 0x1_0000_0000), (o.counts[1], (counts[1] as int) % 0x1_0000_0000),
      (o.counts[2], (counts[2] as int) % 0x1_0000_0000), (o.counts[3], (counts[3] as int) % 0x1_0000_0000),
      (o.counts[4], (counts[4] as int) % 0x1_0000_0000), (o.counts[5], (counts[5] as int) % 0x1_0000_0000),
      (o.statusCode, statusCode), (o.sampleCounter, counter) ]
  }

  predicate InputsApart(o: Offsets)
    requires |o.counts| == 6
  {
    var places := o.counts + [o.statusCode, o.sampleCounter];
    forall j, k :: 0 <= j < k < 8 ==> Apart(places[j], places[k])
  }

  /** The counts, the status code and the counter are recovered from the process data. */
  lemma EncodedIsDecoded(data: seq<uint8>, o: Offsets, counts: seq<Int32>, statusCode: uint32, counter: uint32)
    requires Placed(o, |data|) && |counts| == 6 && InputsApart(o)
    ensures var inputs := Decode(Encoded(data, o, counts, statusCode, counter), o);
            inputs.counts == counts && inputs.statusCode == statusCode as bv32 && inputs.sampleCounter == counter
  {
    hide U32At, S32At, Written, WrittenAll;
    var es, places := Entries(o, counts, statusCode, counter), o.counts + [o.statusCode, o.sampleCounter];
    assert forall k :: 0 <= k < 8 ==> es[k].0 == places[k];
    AllAreRead(data, es);
    var now := Encoded(data, o, counts, statusCode, counter);
    forall k | 0 <= k < 6
      ensures S32At(now, o.counts[k]) == counts[k]
    {
      assert es[k] == (o.counts[k], (counts[k] as int) % 0x1_0000_0000);
      assert U32At(now, es[k].0) == es[k].1;
      SignedIsRead(now, o.counts[k], counts[k]);
    }
    assert U32At(now, es[6].0) == es[6].1 && U32At(now, es[7].0) == es[7].1;
  }

  lemma SignedIsRead(data: seq<uint8>, at: nat, v: Int32)
    requires at + 4 <= |data| && U32At(data, at) == (v as int) % 0x1_0000_0000
    ensures S32At(data, at) == v
  {
    hide U32At;
  }

  function WithControls(data: seq<uint8>, o: Offsets, control1: uint32, control2: uint32): (now: seq<uint8>)
    requires Placed(o, |data|)
    ensures |now| == |data|
  {
    Written(Written(data, o.control1, control1), o.control2, control2)
  }

  /** Both control words reach the wire, and writing them disturbs no input. */
  lemma ControlsAreApart(data: seq<uint8>, o: Offsets, control1: uint32, control2: uint32)
    requires Placed(o, |data|)
    ensures var now := WithControls(data, o, control1, control2);
            && U32At(now, o.control1) == control1 && U32At(now, o.control2) == control2
            && Decode(now, o) == Decode(data, o)
  {
    hide U32At, Written, Signed;
    WrittenIsRead(data, o.control1, control1);
    WrittenIsRead(Written(data, o.control1, control1), o.control2, control2);
    var now := WithControls(data, o, control1, control2);
    assert forall k :: 0 <= k < 6 ==> U32At(now, o.counts[k]) == U32At(data, o.counts[k]);
    assert Decode(now, o).counts == Decode(data, o).counts;
  }

  // ---------------------------------------------------------------- SDO uploads

  /** The reply to an upload; None where it failed or was longer than asked for. */
  type Upload = Option<seq<uint8>>

  datatype DiagnosticUploads = DiagnosticUploads(voltage: Upload, temperature: Upload, message: Upload)

  datatype CalibrationUploads = CalibrationUploads(
    serial: Upload, partNumber: Upload, time: Upload, force: Upload, torque: Upload)

  predicate HasSize(u: Upload, size: nat) {
    u.Some? && |u.value| == size
  }

  /** The text up to the first zero byte. */
  function CleanString(data: seq<uint8>): string {
    if data == [] || data[0] == 0 then "" else [data[0] as char] + CleanString(data[1..])
  }

  /** It is the longest part without a zero. */
  lemma {:induction false} CleanStringMeaning(data: seq<uint8>)
    ensures var text := CleanString(data);
            && |text| <= |data| && (|text| < |data| ==> data[|text|] == 0)
            && forall i :: 0 <= i < |text| ==> data[i] != 0 && text[i] == data[i] as char
  {
    if data == [] || data[0] == 0 {
    } else {
      CleanStringMeaning(data[1..]);
    }
  }

  /** Voltage and temperature in tenths, and the sensor's own message. */
  datatype RawReadings = RawReadings(voltage: int, temperature: int, message: string)

  function ReadingsIn(u: DiagnosticUploads): Option<RawReadings> {
    if HasSize(u.voltage, 2) && HasSize(u.temperature, 2) && u.message.Some? then
      Some(RawReadings(
        U16At(u.voltage.value, 0), Signed(U16At(u.temperature.value, 0), 0x1_0000), CleanString(u.message.value)))
    else None
  }

  function ScalesIn(u: CalibrationUploads): Option<(uint32, uint32)> {
    if u.serial.Some? && u.partNumber.Some? && u.time.Some? && HasSize(u.force, 4) && HasSize(u.torque, 4) then
      Some((U32At(u.force.value, 0), U32At(u.torque.value, 0)))
    else None
  }

  /** A calibration's scales are those whose bytes are the replies, force before torque. */
  lemma ScalesMeaning(u: CalibrationUploads, force: uint32, torque: uint32)
    ensures ScalesIn(u) == Some((force, torque)) <==>
            && u.serial.Some? && u.partNumber.Some? && u.time.Some?
            && u.force == Some(Bytes(force)) && u.torque == Some(Bytes(torque))
  {
    hide U32At, Bytes;
    if HasSize(u.force, 4) && HasSize(u.torque, 4) {
      BytesAreRead(u.force.value);
      BytesAreRead(u.torque.value);
      NumberIsRead(force);
      NumberIsRead(torque);
    }
  }

  lemma NumberIsRead(v: uint32)
    ensures U32At(Bytes(v), 0) == v
  {
    BytesAddUp(v);
  }
}
