/** The sensor's status word as text and as a diagnostic level. */
module StatusBits {
  import opened Machine
  import opened Text

  datatype StatusBit = StatusBit(bit: nat, name: string)

  const STATUS_BITS: seq<StatusBit> := [
    StatusBit(0, "internal temperature out of range"),
    StatusBit(1, "supply voltage out of range"),
    StatusBit(2, "broken gage"),
    StatusBit(3, "busy"),
    StatusBit(5, "hardware or stack error"),
    StatusBit(26, "gage out-of-range warning"),
    StatusBit(27, "gage out of range"),
    StatusBit(28, "simulated error"),
    StatusBit(29, "calibration checksum error"),
    StatusBit(30, "sensing range exceeded"),
    StatusBit(31, "error summary")
  ]

  const NO_ACTIVE_BITS := "no active status bits"

  predicate IsSet(code: bv32, bit: nat)
    requires bit < 32
  {
    code & ((1 as bv32) << bit) != 0
  }

  /** How one bit is shown. */
  function Entry(b: StatusBit): string {
    "bit " + Decimal(b.bit) + " " + b.name
  }

  predicate Listed(code: bv32, k: nat)
    requires k < |STATUS_BITS|
  {
    IsSet(code, STATUS_BITS[k].bit)
  }

  /** The entries of the set bits, from the `k`th listed bit on. */
  function Parts(code: bv32, k: nat): seq<string>
    requires k <= |STATUS_BITS|
    decreases |STATUS_BITS| - k
  {
    if k == |STATUS_BITS| then []
    else (if Listed(code, k) then [Entry(STATUS_BITS[k])] else []) + Parts(code, k + 1)
  }

  function Join(parts: seq<string>): string {
    if parts == [] then ""
    else parts[0] + if |parts| == 1 then "" else "; " + Join(parts[1..])
  }

  function Describe(code: bv32): string {
    if Parts(code, 0) == [] then NO_ACTIVE_BITS else Join(Parts(code, 0))
  }

  /** The loop over the table, appending to a stream. */
  method DescribeStatusBits(code: bv32) returns (text: string)
    ensures text == Describe(code)
  {
    var stream := "";
    var first := true;
    var k := 0;
    ghost var done := [];
    hide Parts, Join, Entry, Listed, IsSet;
    NothingJoined();
    while k < |STATUS_BITS|
      invariant 0 <= k <= |STATUS_BITS|
      invariant done + Parts(code, k) == Parts(code, 0)
      invariant first <==> done == []
      invariant stream == Join(done)
    {
      NextPart(code, k);
      if IsSet(code, STATUS_BITS[k].bit) {
        var entry := Entry(STATUS_BITS[k]);
        JoinOneMore(done, entry);
        done := done + [entry];
        if !first {
          stream := stream + "; ";
        }
        stream := stream + entry;
        first := false;
      }
      k := k + 1;
    }
    NoneLeft(code);
    assert done == Parts(code, 0);
    text := if first then NO_ACTIVE_BITS else stream;
  }

  lemma NothingJoined()
    ensures Join([]) == ""
  {
  }

  lemma NoneLeft(code: bv32)
    ensures Parts(code, |STATUS_BITS|) == []
  {
  }

  lemma NextPart(code: bv32, k: nat)
    requires k < |STATUS_BITS|
    ensures Listed(code, k) == IsSet(code, STATUS_BITS[k].bit)
    ensures Parts(code, k) == if Listed(code, k) then [Entry(STATUS_BITS[k])] + Parts(code, k + 1) else Parts(code, k + 1)
  {
  }

  lemma {:induction false} JoinOneMore(parts: seq<string>, part: string)
    ensures Join(parts + [part]) == (if parts == [] then "" else Join(parts) + "; ") + part
  {
    if parts == [] {
    } else {
      JoinOneMore(parts[1..], part);
      assert (parts + [part])[1..] == parts[1..] + [part];
    }
  }

  function StatusCodeLevel(code: bv32): Level {
    if code == 0 then OK
    else if code & 0x400_0000 != 0 && code & !0x400_0000 == 0 then WARN
    else ERROR
  }

  // ------------------------------------------------- the text determines the bits

  /** The decimal number after "bit " tells the entries apart, whatever follows them. */
  lemma EntriesDiffer(j: nat, s: string, k: nat, t: string)
    requires j < |STATUS_BITS| && k < |STATUS_BITS| && Entry(STATUS_BITS[j]) + s == Entry(STATUS_BITS[k]) + t
    ensures j == k
  {
    var a, b := STATUS_BITS[j], STATUS_BITS[k];
    PrintReads(a.bit, 10);
    PrintReads(b.bit, 10);
    assert Entry(a) + s == "bit " + Decimal(a.bit) + " " + (a.name + s);
    assert Entry(b) + t == "bit " + Decimal(b.bit) + " " + (b.name + t);
    SameNumber(Decimal(a.bit), a.name + s, Decimal(b.bit), b.name + t);
    SameBit(j, k);
  }

  lemma SameBit(j: nat, k: nat)
    requires j < |STATUS_BITS| && k < |STATUS_BITS| && STATUS_BITS[j].bit == STATUS_BITS[k].bit
    ensures j == k
  {
  }

  lemma SameNumber(a: string, s: string, b: string, t: string)
    requires AllDigits(a, 10) && AllDigits(b, 10)
    requires "bit " + a + " " + s == "bit " + b + " " + t
    ensures a == b
  {
    var text := "bit " + a + " " + s;
    assert text[4 + |a|] == ' ' && text[4 + |b|] == ' ';
    assert forall i :: 0 <= i < |a| ==> text[4 + i] == a[i];
    assert forall i :: 0 <= i < |b| ==> text[4 + i] == b[i];
    assert |a| == |b|;
  }

  lemma {:induction false} FirstPart(code: bv32, k: nat) returns (m: nat)
    requires k <= |STATUS_BITS| && Parts(code, k) != []
    ensures k <= m < |STATUS_BITS| && Parts(code, k)[0] == Entry(STATUS_BITS[m])
    decreases |STATUS_BITS| - k
  {
    if Listed(code, k) {
      m := k;
    } else {
      m := FirstPart(code, k + 1);
    }
  }

  lemma JoinStartsWithFirst(parts: seq<string>) returns (rest: string)
    requires parts != []
    ensures Join(parts) == parts[0] + rest
    ensures |parts| == 1 ==> rest == ""
    ensures |parts| > 1 ==> rest == "; " + Join(parts[1..])
  {
    rest := if |parts| == 1 then "" else "; " + Join(parts[1..]);
  }

  /** If only one of two texts shows bit `k` next, they differ. */
  lemma OneShowsNext(a: bv32, b: bv32, k: nat)
    requires k < |STATUS_BITS| && Listed(a, k) && !Listed(b, k)
    ensures Join(Parts(a, k)) != Join(Parts(b, k))
  {
    hide Entry;
    var rest := JoinStartsWithFirst(Parts(a, k));
    EntryStartsWithB(k);
    if Parts(b, k) != [] && Join(Parts(a, k)) == Join(Parts(b, k)) {
      var m := FirstPart(b, k + 1);
      var other := JoinStartsWithFirst(Parts(b, k));
      EntriesDiffer(k, rest, m, other);
      assert false;
    }
  }

  lemma EntryStartsWithB(k: nat)
    requires k < |STATUS_BITS|
    ensures Entry(STATUS_BITS[k]) != "" && Entry(STATUS_BITS[k])[0] == 'b'
  {
  }

  lemma {:induction false} TextShowsBits(a: bv32, b: bv32, k: nat)
    requires k <= |STATUS_BITS| && Join(Parts(a, k)) == Join(Parts(b, k))
    ensures forall j :: k <= j < |STATUS_BITS| ==> (Listed(a, j) <==> Listed(b, j))
    decreases |STATUS_BITS| - k
  {
    hide Entry, Listed, Parts, Join;
    if k == |STATUS_BITS| {
    } else {
      NextPart(a, k);
      NextPart(b, k);
      if Listed(a, k) && !Listed(b, k) {
        OneShowsNext(a, b, k);
      } else if Listed(b, k) && !Listed(a, k) {
        OneShowsNext(b, a, k);
      } else {
        if Listed(a, k) {
          SameRest(Entry(STATUS_BITS[k]), Parts(a, k + 1), Parts(b, k + 1));
        }
        TextShowsBits(a, b, k + 1);
      }
    }
  }

  lemma SameRest(e: string, s: seq<string>, t: seq<string>)
    requires Join([e] + s) == Join([e] + t)
    ensures Join(s) == Join(t)
  {
    var u := JoinStartsWithFirst([e] + s);
    var v := JoinStartsWithFirst([e] + t);
    assert ([e] + s)[1..] == s && ([e] + t)[1..] == t;
    assert (e + u)[|e|..] == u && (e + v)[|e|..] == v;
    if s != [] && t != [] {
      assert ("; " + Join(s))[2..] == Join(s) && ("; " + Join(t))[2..] == Join(t);
    }
  }

  lemma {:induction false} SameBitsSameParts(a: bv32, b: bv32, k: nat)
    requires k <= |STATUS_BITS|
    requires forall j :: k <= j < |STATUS_BITS| ==> (Listed(a, j) <==> Listed(b, j))
    ensures Parts(a, k) == Parts(b, k)
    decreases |STATUS_BITS| - k
  {
    if k == |STATUS_BITS| {
    } else {
      SameBitsSameParts(a, b, k + 1);
    }
  }

  /** The description is faithful: two codes read the same exactly when they agree on the
      eleven listed bits. */
  lemma DescriptionIsFaithful(a: bv32, b: bv32)
    ensures Describe(a) == Describe(b) <==> forall k :: 0 <= k < |STATUS_BITS| ==> (Listed(a, k) <==> Listed(b, k))
  {
    hide Listed;
    if Describe(a) == Describe(b) {
      if Parts(a, 0) != [] {
        PartsAreNotTheEmptyText(a);
      }
      if Parts(b, 0) != [] {
        PartsAreNotTheEmptyText(b);
      }
      TextShowsBits(a, b, 0);
    }
    if forall k :: 0 <= k < |STATUS_BITS| ==> (Listed(a, k) <==> Listed(b, k)) {
      SameBitsSameParts(a, b, 0);
    }
  }

  lemma PartsAreNotTheEmptyText(code: bv32)
    requires Parts(code, 0) != []
    ensures Join(Parts(code, 0)) != NO_ACTIVE_BITS && Join(Parts(code, 0)) != ""
  {
    hide Entry;
    var m := FirstPart(code, 0);
    EntryStartsWithB(m);
    var rest := JoinStartsWithFirst(Parts(code, 0));
    assert Join(Parts(code, 0))[0] == 'b';
  }

  lemma {:induction false} NoParts(code: bv32, k: nat)
    requires k <= |STATUS_BITS|
    ensures Parts(code, k) == [] <==> forall j :: k <= j < |STATUS_BITS| ==> !Listed(code, j)
    decreases |STATUS_BITS| - k
  {
    hide Listed;
    if k == |STATUS_BITS| {
    } else {
      NoParts(code, k + 1);
    }
  }

  /** "No active status bits" means that no listed bit is set, which the level OK implies;
      but a code with unlisted bits only reads the same and has level ERROR. */
  lemma NoActiveBitsText(code: bv32)
    ensures Describe(code) == NO_ACTIVE_BITS <==> forall k :: 0 <= k < |STATUS_BITS| ==> !Listed(code, k)
    ensures StatusCodeLevel(code) == OK ==> Describe(code) == NO_ACTIVE_BITS
    ensures Describe(code) == NO_ACTIVE_BITS && StatusCodeLevel(code) != OK <==>
            code != 0 && code & 0xFC00_002F == 0
    ensures Describe(code) == NO_ACTIVE_BITS && code != 0 ==> StatusCodeLevel(code) == ERROR
  {
    NoParts(code, 0);
    ListedBits(code);
    if Parts(code, 0) != [] {
      PartsAreNotTheEmptyText(code);
    }
    NothingSetInZero();
    if Parts(code, 0) == [] {
      assert !Listed(code, 5);
      BitTwentySix(code);
    }
  }

  /** A code that reads as if nothing were active, at level ERROR: bit 4 is not listed. */
  lemma UnlistedBitReadsAsNone()
    ensures Describe(0x10) == NO_ACTIVE_BITS && StatusCodeLevel(0x10) == ERROR
  {
    hide Describe;
    NoActiveBitsText(0x10);
  }

  /** The listed bits as a mask. */
  lemma ListedBits(code: bv32)
    ensures (forall k :: 0 <= k < |STATUS_BITS| ==> !Listed(code, k)) <==> code & 0xFC00_002F == 0
  {
    var low := Listed(code, 0) || Listed(code, 1) || Listed(code, 2) || Listed(code, 3) || Listed(code, 4);
    var high := Listed(code, 5) || Listed(code, 6) || Listed(code, 7) || Listed(code, 8) || Listed(code, 9) || Listed(code, 10);
    assert low <==> code & 0x2F != 0;
    assert high <==> code & 0xFC00_0000 != 0;
  }

  lemma NothingSetInZero()
    ensures forall k :: 0 <= k < |STATUS_BITS| ==> !Listed(0, k)
  {
  }

  lemma BitTwentySix(code: bv32)
    ensures Listed(code, 5) <==> code & 0x400_0000 != 0
  {
    assert (1 as bv32) << 26 == 0x400_0000;
  }

  /** A warning is the gage warning bit and nothing else; everything else is an error. */
  lemma WarningIsTheGageWarningAlone(code: bv32)
    ensures StatusCodeLevel(code) == WARN <==> code == 0x400_0000
    ensures StatusCodeLevel(code) == OK <==> code == 0
    ensures StatusCodeLevel(code) == ERROR <==> code != 0 && code != 0x400_0000
  {
  }

  const MASKS: seq<bv32> := [
    0x1, 0x2, 0x4, 0x8, 0x20,
    0x400_0000, 0x800_0000, 0x1000_0000, 0x2000_0000, 0x4000_0000, 0x8000_0000
  ]

  predicate Meets(a: bv32, b: bv32) {
    a & b != 0
  }

  lemma MaskIsBit(k: nat)
    requires k < 11
    ensures |STATUS_BITS| == 11 && MASKS[k] == (1 as bv32) << STATUS_BITS[k].bit
  {
  }

  lemma ListedMask(code: bv32, k: nat)
    requires k < 11
    ensures |STATUS_BITS| == 11 && (Listed(code, k) <==> Meets(code, MASKS[k]))
  {
    MaskIsBit(k);
    hide MASKS, STATUS_BITS;
  }

  lemma EntryTexts()
    ensures Entry(STATUS_BITS[0]) == "bit " + "0" + " " + "internal temperature out of range"
    ensures Entry(STATUS_BITS[1]) == "bit " + "1" + " " + "supply voltage out of range"
    ensures Entry(STATUS_BITS[2]) == "bit " + "2" + " " + "broken gage"
    ensures Entry(STATUS_BITS[3]) == "bit " + "3" + " " + "busy"
    ensures Entry(STATUS_BITS[4]) == "bit " + "5" + " " + "hardware or stack error"
    ensures Entry(STATUS_BITS[5]) == "bit " + "26" + " " + "gage out-of-range warning"
    ensures Entry(STATUS_BITS[6]) == "bit " + "27" + " " + "gage out of range"
    ensures Entry(STATUS_BITS[7]) == "bit " + "28" + " " + "simulated error"
    ensures Entry(STATUS_BITS[8]) == "bit " + "29" + " " + "calibration checksum error"
    ensures Entry(STATUS_BITS[9]) == "bit " + "30" + " " + "sensing range exceeded"
    ensures Entry(STATUS_BITS[10]) == "bit " + "31" + " " + "error summary"
  {
    TwoDigits();
  }

  lemma TwoDigits()
    ensures Decimal(0) == "0"
    ensures Decimal(1) == "1"
    ensures Decimal(2) == "2"
    ensures Decimal(3) == "3"
    ensures Decimal(5) == "5"
    ensures Decimal(26) == "26"
    ensures Decimal(27) == "27"
    ensures Decimal(28) == "28"
    ensures Decimal(29) == "29"
    ensures Decimal(30) == "30"
    ensures Decimal(31) == "31"
  {
  }

  lemma {:induction false} OnlyPart(code: bv32, k: nat, from: nat)
    requires k < |STATUS_BITS| && from <= |STATUS_BITS|
    requires forall j :: 0 <= j < |STATUS_BITS| ==> (Listed(code, j) <==> j == k)
    ensures Parts(code, from) == if from <= k then [Entry(STATUS_BITS[k])] else []
    decreases |STATUS_BITS| - from
  {
    hide Listed, Entry;
    if from == |STATUS_BITS| {
    } else {
      OnlyPart(code, k, from + 1);
    }
  }

  lemma DescribesOneBit(k: nat)
    requires k < 11
    ensures Describe(MASKS[k]) == Entry(STATUS_BITS[k])
  {
    assert |STATUS_BITS| == 11;
    ListedOne(k);
    hide Listed, Entry, Parts, MASKS, STATUS_BITS;
    OnlyPart(MASKS[k], k, 0);
  }

  lemma ListedOne(k: nat)
    requires k < 11
    ensures forall j :: 0 <= j < |STATUS_BITS| ==> (Listed(MASKS[k], j) <==> j == k)
  {
    OneMaskEach();
    assert |STATUS_BITS| == 11;
    hide Listed, STATUS_BITS, MASKS, Meets;
    forall j | 0 <= j < 11
      ensures Listed(MASKS[k], j) <==> j == k
    {
      ListedMask(MASKS[k], j);
    }
  }

  lemma OneMaskEach()
    ensures forall j, k :: 0 <= j < 11 && 0 <= k < 11 ==> (Meets(MASKS[j], MASKS[k]) <==> j == k)
  {
  }

  /** What each bit says on its own. */
  lemma BitsInWords()
    ensures Describe(0x1) == "bit " + "0" + " " + "internal temperature out of range"
    ensures Describe(0x2) == "bit " + "1" + " " + "supply voltage out of range"
    ensures Describe(0x4) == "bit " + "2" + " " + "broken gage"
    ensures Describe(0x8) == "bit " + "3" + " " + "busy"
    ensures Describe(0x20) == "bit " + "5" + " " + "hardware or stack error"
    ensures Describe(0x400_0000) == "bit " + "26" + " " + "gage out-of-range warning"
    ensures Describe(0x800_0000) == "bit " + "27" + " " + "gage out of range"
    ensures Describe(0x1000_0000) == "bit " + "28" + " " + "simulated error"
    ensures Describe(0x2000_0000) == "bit " + "29" + " " + "calibration checksum error"
    ensures Describe(0x4000_0000) == "bit " + "30" + " " + "sensing range exceeded"
    ensures Describe(0x8000_0000) == "bit " + "31" + " " + "error summary"
  {
    hide Describe, Entry, STATUS_BITS;
    EntryTexts();
    DescribesOneBit(0);
    DescribesOneBit(1);
    DescribesOneBit(2);
    DescribesOneBit(3);
    DescribesOneBit(4);
    DescribesOneBit(5);
    DescribesOneBit(6);
    DescribesOneBit(7);
    DescribesOneBit(8);
    DescribesOneBit(9);
    DescribesOneBit(10);
  }
}
