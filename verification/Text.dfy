/** Numbers as text: what the driver prints, and how the C library reads it back. */
module Text {
  import opened Machine

  function DigitChar(d: nat): char
    requires d < 16
  {
    "0123456789abcdef"[d]
  }

  /** The value of a digit of any base up to 16, or 16 for any other character. */
  function DigitValue(c: char): (d: nat)
    ensures d <= 16
  {
    if '0' <= c <= '9' then (c - '0') as nat
    else if 'a' <= c <= 'f' then (c - 'a') as nat + 10
    else if 'A' <= c <= 'F' then (c - 'A') as nat + 10
    else 16
  }

  /** A stream's text for `n`: the shortest one. */
  function Print(n: nat, base: nat): string
    requires 2 <= base <= 16
  {
    if n < base then [DigitChar(n)] else Print(n / base, base) + [DigitChar(n % base)]
  }

  function Decimal(n: nat): string {
    Print(n, 10)
  }

  /** Fill with zeros on the left up to the width, as `setw` and `setfill('0')` do. */
  function Pad(s: string, width: nat): string
    decreases width - |s|
  {
    if |s| >= width then s else Pad(['0'] + s, width)
  }

  function HexU32(value: uint32): string {
    "0x" + Pad(Print(value, 16), 8)
  }

  predicate EndsWith(s: string, suffix: string) {
    |suffix| <= |s| && s[|s| - |suffix|..] == suffix
  }

  lemma EndsAlike(s: string, suffix: string)
    requires suffix != "" && s != ""
    ensures EndsWith(s, suffix) ==> s[|s| - 1] == suffix[|suffix| - 1]
  {
    if EndsWith(s, suffix) {
      assert s[|s| - 1] == s[|s| - |suffix|..][|suffix| - 1];
    }
  }

  predicate AllDigits(s: string, base: nat) {
    forall i :: 0 <= i < |s| ==> DigitValue(s[i]) < base
  }

  /** The number that the digits `s` denote. */
  function Value(s: string, base: nat): nat
    requires base <= 16
  {
    if s == "" then 0 else Shifted(Value(s[..|s| - 1], base), base) + DigitValue(s[|s| - 1])
  }

  /** One place to the left. */
  function Shifted(n: nat, base: nat): nat {
    n * base
  }

  // ------------------------------------------------------ reading with base 0

  datatype Reading = Number(value: uint64, consumed: nat) | NoConversion | TooLarge

  predicate IsSpace(c: char) {
    c == ' ' || '\t' <= c <= '\r'
  }

  lemma SpaceMeaning(c: char)
    ensures IsSpace(c) <==> c == ' ' || c == '\t' || c == '\n' || c == '\U{0b}' || c == '\U{0c}' || c == '\r'
  {
  }

  function SpacesEnd(s: string, i: nat): (e: nat)
    requires i <= |s|
    ensures i <= e <= |s|
    decreases |s| - i
  {
    if i < |s| && IsSpace(s[i]) then SpacesEnd(s, i + 1) else i
  }

  function DigitsEnd(s: string, i: nat, base: nat): (e: nat)
    requires i <= |s|
    ensures i <= e <= |s| && AllDigits(s[i..e], base)
    ensures e < |s| ==> DigitValue(s[e]) >= base
    decreases |s| - i
  {
    if i < |s| && DigitValue(s[i]) < base then
      var e := DigitsEnd(s, i + 1, base);
      assert s[i..e] == [s[i]] + s[i + 1..e];
      e
    else i
  }

  /** A base prefix: 0x before a hexadecimal digit, 0b before a binary one (since C23, as in
      glibc 2.38), or a leading 0 for octal. */
  function BaseAt(s: string, i: nat): (nat, nat)
    requires i <= |s|
    ensures var (base, start) := BaseAt(s, i); 2 <= base <= 16 && i <= start <= |s|
  {
    if i + 2 < |s| && s[i] == '0' && s[i + 1] in {'x', 'X'} && DigitValue(s[i + 2]) < 16 then (16, i + 2)
    else if i + 2 < |s| && s[i] == '0' && s[i + 1] in {'b', 'B'} && DigitValue(s[i + 2]) < 2 then (2, i + 2)
    else if i < |s| && s[i] == '0' then (8, i)
    else (10, i)
  }

  /** The C library's conversion to a 64-bit unsigned number, base 0. A minus sign is
      accepted, and negates the number in 64 bits. */
  function Read(s: string): Reading {
    var i := SpacesEnd(s, 0);
    var negative := i < |s| && s[i] == '-';
    var j := if i < |s| && s[i] in {'-', '+'} then i + 1 else i;
    var (base, start) := BaseAt(s, j);
    var end := DigitsEnd(s, start, base);
    var value := Value(s[start..end], base);
    if end == start then NoConversion
    else Converted(negative, value, end)
  }

  function Converted(negative: bool, value: nat, end: nat): Reading {
    if value >= TWO64 then TooLarge
    else Number(if negative && value > 0 then TWO64 - value else value, end)
  }

  // ------------------------------------------------------------- parsers

  datatype ParseError = NotANumber | OutOfRange | Rejected

  /** All of the text must be consumed, and the number must not exceed `max`. */
  function ParseUpTo(text: string, max: nat): Result<nat, ParseError> {
    match Read(text)
    case NoConversion => Err(NotANumber)
    case TooLarge => Err(OutOfRange)
    case Number(value, consumed) =>
      if consumed != |text| || value > max then Err(Rejected) else Ok(value)
  }

  function ParseU8(text: string, max: nat): (r: Result<nat, ParseError>)
    ensures r.Ok? ==> r.value <= max
  {
    ParseUpTo(text, max)
  }

  function ParseU32(text: string): (r: Result<uint32, ParseError>) {
    match ParseUpTo(text, TWO32 - 1)
    case Ok(value) => Ok(value)
    case Err(e) => Err(e)
  }

  function ParseU16(text: string): (r: Result<nat, ParseError>)
    ensures r.Ok? ==> r.value < 0x1_0000
  {
    match ParseU32(text)
    case Ok(value) => if value > 0xFFFF then Err(Rejected) else Ok(value)
    case Err(e) => Err(e)
  }

  // ------------------------------------------------------------ round trips

  lemma DigitCharReads(d: nat)
    requires d < 16
    ensures DigitValue(DigitChar(d)) == d
  {
  }

  lemma {:induction false} PrintReads(n: nat, base: nat)
    requires 2 <= base <= 16
    ensures Print(n, base) != "" && AllDigits(Print(n, base), base) && Value(Print(n, base), base) == n
    ensures Print(n, base)[0] == '0' ==> n == 0 && Print(n, base) == "0"
  {
    if n < base {
      DigitCharReads(n);
      assert [DigitChar(n)][..0] == "";
    } else {
      DigitCharReads(n % base);
      QuotientAndRemainder(n, base);
      PrintReads(n / base, base);
      OneMoreDigit(Print(n / base, base), DigitChar(n % base), base);
    }
  }

  lemma QuotientAndRemainder(n: nat, base: nat)
    requires base >= 2
    ensures n / base * base + n % base == n && (n >= base ==> 0 < n / base < n)
  {
  }

  lemma OneMoreDigit(s: string, c: char, base: nat)
    requires base <= 16
    ensures Value(s + [c], base) == Value(s, base) * base + DigitValue(c)
    ensures AllDigits(s, base) && DigitValue(c) < base ==> AllDigits(s + [c], base)
  {
    assert (s + [c])[..|s|] == s;
  }

  lemma {:induction false} LeadingZero(s: string, base: nat)
    requires 2 <= base <= 16
    ensures Value(['0'] + s, base) == Value(s, base)
  {
    var t := ['0'] + s;
    if s == "" {
      assert t[..0] == "";
    } else {
      LeadingZero(s[..|s| - 1], base);
      assert t[..|t| - 1] == ['0'] + s[..|s| - 1];
    }
  }

  lemma {:induction false} PadReads(s: string, width: nat, base: nat)
    requires 2 <= base <= 16 && s != "" && AllDigits(s, base)
    ensures AllDigits(Pad(s, width), base) && Value(Pad(s, width), base) == Value(s, base)
    ensures |Pad(s, width)| == if |s| >= width then |s| else width
    decreases width - |s|
  {
    if |s| >= width {
    } else {
      LeadingZero(s, base);
      PadReads(['0'] + s, width, base);
    }
  }

  lemma {:induction false} DigitsRunToEnd(s: string, i: nat, base: nat)
    requires i <= |s| && AllDigits(s[i..], base)
    ensures DigitsEnd(s, i, base) == |s|
    decreases |s| - i
  {
    if i == |s| {
    } else {
      assert s[i] == s[i..][0] && s[i + 1..] == s[i..][1..];
      DigitsRunToEnd(s, i + 1, base);
    }
  }

  lemma {:induction false} SpacesRun(s: string, i: nat, end: nat)
    requires i <= end < |s| && !IsSpace(s[end]) && forall k :: i <= k < end ==> IsSpace(s[k])
    ensures SpacesEnd(s, i) == end
    decreases end - i
  {
    if i == end {
    } else {
      SpacesRun(s, i + 1, end);
    }
  }

  // ------------------------------------------- the texts that denote an integer

  /** An integer as C writes it: blanks, a sign, a prefix for hexadecimal or binary, and
      digits. */
  datatype Numeral = Numeral(blanks: string, sign: string, prefix: string, digits: string) {
    predicate WellFormed() {
      && (forall i :: 0 <= i < |blanks| ==> IsSpace(blanks[i]))
      && sign in {"", "+", "-"}
      && prefix in {"", "0x", "0X", "0b", "0B"}
      && digits != "" && AllDigits(digits, Base())
    }

    function Base(): (base: nat)
      ensures 2 <= base <= 16
    {
      if prefix in {"0x", "0X"} then 16
      else if prefix != "" then 2
      else if digits != "" && digits[0] == '0' then 8
      else 10
    }

    function Text(): string {
      blanks + sign + prefix + digits
    }

    function Denoted(): int {
      if sign == "-" then 0 - Value(digits, Base()) else Value(digits, Base())
    }
  }

  ghost predicate DenotesInt(text: string, n: int) {
    exists m: Numeral :: m.WellFormed() && m.Text() == text && m.Denoted() == n
  }

  lemma DigitsBelowBase(m: Numeral)
    requires m.WellFormed()
    ensures forall i :: 0 <= i < |m.digits| ==> DigitValue(m.digits[i]) < m.Base()
  {
    hide DigitValue;
  }

  lemma LettersOfPrefixes()
    ensures DigitValue('x') == DigitValue('X') == 16 && DigitValue('b') == DigitValue('B') == 11
  {
  }

  lemma DigitStandsAlone(c: char)
    requires DigitValue(c) < 16
    ensures !IsSpace(c) && c != '-' && c != '+'
  {
  }

  /** The first character after the blanks tells the sign. */
  lemma FirstOfRest(m: Numeral)
    requires m.WellFormed()
    ensures var rest := m.sign + m.prefix + m.digits;
            && rest != "" && !IsSpace(rest[0])
            && (m.sign != "" <==> rest[0] in {'-', '+'}) && (m.sign == "-" <==> rest[0] == '-')
  {
    DigitsBelowBase(m);
    DigitStandsAlone(m.digits[0]);
    hide DigitValue, AllDigits, Numeral.Base;
    if m.sign == "" && m.prefix == "" {
      assert (m.sign + m.prefix + m.digits)[0] == m.digits[0];
    } else if m.sign == "" {
      assert (m.sign + m.prefix + m.digits)[0] == m.prefix[0] == '0';
    } else {
      assert (m.sign + m.prefix + m.digits)[0] == m.sign[0];
    }
  }

  lemma NumeralParts(m: Numeral)
    requires m.WellFormed()
    ensures var s, i := m.Text(), |m.blanks|;
            && SpacesEnd(s, 0) == i < |s|
            && (m.sign != "" <==> s[i] in {'-', '+'}) && (m.sign == "-" <==> s[i] == '-')
            && s[i + |m.sign|..] == m.prefix + m.digits
  {
    FirstOfRest(m);
    hide AllDigits, Numeral.Base, DigitValue, SpacesEnd;
    var s, i, rest := m.Text(), |m.blanks|, m.sign + m.prefix + m.digits;
    assert s == m.blanks + rest;
    assert s[i] == rest[0];
    assert forall k :: 0 <= k < i ==> s[k] == m.blanks[k];
    SpacesRun(s, 0, i);
    assert s == m.blanks + m.sign + (m.prefix + m.digits);
  }

  lemma PrefixTellsBase(s: string, j: nat, m: Numeral)
    requires m.WellFormed() && j <= |s| && s[j..] == m.prefix + m.digits
    ensures BaseAt(s, j) == (m.Base(), j + |m.prefix|)
  {
    DigitsBelowBase(m);
    LettersOfPrefixes();
    hide DigitsEnd, Value, AllDigits, DigitValue;
    var t := m.prefix + m.digits;
    assert forall k :: 0 <= k < |t| ==> s[j + k] == s[j..][k] == t[k];
    if m.prefix == "" {
      assert t == m.digits;
      assert s[j] == m.digits[0];
      assert |t| > 1 ==> s[j + 1] == m.digits[1];
    } else {
      assert s[j] == m.prefix[0] && s[j + 1] == m.prefix[1] && s[j + 2] == m.digits[0];
    }
  }

  lemma DigitsReachEnd(s: string, j: nat, m: Numeral)
    requires m.WellFormed() && j <= |s| && s[j..] == m.prefix + m.digits
    ensures DigitsEnd(s, j + |m.prefix|, m.Base()) == |s| && s[j + |m.prefix|..] == m.digits
  {
    hide DigitsEnd, DigitValue, AllDigits, Numeral.Base;
    assert s[j + |m.prefix|..] == s[j..][|m.prefix|..] == m.digits;
    DigitsRunToEnd(s, j + |m.prefix|, m.Base());
  }

  lemma ReadInParts(s: string, j: nat, base: nat, start: nat)
    requires SpacesEnd(s, 0) < |s|
    requires j == SpacesEnd(s, 0) + if s[SpacesEnd(s, 0)] in {'-', '+'} then 1 else 0
    requires BaseAt(s, j) == (base, start) && start < |s| && DigitsEnd(s, start, base) == |s|
    ensures Read(s) == Converted(s[SpacesEnd(s, 0)] == '-', Value(s[start..], base), |s|)
  {
    hide SpacesEnd, BaseAt, DigitsEnd, Value, AllDigits, DigitValue, Converted, IsSpace;
    assert s[start..|s|] == s[start..];
  }

  /** A numeral is read to its end, as the integer it denotes modulo 2^64. */
  lemma NumeralIsRead(m: Numeral)
    requires m.WellFormed()
    ensures var n := m.Denoted();
            Read(m.Text()) == if 0 - TWO64 < n < TWO64 then Number(n % TWO64, |m.Text()|) else TooLarge
  {
    hide SpacesEnd, BaseAt, DigitsEnd, Value, Read, Numeral.WellFormed, Numeral.Base, Numeral.Text, Converted;
    SignIsShort(m);
    NumeralParts(m);
    var s, j := m.Text(), |m.blanks| + |m.sign|;
    PrefixTellsBase(s, j, m);
    DigitsReachEnd(s, j, m);
    ReadInParts(s, j, m.Base(), j + |m.prefix|);
    NegativeWraps(Value(m.digits, m.Base()), |s|);
  }

  lemma SignIsShort(m: Numeral)
    requires m.WellFormed()
    ensures |m.sign| == (if m.sign != "" then 1 else 0) && m.digits != ""
  {
  }

  lemma NegativeWraps(v: nat, end: nat)
    ensures Converted(false, v, end) == if v < TWO64 then Number(v % TWO64, end) else TooLarge
    ensures Converted(true, v, end) == if v < TWO64 then Number((0 - v) % TWO64, end) else TooLarge
  {
  }

  /** Whatever is read to its end is a numeral. */
  lemma ReadIsNumeral(s: string) returns (m: Numeral)
    requires Read(s).Number? && Read(s).consumed == |s|
    ensures m.WellFormed() && m.Text() == s
  {
    hide SpacesEnd, DigitsEnd, Value, DigitValue, IsSpace, BaseAt, AllDigits, Numeral.WellFormed;
    var i := SpacesEnd(s, 0);
    SpacesAreBlank(s, 0);
    var j := if i < |s| && s[i] in {'-', '+'} then i + 1 else i;
    var (base, start) := BaseAt(s, j);
    m := Numeral(s[..i], s[i..j], s[j..start], s[start..]);
    assert m.Text() == s;
    assert s[start..DigitsEnd(s, start, base)] == s[start..];
    PartsAreWellFormed(s, i, j, base, start, m);
  }

  lemma PartsAreWellFormed(s: string, i: nat, j: nat, base: nat, start: nat, m: Numeral)
    requires i <= j <= start < |s| && m == Numeral(s[..i], s[i..j], s[j..start], s[start..])
    requires forall k :: 0 <= k < i ==> IsSpace(s[k])
    requires j == i || (j == i + 1 && s[i] in {'-', '+'})
    requires BaseAt(s, j) == (base, start) && AllDigits(s[start..], base)
    ensures m.WellFormed()
  {
    hide DigitValue, IsSpace;
    assert forall k :: 0 <= k < i ==> m.blanks[k] == s[k];
    assert m.digits[0] == s[start];
    assert j < start ==> s[j..start] == [s[j], s[j + 1]] && m.prefix in {"0x", "0X", "0b", "0B"};
    assert i < j && s[i] == '+' ==> m.sign == "+";
    assert i < j && s[i] == '-' ==> m.sign == "-";
    assert i == j ==> m.sign == "";
    assert m.sign in {"", "+", "-"};
    assert m.prefix in {"", "0x", "0X", "0b", "0B"};
    assert base == m.Base();
    assert AllDigits(m.digits, base);
  }

  lemma {:induction false} SpacesAreBlank(s: string, i: nat)
    requires i <= |s|
    ensures forall k :: i <= k < SpacesEnd(s, i) ==> IsSpace(s[k])
    decreases |s| - i
  {
    if i == |s| || !IsSpace(s[i]) {
    } else {
      SpacesAreBlank(s, i + 1);
    }
  }

  // -------------------------------------------------------- what is accepted

  /** The integers that a parser with bound `max` accepts: those in range, and those that
      are in range once 2^64 has been added. */
  predicate Acceptable(n: int, max: nat) {
    0 <= n <= max || 0 - TWO64 < n <= max - TWO64
  }

  /** Of a text that denotes an integer: it is accepted exactly when that integer is
      acceptable, and yields it, or, if it is negative, its sum with 2^64. */
  lemma NumeralsAccepted(text: string, n: int, max: nat)
    requires DenotesInt(text, n) && max < TWO64
    ensures ParseUpTo(text, max).Ok? <==> Acceptable(n, max)
    ensures ParseUpTo(text, max).Ok? ==> ParseUpTo(text, max).value == if n >= 0 then n else n + TWO64
  {
    hide Read, Numeral.WellFormed;
    var m: Numeral :| m.WellFormed() && m.Text() == text && m.Denoted() == n;
    NumeralIsRead(m);
    if 0 - TWO64 < n < 0 {
      assert n % TWO64 == n + TWO64;
    }
  }

  /** No other text is accepted. */
  lemma OnlyNumeralsAccepted(text: string, max: nat)
    requires ParseUpTo(text, max).Ok?
    ensures exists n :: DenotesInt(text, n)
  {
    hide Read, Numeral.WellFormed;
    var m := ReadIsNumeral(text);
    assert DenotesInt(text, m.Denoted());
  }

  /** The three parsers: what each accepts, over all texts. */
  lemma ParsersAccept(text: string, max: nat)
    requires max < 0x100
    ensures ParseU8(text, max).Ok? <==> exists n :: DenotesInt(text, n) && Acceptable(n, max)
    ensures ParseU16(text).Ok? <==> exists n :: DenotesInt(text, n) && Acceptable(n, 0xFFFF)
    ensures ParseU32(text).Ok? <==> exists n :: DenotesInt(text, n) && Acceptable(n, TWO32 - 1)
  {
    hide DenotesInt, ParseUpTo;
    U16IsBounded(text);
    AcceptsWhatDenotes(text, max);
    AcceptsWhatDenotes(text, 0xFFFF);
    AcceptsWhatDenotes(text, TWO32 - 1);
  }

  lemma U16IsBounded(text: string)
    ensures ParseU16(text).Ok? <==> ParseUpTo(text, 0xFFFF).Ok?
    ensures ParseU16(text).Ok? ==> ParseU16(text) == ParseUpTo(text, 0xFFFF)
  {
    hide Read;
  }

  lemma AcceptsWhatDenotes(text: string, max: nat)
    requires max < TWO64
    ensures ParseUpTo(text, max).Ok? <==> exists n :: DenotesInt(text, n) && Acceptable(n, max)
  {
    hide DenotesInt, ParseUpTo, Acceptable;
    if ParseUpTo(text, max).Ok? {
      OnlyNumeralsAccepted(text, max);
      var n :| DenotesInt(text, n);
      NumeralsAccepted(text, n, max);
    }
    if n :| DenotesInt(text, n) && Acceptable(n, max) {
      NumeralsAccepted(text, n, max);
    }
  }

  /** An accepted text yields the integer it denotes exactly when that is not negative. */
  lemma AcceptedTextYieldsItsInteger(text: string, n: int, max: nat)
    requires DenotesInt(text, n) && max < 0x100
    ensures ParseU8(text, max).Ok? ==> (ParseU8(text, max).value == n <==> n >= 0)
    ensures ParseU16(text).Ok? ==> (ParseU16(text).value == n <==> n >= 0)
    ensures ParseU32(text).Ok? ==> (ParseU32(text).value == n <==> n >= 0)
  {
    hide DenotesInt, ParseUpTo;
    U16IsBounded(text);
    NumeralsAccepted(text, n, max);
    NumeralsAccepted(text, n, 0xFFFF);
    NumeralsAccepted(text, n, TWO32 - 1);
  }

  /** Why a text is rejected: an integer beyond 64 bits is out of range, any other integer that
      is not acceptable is refused as such. */
  lemma WhyRejected(text: string, n: int, max: nat)
    requires DenotesInt(text, n) && max < TWO64
    ensures ParseUpTo(text, max) == Err(OutOfRange) <==> n <= 0 - TWO64 || TWO64 <= n
    ensures ParseUpTo(text, max) == Err(Rejected) <==> 0 - TWO64 < n < TWO64 && !Acceptable(n, max)
  {
    hide Numeral.WellFormed;
    var m: Numeral :| m.WellFormed() && m.Text() == text && m.Denoted() == n;
    NumeralIsRead(m);
    NumeralsAccepted(text, n, max);
  }

  lemma NothingToRead(max: nat)
    ensures ParseUpTo("", max) == Err(NotANumber)
  {
  }

  /** So "a valid uint32 value" is not all that is accepted: two texts of negative integers. */
  lemma NegativeTextsAccepted()
    ensures ParseU32("-0xffffffffffffffff") == Ok(1) && ParseU16("-0xffffffffffffffff") == Ok(1)
    ensures ParseU8("-0xffffffffffffffff", 8) == Ok(1)
  {
    hide ParseUpTo, DenotesInt;
    BiggestInHex();
    var text := "-0xffffffffffffffff";
    U16IsBounded(text);
    NumeralsAccepted(text, 1 - TWO64, 8);
    NumeralsAccepted(text, 1 - TWO64, 0xFFFF);
    NumeralsAccepted(text, 1 - TWO64, TWO32 - 1);
  }

  lemma BiggestInHex()
    ensures DenotesInt("-0xffffffffffffffff", 1 - TWO64)
  {
    hide Value;
    var digits := seq(16, i requires 0 <= i < 16 => 'f');
    assert "ffffffffffffffff" == digits;
    var m := Numeral("", "-", "0x", digits);
    assert m.Text() == "-0xffffffffffffffff";
    assert Power(16, 8) == TWO32;
    assert Power(16, 12) == TWO32 * 0x1_0000;
    AllFs(digits);
    assert m.WellFormed();
  }

  lemma {:induction false} AllFs(digits: string)
    requires forall i :: 0 <= i < |digits| ==> digits[i] == 'f'
    ensures Value(digits, 16) == Power(16, |digits|) - 1
  {
    if digits == "" {
    } else {
      AllFs(digits[..|digits| - 1]);
    }
  }

  // ------------------------------------------------------- printed and read back

  /** Decimal text is never mistaken for octal, with or without a minus sign. */
  lemma DecimalDenotes(n: nat)
    ensures DenotesInt(Decimal(n), n) && DenotesInt("-" + Decimal(n), 0 - n)
  {
    hide Print, Value, Numeral.WellFormed;
    DecimalIsWellFormed(n, "");
    DecimalIsWellFormed(n, "-");
    var plus, minus := Numeral("", "", "", Decimal(n)), Numeral("", "-", "", Decimal(n));
    assert plus.Text() == Decimal(n) && minus.Text() == "-" + Decimal(n);
  }

  lemma DecimalIsWellFormed(n: nat, sign: string)
    requires sign in {"", "-"}
    ensures var m := Numeral("", sign, "", Decimal(n));
            m.WellFormed() && m.Denoted() == if sign == "-" then 0 - n else n
  {
    hide Print, Value, DigitValue;
    PrintReads(n, 10);
    if n == 0 {
      ZeroText();
    }
  }

  lemma ZeroText()
    ensures Decimal(0) == "0" && Value("0", 8) == 0 && AllDigits("0", 8)
  {
    assert "0"[..0] == "";
  }

  /** For every 32-bit value the hexadecimal text of the diagnostics and the decimal text of
      the default ids are read back as that value. */
  lemma PrintersRoundTrip(v: uint32)
    ensures ParseU32(HexU32(v)) == Ok(v)
    ensures ParseU32(Decimal(v)) == Ok(v)
    ensures |HexU32(v)| == 10
  {
    hide Print, Value, DenotesInt;
    DecimalDenotes(v);
    NumeralsAccepted(Decimal(v), v, TWO32 - 1);
    HexDenotes(v);
    NumeralsAccepted(HexU32(v), v, TWO32 - 1);
  }

  lemma HexDenotes(v: uint32)
    ensures DenotesInt(HexU32(v), v) && |HexU32(v)| == 10
  {
    hide Print, Value;
    PrintReads(v, 16);
    assert Power(16, 8) == TWO32;
    PrintLength(v, 16, 8);
    PadReads(Print(v, 16), 8, 16);
    var m := Numeral("", "", "0x", Pad(Print(v, 16), 8));
    assert m.Text() == HexU32(v);
    assert m.WellFormed() && m.Denoted() == v;
  }

  /** The digits are those of C's stream: lower case. */
  lemma {:induction false} LowerCaseDigits(n: nat, base: nat)
    requires 2 <= base <= 16
    ensures forall i :: 0 <= i < |Print(n, base)| ==>
              '0' <= Print(n, base)[i] <= '9' || 'a' <= Print(n, base)[i] <= 'f'
  {
    if n < base {
    } else {
      LowerCaseDigits(n / base, base);
    }
  }

  lemma {:induction false} PadIsZeros(s: string, width: nat)
    requires forall i :: 0 <= i < |s| ==> '0' <= s[i] <= '9' || 'a' <= s[i] <= 'f'
    ensures forall i :: 0 <= i < |Pad(s, width)| ==> '0' <= Pad(s, width)[i] <= '9' || 'a' <= Pad(s, width)[i] <= 'f'
    decreases width - |s|
  {
    if |s| >= width {
    } else {
      PadIsZeros(['0'] + s, width);
    }
  }

  lemma HexIsLowerCase(v: uint32)
    ensures HexU32(v)[..2] == "0x"
    ensures forall i :: 2 <= i < |HexU32(v)| ==> '0' <= HexU32(v)[i] <= '9' || 'a' <= HexU32(v)[i] <= 'f'
  {
    hide Print, Pad;
    LowerCaseDigits(v, 16);
    PadIsZeros(Print(v, 16), 8);
    var digits := Pad(Print(v, 16), 8);
    assert forall i :: 2 <= i < |HexU32(v)| ==> HexU32(v)[i] == digits[i - 2];
  }

  function Power(base: nat, k: nat): nat {
    if k == 0 then 1 else base * Power(base, k - 1)
  }

  /** Numbers below base^k print in at most k digits. */
  lemma {:induction false} PrintLength(n: nat, base: nat, k: nat)
    requires 2 <= base <= 16 && k > 0 && n < Power(base, k)
    ensures |Print(n, base)| <= k
  {
    if n < base {
    } else {
      SmallQuotient(n, base, Power(base, k - 1));
      QuotientAndRemainder(n, base);
      PrintLength(n / base, base, k - 1);
    }
  }

  lemma SmallQuotient(n: nat, base: nat, p: nat)
    requires base >= 2 && n < base * p
    ensures n / base < p
  {
    QuotientAndRemainder(n, base);
    if n / base >= p {
      Monotone(p, n / base, base);
    }
  }

  lemma Monotone(p: nat, q: nat, base: nat)
    requires p <= q
    ensures p * base <= q * base
  {
  }

  /** In particular a decimal text with a minus sign is accepted exactly when its magnitude
      is 0 or lies within 2^32 below 2^64. */
  lemma MinusSignIsAccepted(m: nat)
    ensures ParseU32("-" + Decimal(m)).Ok? <==> m == 0 || TWO64 - TWO32 < m < TWO64
    ensures TWO64 - TWO32 < m < TWO64 ==> ParseU32("-" + Decimal(m)) == Ok(TWO64 - m)
  {
    hide DenotesInt, ParseUpTo;
    DecimalDenotes(m);
    NumeralsAccepted("-" + Decimal(m), 0 - m, TWO32 - 1);
  }
}
