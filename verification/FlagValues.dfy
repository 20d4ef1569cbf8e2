/** FlagValue of gflags.cc: the values a flag can have, and their conversion from and to text. */
module FlagValues {
  import opened Wrappers

  datatype ValueType = FvBool | FvInt32 | FvInt64 | FvUInt64 | FvString

  datatype Value = BoolValue(b: bool) | Int32Value(i: int) | Int64Value(i: int) | UInt64Value(i: int)
    | StringValue(s: string)

  function TypeOf(v: Value): ValueType {
    match v
    case BoolValue(_) => FvBool
    case Int32Value(_) => FvInt32
    case Int64Value(_) => FvInt64
    case UInt64Value(_) => FvUInt64
    case StringValue(_) => FvString
  }

  const INT32_MAX := 0x7fff_ffff
  const INT64_MAX := 0x7fff_ffff_ffff_ffff
  const UINT64_MAX := 0xffff_ffff_ffff_ffff

  /** The value can be held by its C++ type, and is a C string if it is a string. */
  predicate Representable(v: Value) {
    match v
    case BoolValue(_) => true
    case Int32Value(i) => -INT32_MAX - 1 <= i <= INT32_MAX
    case Int64Value(i) => -INT64_MAX - 1 <= i <= INT64_MAX
    case UInt64Value(i) => 0 <= i <= UINT64_MAX
    case StringValue(s) => '\0' !in s
  }

  // ---------------------------------------------------------------------------
  // From text

  function ToLower(c: char): char {
    if 'A' <= c <= 'Z' then (c as int + 32) as char else c
  }

  predicate EqualIgnoringCase(s: string, t: string) {
    |s| == |t| && forall k :: 0 <= k < |s| ==> ToLower(s[k]) == ToLower(t[k])
  }

  predicate IsSpace(c: char) { c == ' ' || 9 <= c as int <= 13 }

  function DigitOf(c: char): int {
    if '0' <= c <= '9' then c as int - '0' as int
    else if 'a' <= c <= 'z' then c as int - 'a' as int + 10
    else if 'A' <= c <= 'Z' then c as int - 'A' as int + 10
    else 36
  }

  function SkipSpaces(s: string): (r: string)
    ensures |r| <= |s|
    ensures forall c :: c in r ==> c in s
  {
    if s != "" && IsSpace(s[0]) then SkipSpaces(s[1..]) else s
  }

  predicate AllDigits(s: string, base: int) {
    s != "" && forall k :: 0 <= k < |s| ==> DigitOf(s[k]) < base
  }

  function Magnitude(s: string, base: nat): (n: int)
    requires AllDigits(s, base)
  {
    (if |s| == 1 then 0 else Magnitude(s[..|s| - 1], base) * base) + DigitOf(s[|s| - 1])
  }

  /** What strtoll or strtoull reads if it consumes the whole text: spaces, a sign, for base 16 an
      optional 0x, and digits. The sign and the magnitude. */
  function StrTo(text: string, base: nat): Option<(bool, int)> {
    var s := SkipSpaces(text);
    var negative := s != "" && s[0] == '-';
    var t := if s != "" && (s[0] == '-' || s[0] == '+') then s[1..] else s;
    var u := if base == 16 && |t| > 2 && t[0] == '0' && (t[1] == 'x' || t[1] == 'X') then t[2..] else t;
    if AllDigits(u, base) then Some((negative, Magnitude(u, base))) else None
  }

  function StrTo64(text: string, base: nat): Option<int> {
    match StrTo(text, base)
    case None => None
    case Some((negative, n)) =>
      var r := if negative then -n else n;
      if -INT64_MAX - 1 <= r <= INT64_MAX then Some(r) else None
  }

  function StrToU64(text: string, base: nat): Option<int> {
    match StrTo(text, base)
    case None => None
    case Some((negative, n)) =>
      if n > UINT64_MAX then None else Some(if negative && n > 0 then UINT64_MAX + 1 - n else n)
  }

  function SkipBlanks(s: string): string {
    if s != "" && s[0] == ' ' then SkipBlanks(s[1..]) else s
  }

  /** A leading 0x means base 16; a leading 0 does not mean base 8. */
  function BaseOf(text: string): nat {
    if |text| >= 2 && text[0] == '0' && (text[1] == 'x' || text[1] == 'X') then 16 else 10
  }

  const TRUES := ["1", "t", "true", "y", "yes"]
  const FALSES := ["0", "f", "false", "n", "no"]

  /** FlagValue::ParseFrom. A uint64 made of blanks only is zero: strtoull converts nothing and stops
      where it started, which after the blanks is the end of the text. */
  function ParseFrom(ty: ValueType, text: string): Option<Value> {
    match ty
    case FvBool =>
      if exists t :: t in TRUES && EqualIgnoringCase(text, t) then Some(BoolValue(true))
      else if exists f :: f in FALSES && EqualIgnoringCase(text, f) then Some(BoolValue(false))
      else None
    case FvString => Some(StringValue(text))
    case FvInt32 =>
      (match StrTo64(text, BaseOf(text))
       case Some(r) => if text != "" && -INT32_MAX - 1 <= r <= INT32_MAX then Some(Int32Value(r)) else None
       case None => None)
    case FvInt64 =>
      (match StrTo64(text, BaseOf(text))
       case Some(r) => if text != "" then Some(Int64Value(r)) else None
       case None => None)
    case FvUInt64 =>
      var s := SkipBlanks(text);
      if text == "" || (s != "" && s[0] == '-') then None
      else if s == "" then Some(UInt64Value(0))
      else
        match StrToU64(s, BaseOf(text))
        case Some(r) => Some(UInt64Value(r))
        case None => None
  }

  lemma {:induction false} MagnitudeIsNatural(s: string, base: nat)
    requires AllDigits(s, base)
    ensures Magnitude(s, base) >= 0
  {
    if |s| > 1 {
      MagnitudeIsNatural(s[..|s| - 1], base);
      NaturalProduct(Magnitude(s[..|s| - 1], base), base);
    }
  }

  lemma NaturalProduct(a: nat, b: nat)
    ensures a * b >= 0
  {
  }

  lemma StrToIsNatural(text: string, base: nat)
    ensures StrTo(text, base).Some? ==> StrTo(text, base).value.1 >= 0
  {
    hide Magnitude, AllDigits, SkipSpaces;
    var s := SkipSpaces(text);
    var t := if s != "" && (s[0] == '-' || s[0] == '+') then s[1..] else s;
    var u := if base == 16 && |t| > 2 && t[0] == '0' && (t[1] == 'x' || t[1] == 'X') then t[2..] else t;
    if AllDigits(u, base) { MagnitudeIsNatural(u, base); }
  }

  /** What is accepted is a value the C++ type can hold. */
  lemma ParsedIsRepresentable(ty: ValueType, text: string)
    requires '\0' !in text
    ensures ParseFrom(ty, text).Some? ==>
      TypeOf(ParseFrom(ty, text).value) == ty && Representable(ParseFrom(ty, text).value)
  {
    hide StrTo, SkipBlanks, BaseOf, EqualIgnoringCase;
    StrToIsNatural(SkipBlanks(text), BaseOf(text));
  }

  // ---------------------------------------------------------------------------
  // To text

  function Numeral(n: nat): (s: string)
    ensures s != ""
  {
    (if n < 10 then "" else Numeral(n / 10)) + [('0' as int + n % 10) as char]
  }

  /** FlagValue::ToString */
  function ToString(v: Value): string {
    match v
    case BoolValue(b) => if b then "true" else "false"
    case Int32Value(i) => Signed(i)
    case Int64Value(i) => Signed(i)
    case UInt64Value(i) => Signed(i)
    case StringValue(s) => s
  }

  function Signed(i: int): string { if i < 0 then "-" + Numeral(-i) else Numeral(i) }

  lemma {:induction false} NumeralDenotes(n: nat)
    ensures AllDigits(Numeral(n), 10) && Magnitude(Numeral(n), 10) == n
    ensures forall k :: 0 <= k < |Numeral(n)| ==> '0' <= Numeral(n)[k] <= '9'
  {
    var s := Numeral(n);
    if n >= 10 {
      NumeralDenotes(n / 10);
      assert s[..|s| - 1] == Numeral(n / 10);
    }
  }

  lemma SignedReads(i: int)
    ensures BaseOf(Signed(i)) == 10 && SkipSpaces(Signed(i)) == Signed(i) && SkipBlanks(Signed(i)) == Signed(i)
    ensures StrTo(Signed(i), 10) == Some((i < 0, if i < 0 then -i else i))
  {
    hide Numeral, Magnitude;
    NumeralDenotes(if i < 0 then -i else i);
  }

  lemma SignedIsSigned(i: int)
    ensures Signed(i) != "" && (i >= 0 ==> Signed(i)[0] != '-')
  {
    hide Numeral, Magnitude, AllDigits;
    NumeralDenotes(if i < 0 then -i else i);
  }

  /** The 64-bit readers take back what was printed. */
  lemma Signed64Reads(i: int)
    requires -INT64_MAX - 1 <= i <= INT64_MAX
    ensures Signed(i) != "" && BaseOf(Signed(i)) == 10 && StrTo64(Signed(i), 10) == Some(i)
  {
    hide SkipSpaces, SkipBlanks, BaseOf, StrTo, Signed;
    SignedReads(i);
    SignedIsSigned(i);
  }

  lemma Unsigned64Reads(i: int)
    requires 0 <= i <= UINT64_MAX
    ensures Signed(i) != "" && BaseOf(Signed(i)) == 10 && StrToU64(Signed(i), 10) == Some(i)
    ensures SkipBlanks(Signed(i)) == Signed(i) && Signed(i)[0] != '-'
  {
    hide SkipSpaces, SkipBlanks, BaseOf, StrTo, Signed;
    SignedReads(i);
    SignedIsSigned(i);
  }

  lemma Int32Reads(i: int)
    requires -INT32_MAX - 1 <= i <= INT32_MAX
    ensures ParseFrom(FvInt32, Signed(i)) == Some(Int32Value(i))
  {
    hide StrTo64, BaseOf, Signed;
    Signed64Reads(i);
  }

  lemma Int64Reads(i: int)
    requires -INT64_MAX - 1 <= i <= INT64_MAX
    ensures ParseFrom(FvInt64, Signed(i)) == Some(Int64Value(i))
  {
    hide StrTo64, BaseOf, Signed;
    Signed64Reads(i);
  }

  lemma UInt64Reads(i: int)
    requires 0 <= i <= UINT64_MAX
    ensures ParseFrom(FvUInt64, Signed(i)) == Some(UInt64Value(i))
  {
    hide StrToU64, BaseOf, Signed, SkipBlanks;
    Unsigned64Reads(i);
  }

  /** Printing and parsing are inverse. */
  lemma ParsePrinted(v: Value)
    requires Representable(v)
    ensures ParseFrom(TypeOf(v), ToString(v)) == Some(v)
  {
    hide ParseFrom;
    match v
    case BoolValue(b) => BoolReads(b);
    case Int32Value(i) => Int32Reads(i);
    case Int64Value(i) => Int64Reads(i);
    case UInt64Value(i) => UInt64Reads(i);
    case StringValue(s) => StringReads(s);
  }

  lemma StringReads(s: string)
    ensures ParseFrom(FvString, s) == Some(StringValue(s))
  {
  }

  lemma BoolReads(b: bool)
    ensures ParseFrom(FvBool, if b then "true" else "false") == Some(BoolValue(b))
  {
    assert "true" in TRUES && EqualIgnoringCase("true", "true");
    assert "false" in FALSES && EqualIgnoringCase("false", "false");
    forall t | t in TRUES ensures !EqualIgnoringCase("false", t) {
      assert t in {"1", "t", "true", "y", "yes"};
      if t == "y" { assert ToLower('y') != ToLower('f'); }
    }
  }

  // ---------------------------------------------------------------------------
  // Which texts are accepted, and with what value

  /** A word in any mixture of small and capital letters. */
  predicate InAnyCase(text: string, small: string, capital: string)
    requires |small| == |capital|
  {
    |text| == |small| && forall k :: 0 <= k < |text| ==> text[k] == small[k] || text[k] == capital[k]
  }

  lemma SameWord(text: string, small: string, capital: string)
    requires |small| == |capital|
    requires forall k :: 0 <= k < |small| ==>
      (small[k] == capital[k] && '0' <= small[k] <= '9') ||
      ('a' <= small[k] <= 'z' && 'A' <= capital[k] <= 'Z' && small[k] as int == capital[k] as int + 32)
    ensures EqualIgnoringCase(text, small) <==> InAnyCase(text, small, capital)
  {
    if |text| == |small| {
      forall k | 0 <= k < |text|
        ensures ToLower(text[k]) == ToLower(small[k]) <==> text[k] == small[k] || text[k] == capital[k]
      {
        assert ToLower(small[k]) == small[k];
      }
    }
  }

  lemma TruesAre(text: string)
    ensures (exists t :: t in TRUES && EqualIgnoringCase(text, t)) <==>
      || InAnyCase(text, "1", "1") || InAnyCase(text, "t", "T") || InAnyCase(text, "true", "TRUE")
      || InAnyCase(text, "y", "Y") || InAnyCase(text, "yes", "YES")
  {
    SameWord(text, "1", "1");
    SameWord(text, "t", "T");
    SameWord(text, "true", "TRUE");
    SameWord(text, "y", "Y");
    SameWord(text, "yes", "YES");
    hide EqualIgnoringCase, InAnyCase;
    assert TRUES[0] == "1" && TRUES[1] == "t" && TRUES[2] == "true" && TRUES[3] == "y" && TRUES[4] == "yes";
  }

  lemma FalsesAre(text: string)
    ensures (exists f :: f in FALSES && EqualIgnoringCase(text, f)) <==>
      || InAnyCase(text, "0", "0") || InAnyCase(text, "f", "F") || InAnyCase(text, "false", "FALSE")
      || InAnyCase(text, "n", "N") || InAnyCase(text, "no", "NO")
  {
    SameWord(text, "0", "0");
    SameWord(text, "f", "F");
    SameWord(text, "false", "FALSE");
    SameWord(text, "n", "N");
    SameWord(text, "no", "NO");
    hide EqualIgnoringCase, InAnyCase;
    assert FALSES[0] == "0" && FALSES[1] == "f" && FALSES[2] == "false" && FALSES[3] == "n" && FALSES[4] == "no";
  }

  /** The ten words for boolean values, in any mixture of cases; every other text is refused. */
  lemma BooleansRead(text: string)
    ensures ParseFrom(FvBool, text) == Some(BoolValue(true)) <==>
      || InAnyCase(text, "1", "1") || InAnyCase(text, "t", "T") || InAnyCase(text, "true", "TRUE")
      || InAnyCase(text, "y", "Y") || InAnyCase(text, "yes", "YES")
    ensures ParseFrom(FvBool, text) == Some(BoolValue(false)) <==>
      || InAnyCase(text, "0", "0") || InAnyCase(text, "f", "F") || InAnyCase(text, "false", "FALSE")
      || InAnyCase(text, "n", "N") || InAnyCase(text, "no", "NO")
    ensures ParseFrom(FvBool, text) in {Some(BoolValue(true)), Some(BoolValue(false)), None}
  {
    TruesAre(text);
    FalsesAre(text);
    var falses := InAnyCase(text, "0", "0") || InAnyCase(text, "f", "F") || InAnyCase(text, "false", "FALSE")
      || InAnyCase(text, "n", "N") || InAnyCase(text, "no", "NO");
    assert falses ==> text[0] in "0fFnN";
  }

  const SMALL_DIGITS := "0123456789abcdef"
  const CAPITAL_DIGITS := "0123456789ABCDEF"

  /** s spells the digits ds, the highest first. */
  ghost predicate Spells(s: string, ds: seq<nat>, base: nat) {
    |s| == |ds| && 1 <= base <= 16 &&
    forall k :: 0 <= k < |s| ==> ds[k] < base && (s[k] == SMALL_DIGITS[ds[k]] || s[k] == CAPITAL_DIGITS[ds[k]])
  }

  function Denoted(ds: seq<nat>, base: nat): nat {
    if ds == [] then 0
    else
      NaturalProduct(Denoted(ds[..|ds| - 1], base), base);
      Denoted(ds[..|ds| - 1], base) * base + ds[|ds| - 1]
  }

  lemma DigitIs(c: char, d: nat)
    requires d < 16 && (c == SMALL_DIGITS[d] || c == CAPITAL_DIGITS[d])
    ensures DigitOf(c) == d && !IsSpace(c) && c != '-' && c != '+' && (c == 'x' || c == 'X' ==> false)
  {
  }

  lemma {:induction false} SpelledReads(s: string, ds: seq<nat>, base: nat)
    requires Spells(s, ds, base) && s != ""
    ensures AllDigits(s, base) && Magnitude(s, base) == Denoted(ds, base)
  {
    hide DigitOf;
    forall k | 0 <= k < |s| ensures DigitOf(s[k]) == ds[k] { DigitIs(s[k], ds[k]); }
    if |s| > 1 { SpelledReads(s[..|s| - 1], ds[..|s| - 1], base); }
  }

  ghost predicate Blank(blanks: string) {
    forall k :: 0 <= k < |blanks| ==> blanks[k] as int in {32, 9, 10, 11, 12, 13}
  }

  lemma {:induction false} BlanksSkipped(blanks: string, s: string)
    requires Blank(blanks) && (s != "" ==> !IsSpace(s[0]))
    ensures SkipSpaces(blanks + s) == s
  {
    if blanks == "" {
      assert blanks + s == s;
    } else {
      assert (blanks + s)[1..] == blanks[1..] + s;
      BlanksSkipped(blanks[1..], s);
    }
  }

  /** What is left of the white space before a number when the blanks it begins with are skipped. */
  lemma {:induction false} BlanksLeft(blanks: string, s: string) returns (more: string)
    requires Blank(blanks) && s != "" && !IsSpace(s[0])
    ensures Blank(more) && SkipBlanks(blanks + s) == more + s && (more != "" ==> more[0] != '-')
    ensures more == "" <==> forall k :: 0 <= k < |blanks| ==> blanks[k] == ' '
  {
    if blanks == "" {
      assert blanks + s == s == "" + s;
      more := "";
    } else if blanks[0] == ' ' {
      assert (blanks + s)[1..] == blanks[1..] + s;
      more := BlanksLeft(blanks[1..], s);
    } else {
      more := blanks;
    }
  }

  /** What a number is made of. */
  ghost predicate Numeric(blanks: string, sign: string, s: string, ds: seq<nat>, base: nat) {
    Blank(blanks) && sign in {"", "-", "+"} && s != "" && Spells(s, ds, base)
  }

  lemma NumberStart(blanks: string, sign: string, s: string, ds: seq<nat>, base: nat)
    requires Numeric(blanks, sign, s, ds, base)
    ensures !IsSpace((sign + s)[0]) && s[0] != '-' && s[0] != '+' && (sign + s)[|sign|..] == s
    ensures forall k :: 0 <= k < |s| ==> s[k] != 'x' && s[k] != 'X'
  {
    hide IsSpace, DigitOf;
    forall k | 0 <= k < |s| ensures s[k] != 'x' && s[k] != 'X' { DigitIs(s[k], ds[k]); }
    DigitIs(s[0], ds[0]);
    assert !IsSpace('-') && !IsSpace('+') by { NoSpaces(); }
  }

  lemma NoSpaces()
    ensures !IsSpace('-') && !IsSpace('+')
  {
  }

  lemma DecimalTaken(blanks: string, sign: string, s: string, ds: seq<nat>)
    requires Numeric(blanks, sign, s, ds, 10)
    ensures StrTo(blanks + (sign + s), 10) == Some((sign == "-", Denoted(ds, 10)))
  {
    hide Magnitude, Denoted, SkipSpaces, Spells, Blank, IsSpace;
    NumberStart(blanks, sign, s, ds, 10);
    SpelledReads(s, ds, 10);
    BlanksSkipped(blanks, sign + s);
  }

  lemma DecimalBase(blanks: string, sign: string, s: string, ds: seq<nat>)
    requires Numeric(blanks, sign, s, ds, 10)
    ensures BaseOf(blanks + (sign + s)) == 10
  {
    hide Spells, IsSpace;
    NumberStart(blanks, sign, s, ds, 10);
    if blanks == "" && sign == "" { assert blanks + (sign + s) == s; }
  }

  lemma SignedTaken(blanks: string, sign: string, s: string, ds: seq<nat>)
    requires Numeric(blanks, sign, s, ds, 10)
    ensures var text, v := blanks + (sign + s), (if sign == "-" then -1 else 1) * Denoted(ds, 10);
      && ParseFrom(FvInt32, text) == (if -0x8000_0000 <= v < 0x8000_0000 then Some(Int32Value(v)) else None)
      && ParseFrom(FvInt64, text) ==
           (if -0x8000_0000_0000_0000 <= v < 0x8000_0000_0000_0000 then Some(Int64Value(v)) else None)
  {
    hide StrTo, BaseOf, Denoted, Spells, Blank;
    DecimalTaken(blanks, sign, s, ds);
    DecimalBase(blanks, sign, s, ds);
  }

  lemma UnsignedTaken(blanks: string, sign: string, s: string, ds: seq<nat>)
    requires Numeric(blanks, sign, s, ds, 10)
    ensures var text, n := blanks + (sign + s), Denoted(ds, 10);
      ParseFrom(FvUInt64, text) ==
        if n >= 0x1_0000_0000_0000_0000 || (sign == "-" && forall k :: 0 <= k < |blanks| ==> blanks[k] == ' ') then None
        else if sign == "-" && n > 0 then Some(UInt64Value(0x1_0000_0000_0000_0000 - n))
        else Some(UInt64Value(n))
  {
    hide StrTo, BaseOf, Denoted, Spells, Blank, SkipBlanks, IsSpace;
    NumberStart(blanks, sign, s, ds, 10);
    DecimalBase(blanks, sign, s, ds);
    var more := BlanksLeft(blanks, sign + s);
    DecimalTaken(more, sign, s, ds);
  }

  /** Every decimal number, with white space before it and a sign or none: the value, if the type can hold it. A
      negative number is no uint64, unless other white space than blanks comes before its sign: then it wraps. */
  lemma DecimalsRead(blanks: string, sign: string, s: string, ds: seq<nat>)
    requires Numeric(blanks, sign, s, ds, 10)
    ensures var text, n := blanks + sign + s, Denoted(ds, 10);
      var v: int := if sign == "-" then 0 - n else n;
      && ParseFrom(FvInt32, text) == (if -0x8000_0000 <= v < 0x8000_0000 then Some(Int32Value(v)) else None)
      && ParseFrom(FvInt64, text) ==
           (if -0x8000_0000_0000_0000 <= v < 0x8000_0000_0000_0000 then Some(Int64Value(v)) else None)
      && ParseFrom(FvUInt64, text) ==
           (if n >= 0x1_0000_0000_0000_0000 || (sign == "-" && forall k :: 0 <= k < |blanks| ==> blanks[k] == ' ')
            then None
            else Some(UInt64Value(if v < 0 then v + 0x1_0000_0000_0000_0000 else v)))
  {
    hide ParseFrom, Denoted, Spells, Blank;
    assert blanks + sign + s == blanks + (sign + s);
    SignedTaken(blanks, sign, s, ds);
    UnsignedTaken(blanks, sign, s, ds);
  }

  /** Every hexadecimal number: 0x first, no white space and no sign. */
  lemma HexadecimalsRead(x: string, s: string, ds: seq<nat>)
    requires x in {"0x", "0X"} && s != "" && Spells(s, ds, 16)
    ensures var text, n := x + s, Denoted(ds, 16);
      && ParseFrom(FvInt32, text) == (if n < 0x8000_0000 then Some(Int32Value(n)) else None)
      && ParseFrom(FvInt64, text) == (if n < 0x8000_0000_0000_0000 then Some(Int64Value(n)) else None)
      && ParseFrom(FvUInt64, text) == (if n < 0x1_0000_0000_0000_0000 then Some(UInt64Value(n)) else None)
  {
    hide Magnitude, Denoted;
    SpelledReads(s, ds, 16);
    assert (x + s)[2..] == s;
  }

  lemma BlankCons(c: char, blanks: string)
    requires Blank(blanks) && IsSpace(c)
    ensures Blank([c] + blanks)
  {
  }

  lemma SkipOne(c: char, more: string)
    requires IsSpace(c)
    ensures SkipSpaces([c] + more) == SkipSpaces(more)
  {
    assert ([c] + more)[1..] == more;
  }

  lemma {:induction false} SpacesBefore(text: string) returns (blanks: string)
    ensures text == blanks + SkipSpaces(text) && Blank(blanks)
  {
    if text != "" && IsSpace(text[0]) {
      hide SkipSpaces;
      var more := SpacesBefore(text[1..]);
      BlankCons(text[0], more);
      SkipOne(text[0], text[1..]);
      hide Blank, IsSpace;
      blanks := [text[0]] + more;
      assert text == [text[0]] + text[1..];
      ConsConcat(text[0], more, SkipSpaces(text));
    } else {
      blanks := "";
    }
  }

  lemma ConsConcat(c: char, s: string, t: string)
    ensures [c] + (s + t) == [c] + s + t
  {
  }

  lemma {:induction false} BlanksBefore(text: string) returns (blanks: string)
    ensures text == blanks + SkipBlanks(text) && Blank(blanks)
  {
    if text != "" && text[0] == ' ' {
      blanks := BlanksBefore(text[1..]);
      blanks := [text[0]] + blanks;
      assert text == [text[0]] + text[1..];
    } else {
      blanks := "";
      assert text == "" + text;
    }
  }

  lemma DigitsSpell(s: string, base: nat) returns (ds: seq<nat>)
    requires AllDigits(s, base) && base in {10, 16}
    ensures Spells(s, ds, base)
  {
    ds := seq(|s|, k requires 0 <= k < |s| => DigitOf(s[k]));
  }

  /** A decimal number, or a hexadecimal one. */
  ghost predicate IsNumber(text: string, blanks: string, sign: string, x: string, s: string, ds: seq<nat>) {
    && text == blanks + sign + x + s
    && (if x == "" then Numeric(blanks, sign, s, ds, 10)
        else x in {"0x", "0X"} && blanks == sign == "" && s != "" && Spells(s, ds, 16))
  }

  lemma HexadecimalTaken(text: string)
    requires BaseOf(text) == 16 && StrTo(text, 16).Some?
    ensures text[..2] in {"0x", "0X"} && |text| > 2 && AllDigits(text[2..], 16)
  {
    assert SkipSpaces(text) == text;
    assert text[..2] == [text[0], text[1]];
    assert DigitOf(text[1]) >= 16;
  }

  lemma TakenIsNumber(text: string, base: nat)
    returns (blanks: string, sign: string, x: string, s: string, ds: seq<nat>)
    requires base == 10 || base == BaseOf(text)
    requires StrTo(text, base).Some?
    ensures IsNumber(text, blanks, sign, x, s, ds) && (base == 10 ==> x == "")
  {
    hide Spells, Blank, SkipSpaces, BaseOf, AllDigits;
    if base != 10 {
      BaseIs(text);
      HexadecimalTaken(text);
      ds := DigitsSpell(text[2..], 16);
      blanks, sign, x, s := "", "", text[..2], text[2..];
      HexadecimalIs(text, ds);
    } else {
      blanks := SpacesBefore(text);
      var t := SkipSpaces(text);
      sign := if t != "" && (t[0] == '-' || t[0] == '+') then [t[0]] else "";
      x, s := "", t[|sign|..];
      ds := DigitsSpell(s, 10);
      SpelledIsSome(s);
      DecimalIs(text, t, blanks, sign, s, ds);
    }
  }

  lemma HexadecimalIs(text: string, ds: seq<nat>)
    requires |text| > 2 && text[..2] in {"0x", "0X"} && Spells(text[2..], ds, 16)
    ensures IsNumber(text, "", "", text[..2], text[2..], ds)
  {
    hide Spells;
    assert Blank("");
    assert text == "" + "" + text[..2] + text[2..];
  }

  lemma DecimalIs(text: string, t: string, blanks: string, sign: string, s: string, ds: seq<nat>)
    requires text == blanks + t && sign <= t && s == t[|sign|..] && sign in {"", "-", "+"}
    requires Numeric(blanks, sign, s, ds, 10)
    ensures IsNumber(text, blanks, sign, "", s, ds)
  {
    hide Spells, Blank;
    assert t == sign + s;
    assert blanks + (sign + s) == blanks + sign + "" + s;
  }

  lemma BaseIs(text: string)
    ensures BaseOf(text) in {10, 16}
  {
  }

  lemma SpelledIsSome(s: string)
    ensures AllDigits(s, 10) ==> s != ""
  {
  }

  /** Nothing else is read as an integer, but a text of blanks as the uint64 zero. */
  lemma OnlyNumbersRead(ty: ValueType, text: string)
    returns (blanks: string, sign: string, x: string, s: string, ds: seq<nat>)
    requires ty in {FvInt32, FvInt64, FvUInt64} && ParseFrom(ty, text).Some?
    ensures (ty == FvUInt64 && forall k :: 0 <= k < |text| ==> text[k] == ' ') || IsNumber(text, blanks, sign, x, s, ds)
  {
    hide StrTo, Spells, IsNumber, Blank;
    blanks, sign, x, s, ds := "", "", "", "", [];
    if ty != FvUInt64 {
      blanks, sign, x, s, ds := TakenIsNumber(text, BaseOf(text));
    } else if SkipBlanks(text) != "" {
      if BaseOf(text) == 16 { assert SkipBlanks(text) == text; }
      var before := BlanksBefore(text);
      blanks, sign, x, s, ds := TakenIsNumber(SkipBlanks(text), BaseOf(text));
      NumberAfterBlanks(before, SkipBlanks(text), blanks, sign, x, s, ds);
      blanks := before + blanks;
    } else {
      OnlyBlanks(text);
    }
  }

  lemma {:induction false} OnlyBlanks(text: string)
    requires SkipBlanks(text) == ""
    ensures forall k :: 0 <= k < |text| ==> text[k] == ' '
  {
    if text != "" {
      OnlyBlanks(text[1..]);
      forall k | 0 < k < |text| ensures text[k] == ' ' { assert text[k] == text[1..][k - 1]; }
    }
  }

  lemma NumberAfterBlanks(before: string, text: string, blanks: string, sign: string, x: string, s: string,
                          ds: seq<nat>)
    requires Blank(before) && IsNumber(text, blanks, sign, x, s, ds) && (x != "" ==> before == "")
    ensures IsNumber(before + text, before + blanks, sign, x, s, ds)
  {
    hide Spells;
    assert before + (blanks + sign + x + s) == before + blanks + sign + x + s;
  }
}
