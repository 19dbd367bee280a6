/** The text form of custom addresses: the id in hexadecimal, an underscore, and the data in lower-case hexadecimal. */
module CustomAddrText {
  import opened Base
  import opened Numerals
  import opened CustomAddrs

  function HexChar(d: nat): char {
    if d < 10 then '0' + d as char else if d < 16 then 'a' + (d - 10) as char else '0'
  }

  /** The digit a lower-case character stands for; sixteen if it stands for none. */
  function LowerValue(c: char): nat {
    if '0' <= c <= '9' then (c - '0') as nat else if 'a' <= c <= 'f' then (c - 'a') as nat + 10 else 16
  }

  function HexValue(c: char): nat {
    if 'A' <= c <= 'F' then (c - 'A') as nat + 10 else LowerValue(c)
  }

  lemma HexCharDenotes(d: nat)
    requires d < 16
    ensures LowerValue(HexChar(d)) == d == HexValue(HexChar(d))
  {
  }

  lemma LowerCharIsHexChar(c: char)
    requires LowerValue(c) < 16
    ensures HexChar(LowerValue(c)) == c && HexValue(c) == LowerValue(c)
  {
  }

  // ---------------------------------------------------------------- the id

  function PrintHex(n: nat): string {
    var ds := Numeral(16, n);
    seq(|ds|, i requires 0 <= i < |ds| => HexChar(ds[i]))
  }

  function HexValues(text: string): (ds: Digits)
    ensures |ds| == |text|
  {
    seq(|text|, i requires 0 <= i < |text| => HexValue(text[i]))
  }

  /** `u64::from_str_radix(_, 16)`: an optional plus sign, at least one digit of either case, no overflow. */
  function ParseHex(text: string): Option<nat> {
    var digits := if |text| > 1 && text[0] == '+' then text[1..] else text;
    var ds := HexValues(digits);
    if digits == [] || !InBase(16, ds) || Value(16, ds) > U64_MAX then None else Some(Value(16, ds))
  }

  predicate LowerHex(text: string) {
    forall i | 0 <= i < |text| :: LowerValue(text[i]) < 16
  }

  /** How the id is printed: lower case, no sign, no leading zeros. */
  predicate Plain(text: string) {
    LowerHex(text) && text != [] && (text[0] != '0' || |text| == 1)
  }

  lemma PrintedHex(n: nat)
    ensures HexValues(PrintHex(n)) == Numeral(16, n) && Plain(PrintHex(n))
  {
    hide Numeral, Value;
    var ds := Numeral(16, n);
    NumeralDenotes(16, n);
    forall i | 0 <= i < |ds| ensures HexValue(PrintHex(n)[i]) == ds[i] && LowerValue(PrintHex(n)[i]) == ds[i] {
      HexCharDenotes(ds[i]);
    }
    ZeroNumeral(n);
  }

  lemma ZeroNumeral(n: nat)
    ensures n == 0 ==> |Numeral(16, n)| == 1
  {
  }

  lemma HexRoundTrip(n: nat)
    requires n <= U64_MAX
    ensures ParseHex(PrintHex(n)) == Some(n)
  {
    hide Numeral, Value;
    PrintedHex(n);
    NumeralDenotes(16, n);
    assert PrintHex(n)[0] != '+';
  }

  lemma PlainHexIsPrinted(text: string)
    requires Plain(text) && Value(16, HexValues(text)) <= U64_MAX
    ensures ParseHex(text).Some? && PrintHex(ParseHex(text).value) == text
  {
    hide Numeral, Value;
    var ds := HexValues(text);
    forall i | 0 <= i < |text| ensures HexChar(ds[i]) == text[i] && ds[i] < 16 { LowerCharIsHexChar(text[i]); }
    assert text[0] != '+';
    assert ds[0] == HexValue(text[0]);
    NumeralOfValue(16, ds);
  }

  // ---------------------------------------------------------------- the data

  function EncodeLower(data: Bytes): (text: string)
    ensures |text| == 2 * |data|
  {
    seq(2 * |data|, i requires 0 <= i < 2 * |data| =>
      HexChar(if i % 2 == 0 then data[i / 2] / 16 else data[i / 2] % 16))
  }

  function DecodeLower(text: string): Option<Bytes> {
    if |text| % 2 != 0 || !LowerHex(text) then None
    else Some(seq(|text| / 2,
              i requires 0 <= i < |text| / 2 => 16 * LowerValue(text[2 * i]) + LowerValue(text[2 * i + 1])))
  }

  lemma EncodedPair(data: Bytes, i: nat)
    requires i < |data|
    ensures LowerValue(EncodeLower(data)[2 * i]) == data[i] / 16
            && LowerValue(EncodeLower(data)[2 * i + 1]) == data[i] % 16
  {
    HexCharDenotes(data[i] / 16);
    HexCharDenotes(data[i] % 16);
    assert (2 * i) % 2 == 0 && (2 * i) / 2 == i && (2 * i + 1) % 2 == 1 && (2 * i + 1) / 2 == i;
  }

  lemma EncodedIsLowerHex(data: Bytes)
    ensures LowerHex(EncodeLower(data))
  {
    var text := EncodeLower(data);
    forall i | 0 <= i < |text| ensures LowerValue(text[i]) < 16 {
      EncodedPair(data, i / 2);
      assert i == 2 * (i / 2) || i == 2 * (i / 2) + 1;
    }
  }

  lemma DataRoundTrip(data: Bytes)
    ensures DecodeLower(EncodeLower(data)) == Some(data)
  {
    var text := EncodeLower(data);
    EncodedIsLowerHex(data);
    var back := DecodeLower(text).value;
    forall i | 0 <= i < |data| ensures back[i] == data[i] { EncodedPair(data, i); }
    assert back == data;
  }

  lemma DataIsExact(text: string)
    requires DecodeLower(text).Some?
    ensures EncodeLower(DecodeLower(text).value) == text
  {
    var data := DecodeLower(text).value;
    forall i | 0 <= i < |text| ensures EncodeLower(data)[i] == text[i] {
      var k := i / 2;
      assert i == 2 * k || i == 2 * k + 1;
      LowerCharIsHexChar(text[i]);
      assert data[k] / 16 == LowerValue(text[2 * k]) && data[k] % 16 == LowerValue(text[2 * k + 1]);
    }
  }

  // ---------------------------------------------------------------- the address

  /** The parts before and after the first occurrence of a character. */
  function SplitOnce(text: string, c: char): (parts: Option<(string, string)>)
    ensures parts.Some? <==> c in text
    ensures parts.Some? ==> c !in parts.value.0 && text == parts.value.0 + [c] + parts.value.1
  {
    if text == [] then None
    else if text[0] == c then Some(([], text[1..]))
    else
      var rest := SplitOnce(text[1..], c);
      if rest.None? then None else Some(([text[0]] + rest.value.0, rest.value.1))
  }

  lemma {:induction false} SplitOnceAt(before: string, c: char, after: string)
    requires c !in before
    ensures SplitOnce(before + [c] + after, c) == Some((before, after))
  {
    var text := before + [c] + after;
    if before == [] {
      assert text[1..] == after;
    } else {
      assert text[1..] == before[1..] + [c] + after;
      assert text[0] == before[0] && before[0] in before;
      SplitOnceAt(before[1..], c, after);
      assert [before[0]] + before[1..] == before;
    }
  }

  function Print(a: CustomAddr): string
    requires Stored(a.data)
  {
    PrintHex(a.id) + "_" + EncodeLower(AsBytes(a.data))
  }

  function FromStr(text: string): Result<CustomAddr, AddrError> {
    match SplitOnce(text, '_')
    case None => Err(MissingSeparator)
    case Some((idText, dataText)) =>
      var id := ParseHex(idText);
      if id.None? then Err(InvalidId) else
      var data := DecodeLower(dataText);
      if data.None? then Err(InvalidData) else TryFromParts(id.value, data.value)
  }

  /** Every address that fits parses from its text, whatever its id and data. */
  lemma TextRoundTrip(a: CustomAddr)
    requires Valid(a)
    ensures Stored(a.data) && (FromStr(Print(a)) == Ok(a) <==> |AsBytes(a.data)| <= MAX_CUSTOM_ADDR_BYTES)
  {
    hide Numeral, Value, PrintHex, ParseHex, EncodeLower, DecodeLower;
    CanonicalIsCopy(a.data);
    PrintedHex(a.id);
    HexRoundTrip(a.id);
    DataRoundTrip(AsBytes(a.data));
    LowerHexHasNone(PrintHex(a.id));
    SplitOnceAt(PrintHex(a.id), '_', EncodeLower(AsBytes(a.data)));
  }

  lemma LowerHexHasNone(text: string)
    requires LowerHex(text)
    ensures '_' !in text && ':' !in text && '=' !in text
  {
  }

  /** Parsed addresses are canonical, and the text was the printed form exactly when its id was written plainly. */
  lemma TextIsExact(text: string)
    requires FromStr(text).Ok?
    ensures var a := FromStr(text).value;
            && Valid(a) && Stored(a.data) && |AsBytes(a.data)| <= MAX_CUSTOM_ADDR_BYTES
            && (Print(a) == text <==> Plain(SplitOnce(text, '_').value.0))
  {
    hide Numeral, Value, PrintHex, EncodeLower, DecodeLower, SplitOnce;
    var idText, dataText := SplitOnce(text, '_').value.0, SplitOnce(text, '_').value.1;
    var a := FromStr(text).value;
    CopyKeepsBytes(DecodeLower(dataText).value);
    DataIsExact(dataText);
    PrintedHex(a.id);
    LowerHexHasNone(PrintHex(a.id));
    SplitOnceAt(PrintHex(a.id), '_', dataText);
    if Plain(idText) {
      assert idText[0] != '+';
      PlainHexIsPrinted(idText);
    }
  }

  lemma SpellingsOfTen()
    ensures ParseHex("+0A") == Some(10) == ParseHex("a")
  {
    assert "+0A"[1..] == "0A";
    assert HexValues("0A") == [0, 10] && HexValues("a") == [10];
    assert [0, 10][..1] == [0];
    SingleDigit(16, 0);
    SingleDigit(16, 10);
  }

  /** Two spellings of one address: parsing is not injective. */
  lemma SpellingsOfOneAddress()
    ensures FromStr("+0A_").Ok? && FromStr("+0A_") == FromStr("a_")
  {
    hide ParseHex, SplitOnce, CopyFromSlice;
    SpellingsOfTen();
    SplitOnceAt("+0A", '_', "");
    SplitOnceAt("a", '_', "");
    assert "+0A_" == "+0A" + ['_'] + "" && "a_" == "a" + ['_'] + "";
  }

  /** The printed text is made of lower-case digits around one underscore: no colon and no equals sign. */
  lemma PrintedCharacters(a: CustomAddr)
    requires Valid(a)
    ensures Stored(a.data) && ':' !in Print(a) && '=' !in Print(a) && '_' in Print(a)
  {
    hide PrintHex, EncodeLower;
    CanonicalIsCopy(a.data);
    PrintedHex(a.id);
    LowerHexHasNone(PrintHex(a.id));
    EncodedIsLowerHex(AsBytes(a.data));
    LowerHexHasNone(EncodeLower(AsBytes(a.data)));
    assert Print(a)[|PrintHex(a.id)|] == '_';
  }

  lemma HexDigits(d: nat)
    requires d < 16
    ensures HexChar(d) == "0123456789abcdef"[d]
  {
  }

  /** The published spelling of an address: `deadbeef_0102`. */
  lemma PublishedSpelling()
    ensures var a := FromPartsUnchecked(0xdead_beef, [1, 2]); Stored(a.data) && Print(a) == "deadbeef_0102"
  {
    hide CopyFromSlice, AsBytes;
    CopyKeepsBytes([1, 2]);
    var ds := [13, 14, 10, 13, 11, 14, 14, 15];
    assert Value(16, ds) == 0xdead_beef by {
      assert ds[..7] == [13, 14, 10, 13, 11, 14, 14] && ds[..7][..6] == [13, 14, 10, 13, 11, 14];
      assert [13, 14, 10, 13, 11, 14][..5] == [13, 14, 10, 13, 11] && [13, 14, 10, 13, 11][..4] == [13, 14, 10, 13];
      assert [13, 14, 10, 13][..3] == [13, 14, 10] && [13, 14, 10][..2] == [13, 14] && [13, 14][..1] == [13];
      SingleDigit(16, 13);
      assert Value(16, [13, 14]) == 0xde;
      assert Value(16, [13, 14, 10]) == 0xdea;
      assert Value(16, [13, 14, 10, 13]) == 0xdead;
      assert Value(16, [13, 14, 10, 13, 11]) == 0xdeadb;
      assert Value(16, [13, 14, 10, 13, 11, 14]) == 0xdeadbe;
      assert Value(16, [13, 14, 10, 13, 11, 14, 14]) == 0xdeadbee;
    }
    NumeralOfValue(16, ds);
    assert PrintHex(0xdead_beef) == "deadbeef";
    assert EncodeLower([1, 2]) == "0102";
  }

  /** A hexadecimal number of either case, with or without a plus sign. */
  predicate IsHexNumber(text: string) {
    var digits := if |text| > 1 && text[0] == '+' then text[1..] else text;
    digits != [] && forall c | c in digits :: c in "0123456789abcdefABCDEF"
  }

  predicate IsHexData(text: string) {
    |text| % 2 == 0 && forall c | c in text :: c in "0123456789abcdef"
  }

  lemma HexCharacters(c: char)
    ensures HexValue(c) < 16 <==> c in "0123456789abcdefABCDEF"
    ensures LowerValue(c) < 16 <==> c in "0123456789abcdef"
  {
  }

  lemma HexNumbersParse(text: string)
    ensures ParseHex(text).Some? ==> IsHexNumber(text) && ParseHex(text).value <= U64_MAX
    ensures ParseHex(text).None? && IsHexNumber(text) ==>
              Value(16, HexValues(if |text| > 1 && text[0] == '+' then text[1..] else text)) > U64_MAX
  {
    hide Value, HexValue;
    var digits := if |text| > 1 && text[0] == '+' then text[1..] else text;
    forall i | 0 <= i < |digits| ensures HexValues(digits)[i] < 16 <==> digits[i] in "0123456789abcdefABCDEF" {
      HexCharacters(digits[i]);
    }
  }

  lemma HexDataDecodes(text: string)
    ensures DecodeLower(text).Some? <==> IsHexData(text)
  {
    hide LowerValue;
    forall i | 0 <= i < |text| ensures LowerValue(text[i]) < 16 <==> text[i] in "0123456789abcdef" {
      HexCharacters(text[i]);
    }
  }

  /** Which texts are refused, and why. */
  lemma BadTextsAreRefused(text: string)
    ensures '_' !in text <==> FromStr(text) == Err(MissingSeparator)
    ensures '_' in text ==>
              var id, data := SplitOnce(text, '_').value.0, SplitOnce(text, '_').value.1;
              && (!IsHexNumber(id) ==> FromStr(text) == Err(InvalidId))
              && (ParseHex(id).Some? && !IsHexData(data) ==> FromStr(text) == Err(InvalidData))
              && (ParseHex(id).Some? && IsHexData(data) && |data| > 1024 ==> FromStr(text) == Err(TooLong))
              && (ParseHex(id).Some? && IsHexData(data) && |data| <= 1024 ==> FromStr(text).Ok?)
  {
    hide ParseHex, DecodeLower, SplitOnce, CopyFromSlice;
    if '_' in text {
      var parts := SplitOnce(text, '_').value;
      HexNumbersParse(parts.0);
      HexDataDecodes(parts.1);
      DecodedLength(parts.1);
    }
  }

  lemma DecodedLength(text: string)
    ensures DecodeLower(text).Some? ==> 2 * |DecodeLower(text).value| == |text|
  {
  }
}
