/**
 Signed packets: the fixed-offset wire layout `key | signature | timestamp | DNS packet`, the bytes a
 signature covers (BEP 44 mutable items), and the order in which packets replace each other.
 */
module SignedPackets {
  import opened Base
  import opened Numerals
  import opened Order

  const KEY: nat := 32
  const SIGNATURE_END: nat := 96
  const HEADER: nat := 104
  const MAX_DNS_PACKET: nat := 1000
  const MAX_PACKET: nat := HEADER + MAX_DNS_PACKET

  /** Key validation, signature verification and DNS parsing are whatever the libraries do. */
  datatype Checks = Checks(validKey: Bytes -> bool, verify: (Bytes, Bytes, Bytes) -> bool, parses: Bytes -> bool)

  datatype VerifyError = TooShort(len: nat) | TooLarge(len: nat) | InvalidKey | SignatureError | DnsError

  datatype SignedPacket = SignedPacket(bytes: Bytes)

  // ---------------------------------------------------------------- numbers as bytes

  function BigEndian(n: nat): (bytes: Bytes)
    ensures |bytes| == 8
  {
    Word(256, 8, n)
  }

  function FromBigEndian(bytes: Bytes): nat {
    Value(256, bytes)
  }

  lemma BigEndianRoundTrip(n: nat)
    requires n <= U64_MAX
    ensures FromBigEndian(BigEndian(n)) == n
  {
    WordsOf64Bits();
    WordDenotes(256, 8, n);
  }

  lemma FromBigEndianRoundTrip(bytes: Bytes)
    requires |bytes| == 8
    ensures BigEndian(FromBigEndian(bytes)) == bytes && FromBigEndian(bytes) <= U64_MAX
  {
    WordsOf64Bits();
    WordOfValue(256, bytes);
    ValueBound(256, bytes);
  }

  predicate IsDecimal(b: byte) {
    48 <= b < 58
  }

  function DecimalDigit(d: nat): (b: byte)
    ensures IsDecimal(b)
  {
    if d < 10 then 48 + d else 48
  }

  /** A number in ASCII decimal digits, without leading zeros. */
  function Decimal(n: nat): Bytes {
    var ds := Numeral(10, n);
    seq(|ds|, i requires 0 <= i < |ds| => DecimalDigit(ds[i]))
  }

  predicate Decimals(text: Bytes) {
    forall i | 0 <= i < |text| :: IsDecimal(text[i])
  }

  lemma DecimalInjective(m: nat, n: nat)
    requires Decimal(m) == Decimal(n)
    ensures m == n
  {
    hide Numeral, Value;
    NumeralDenotes(10, m);
    NumeralDenotes(10, n);
    var ds, es := Numeral(10, m), Numeral(10, n);
    assert |ds| == |Decimal(m)| && |es| == |Decimal(n)|;
    forall i | 0 <= i < |ds| ensures ds[i] == es[i] {
      assert Decimal(m)[i] == DecimalDigit(ds[i]) && Decimal(n)[i] == DecimalDigit(es[i]);
    }
    assert ds == es;
  }

  // ---------------------------------------------------------------- what is signed

  const SEQ_PREFIX: Bytes := [51, 58, 115, 101, 113, 105]
  const VALUE_PREFIX: Bytes := [101, 49, 58, 118]

  /** `3:seqi<timestamp>e1:v<length>:<payload>`. */
  function Signable(timestamp: nat, v: Bytes): Bytes {
    SEQ_PREFIX + Decimal(timestamp) + VALUE_PREFIX + Sized(v)
  }

  function Sized(v: Bytes): Bytes {
    Decimal(|v|) + ([58] + v)
  }

  /** The bytes of an ASCII text. */
  function Ascii(text: string): Bytes {
    seq(|text|, i requires 0 <= i < |text| => if text[i] as int < 128 then text[i] as int else 0)
  }

  /** Where the leading digits end. */
  function End(text: Bytes): nat {
    if text == [] || !IsDecimal(text[0]) then 0 else 1 + End(text[1..])
  }

  lemma {:induction false} EndOf(digits: Bytes, rest: Bytes)
    requires Decimals(digits) && rest != [] && !IsDecimal(rest[0])
    ensures End(digits + rest) == |digits|
  {
    if digits == [] {
      assert digits + rest == rest;
    } else {
      assert (digits + rest)[1..] == digits[1..] + rest;
      EndOf(digits[1..], rest);
    }
  }

  /** Digits up to a byte that is not one can be read off in only one way. */
  lemma DigitsEndOnce(a: Bytes, rest: Bytes, b: Bytes, rest': Bytes)
    requires Decimals(a) && Decimals(b) && a + rest == b + rest'
    requires rest != [] && !IsDecimal(rest[0]) && rest' != [] && !IsDecimal(rest'[0])
    ensures a == b && rest == rest'
  {
    EndOf(a, rest);
    EndOf(b, rest');
    assert (a + rest)[..|a|] == a && (b + rest')[..|b|] == b;
    assert (a + rest)[|a|..] == rest && (b + rest')[|b|..] == rest';
  }

  // ---------------------------------------------------------------- reading it back

  /** The number that decimal digits in ASCII stand for. */
  function NumberOf(digits: Bytes): nat
    requires Decimals(digits)
  {
    if digits == [] then 0 else 10 * NumberOf(digits[..|digits| - 1]) + (digits[|digits| - 1] - 48)
  }

  lemma DigitsOfPrefix(text: Bytes, n: nat)
    requires n <= End(text)
    ensures n <= |text| && Decimals(text[..n])
    decreases n
  {
    if n > 0 {
      DigitsOfPrefix(text[1..], n - 1);
      assert text[..n] == [text[0]] + text[1..][..n - 1];
    }
  }

  /** A number and what follows its digits; a number has no leading zero. */
  function ReadNumber(text: Bytes): Option<(nat, Bytes)> {
    var end := End(text);
    DigitsOfPrefix(text, end);
    if end == 0 || (end > 1 && text[0] == '0' as int) then None else Some((NumberOf(text[..end]), text[end..]))
  }

  function Past(prefix: Bytes, text: Bytes): Option<Bytes> {
    if prefix <= text then Some(text[|prefix|..]) else None
  }

  /** Reads a BEP 44 signature buffer: the sequence number and the value, as bencoded strings and integers. */
  function ReadSignable(text: Bytes): Option<(nat, Bytes)> {
    match Past(Ascii("3:seqi"), text)
    case None => None
    case Some(number) => match ReadNumber(number)
      case None => None
      case Some((timestamp, rest)) => match Past(Ascii("e1:v"), rest)
        case None => None
        case Some(sized) => match ReadNumber(sized)
          case None => None
          case Some((length, tail)) => match Past(Ascii(":"), tail)
            case None => None
            case Some(payload) => if |payload| == length then Some((timestamp, payload)) else None
  }

  lemma {:induction false} DecimalDenotes(n: nat)
    ensures Decimals(Decimal(n)) && NumberOf(Decimal(n)) == n
    ensures Decimal(n) != [] && (|Decimal(n)| > 1 ==> Decimal(n)[0] != '0' as int)
  {
    hide Value;
    DecimalIsDecimals(n);
    NumeralDenotes(10, n);
    var ds, text := Numeral(10, n), Decimal(n);
    if n < 10 {
      assert text == [48 + n] && text[..0] == [];
    } else {
      DecimalDenotes(High(10, n));
      ShiftOf(10, n);
      assert ds[..|ds| - 1] == Numeral(10, High(10, n));
      assert text[..|text| - 1] == Decimal(High(10, n));
      assert ds[|ds| - 1] == Low(10, n);
    }
  }

  lemma NumberReads(n: nat, rest: Bytes)
    requires rest != [] && !IsDecimal(rest[0])
    ensures ReadNumber(Decimal(n) + rest) == Some((n, rest))
  {
    hide Decimal, NumberOf;
    DecimalDenotes(n);
    EndOf(Decimal(n), rest);
    assert (Decimal(n) + rest)[..|Decimal(n)|] == Decimal(n) && (Decimal(n) + rest)[|Decimal(n)|..] == rest;
  }

  lemma PrefixesAreAscii()
    ensures SEQ_PREFIX == Ascii("3:seqi") && VALUE_PREFIX == Ascii("e1:v") && [58] == Ascii(":")
  {
  }

  lemma PastPrefix(prefix: Bytes, rest: Bytes)
    ensures Past(prefix, prefix + rest) == Some(rest)
  {
  }

  /** What is signed is the bencoded sequence number and value: a reader of that format gets both back. */
  lemma SignableReads(timestamp: nat, v: Bytes)
    ensures ReadSignable(Signable(timestamp, v)) == Some((timestamp, v))
  {
    hide Decimal, ReadNumber, Ascii, Past;
    PrefixesAreAscii();
    var sized := Sized(v);
    assert Signable(timestamp, v) == SEQ_PREFIX + (Decimal(timestamp) + (VALUE_PREFIX + sized));
    PastPrefix(SEQ_PREFIX, Decimal(timestamp) + (VALUE_PREFIX + sized));
    NumberReads(timestamp, VALUE_PREFIX + sized);
    PastPrefix(VALUE_PREFIX, sized);
    NumberReads(|v|, [58] + v);
    PastPrefix([58], v);
  }

  /** Nothing that is signed can be read as another timestamp or another payload. */
  lemma SignableInjective(t: nat, v: Bytes, t': nat, v': Bytes)
    requires Signable(t, v) == Signable(t', v')
    ensures t == t' && v == v'
  {
    hide Decimal;
    var value, value' := Sized(v), Sized(v');
    assert Signable(t, v)[6..] == Decimal(t) + (VALUE_PREFIX + value)
           && Signable(t', v')[6..] == Decimal(t') + (VALUE_PREFIX + value');
    DecimalIsDecimals(t);
    DecimalIsDecimals(t');
    DigitsEndOnce(Decimal(t), VALUE_PREFIX + value, Decimal(t'), VALUE_PREFIX + value');
    DecimalInjective(t, t');
    assert (VALUE_PREFIX + value)[4..] == value && (VALUE_PREFIX + value')[4..] == value';
    SizedInjective(v, v');
  }

  lemma DecimalIsDecimals(n: nat)
    ensures Decimals(Decimal(n))
  {
  }

  lemma SizedInjective(v: Bytes, v': Bytes)
    requires Sized(v) == Sized(v')
    ensures v == v'
  {
    hide Decimal;
    DecimalIsDecimals(|v|);
    DecimalIsDecimals(|v'|);
    DigitsEndOnce(Decimal(|v|), [58] + v, Decimal(|v'|), [58] + v');
    assert ([58] + v)[1..] == v && ([58] + v')[1..] == v';
  }

  // ---------------------------------------------------------------- layout

  function Layout(key: Bytes, signature: Bytes, timestamp: nat, encoded: Bytes): Bytes {
    key + signature + BigEndian(timestamp) + encoded
  }

  function PublicKey(p: SignedPacket): Bytes
    requires |p.bytes| >= HEADER
  {
    p.bytes[..KEY]
  }

  function Signature(p: SignedPacket): Bytes
    requires |p.bytes| >= HEADER
  {
    p.bytes[KEY..SIGNATURE_END]
  }

  function Timestamp(p: SignedPacket): nat
    requires |p.bytes| >= HEADER
  {
    FromBigEndian(p.bytes[SIGNATURE_END..HEADER])
  }

  function EncodedPacket(p: SignedPacket): Bytes
    requires |p.bytes| >= HEADER
  {
    p.bytes[HEADER..]
  }

  function FromBytesUnchecked(c: Checks, bytes: Bytes): Result<SignedPacket, VerifyError> {
    if |bytes| < HEADER then Err(TooShort(|bytes|))
    else if |bytes| > MAX_PACKET then Err(TooLarge(|bytes|))
    else if !c.parses(bytes[HEADER..]) then Err(DnsError)
    else Ok(SignedPacket(bytes))
  }

  function FromBytes(c: Checks, bytes: Bytes): Result<SignedPacket, VerifyError> {
    if |bytes| < HEADER then Err(TooShort(|bytes|))
    else if |bytes| > MAX_PACKET then Err(TooLarge(|bytes|))
    else
      var p := SignedPacket(bytes);
      if !c.validKey(PublicKey(p)) then Err(InvalidKey)
      else if !c.verify(PublicKey(p), Signable(Timestamp(p), EncodedPacket(p)), Signature(p)) then Err(SignatureError)
      else if !c.parses(EncodedPacket(p)) then Err(DnsError)
      else Ok(p)
  }

  function FromParts(c: Checks, key: Bytes, signature: Bytes, timestamp: nat, encoded: Bytes)
    : Result<SignedPacket, VerifyError>
    requires |key| == 32 && |signature| == 64 && timestamp <= U64_MAX
  {
    FromBytes(c, Layout(key, signature, timestamp, encoded))
  }

  function FromPartsUnchecked(c: Checks, key: Bytes, signature: Bytes, timestamp: nat, encoded: Bytes)
    : Result<SignedPacket, VerifyError>
    requires timestamp <= U64_MAX
  {
    FromBytesUnchecked(c, Layout(key, signature, timestamp, encoded))
  }

  function RelayPayload(p: SignedPacket): Bytes
    requires |p.bytes| >= HEADER
  {
    p.bytes[KEY..]
  }

  function FromRelayPayload(c: Checks, key: Bytes, payload: Bytes): Result<SignedPacket, VerifyError>
    requires |key| == 32
  {
    FromBytes(c, key + payload)
  }

  lemma LayoutParts(key: Bytes, signature: Bytes, timestamp: nat, encoded: Bytes)
    requires |key| == 32 && |signature| == 64 && timestamp <= U64_MAX
    ensures var p := SignedPacket(Layout(key, signature, timestamp, encoded));
            && |p.bytes| == HEADER + |encoded|
            && PublicKey(p) == key && Signature(p) == signature && Timestamp(p) == timestamp
            && EncodedPacket(p) == encoded
  {
    hide BigEndian, FromBigEndian;
    BigEndianRoundTrip(timestamp);
    assert Layout(key, signature, timestamp, encoded)[SIGNATURE_END..HEADER] == BigEndian(timestamp);
  }

  /**
   Assembling from parts accepts exactly the parts that check out, reports the first check that fails, and
   keeps the parts.
   */
  lemma PartsAreKept(c: Checks, key: Bytes, signature: Bytes, timestamp: nat, encoded: Bytes)
    requires |key| == 32 && |signature| == 64 && timestamp <= U64_MAX
    ensures match FromParts(c, key, signature, timestamp, encoded)
            case Ok(p) =>
              && PublicKey(p) == key && Signature(p) == signature && Timestamp(p) == timestamp
              && EncodedPacket(p) == encoded
              && |encoded| <= MAX_DNS_PACKET && c.validKey(key)
              && c.verify(key, Signable(timestamp, encoded), signature) && c.parses(encoded)
            case Err(TooShort(_)) => false
            case Err(TooLarge(len)) => len == |encoded| + 104 && |encoded| > MAX_DNS_PACKET
            case Err(InvalidKey) => |encoded| <= MAX_DNS_PACKET && !c.validKey(key)
            case Err(SignatureError) => c.validKey(key) && !c.verify(key, Signable(timestamp, encoded), signature)
            case Err(DnsError) => c.verify(key, Signable(timestamp, encoded), signature) && !c.parses(encoded)
  {
    hide Signable, Layout;
    LayoutParts(key, signature, timestamp, encoded);
  }

  /** Every accepted packet is rebuilt, whole, from its own parts. */
  lemma PartsRebuild(c: Checks, bytes: Bytes)
    requires FromBytes(c, bytes).Ok?
    ensures var p := FromBytes(c, bytes).value;
            && |Signature(p)| == 64 && Timestamp(p) <= U64_MAX
            && FromParts(c, PublicKey(p), Signature(p), Timestamp(p), EncodedPacket(p)) == Ok(p)
            && FromBytesUnchecked(c, bytes) == Ok(p)
  {
    hide Signable, BigEndian;
    var p := SignedPacket(bytes);
    FromBigEndianRoundTrip(bytes[SIGNATURE_END..HEADER]);
    assert Layout(PublicKey(p), Signature(p), Timestamp(p), EncodedPacket(p)) == bytes;
  }

  /** The relay payload and the key give the same packet back, and the payload is within its bound. */
  lemma RelayRoundTrip(c: Checks, bytes: Bytes)
    requires FromBytes(c, bytes).Ok?
    ensures var p := FromBytes(c, bytes).value;
            FromRelayPayload(c, PublicKey(p), RelayPayload(p)) == Ok(p) && |RelayPayload(p)| <= MAX_PACKET - 32
  {
    hide Signable;
    assert bytes[..KEY] + bytes[KEY..] == bytes;
  }

  /** Without checks, the parts come back exactly when the key and the signature have their fixed lengths. */
  lemma UncheckedParts(c: Checks, key: Bytes, signature: Bytes, timestamp: nat, encoded: Bytes)
    requires timestamp <= U64_MAX && FromPartsUnchecked(c, key, signature, timestamp, encoded).Ok?
    ensures var p := FromPartsUnchecked(c, key, signature, timestamp, encoded).value;
            (PublicKey(p) == key && Signature(p) == signature && Timestamp(p) == timestamp
             && EncodedPacket(p) == encoded)
            <==> (|key| == 32 && |signature| == 64)
  {
    if |key| == 32 && |signature| == 64 { LayoutParts(key, signature, timestamp, encoded); }
  }

  /** What a publisher signs and lays out, every reader accepts. */
  lemma PublishedPacketsVerify(c: Checks, key: Bytes, sign: Bytes -> Bytes, timestamp: nat, encoded: Bytes)
    requires |key| == 32 && timestamp <= U64_MAX && |encoded| <= MAX_DNS_PACKET
    requires forall m :: |sign(m)| == 64 && c.verify(key, m, sign(m))
    ensures var bytes := Layout(key, sign(Signable(timestamp, encoded)), timestamp, encoded);
            FromBytes(c, bytes) == Ok(SignedPacket(bytes)) <==> c.validKey(key) && c.parses(encoded)
  {
    hide Signable, Layout;
    LayoutParts(key, sign(Signable(timestamp, encoded)), timestamp, encoded);
  }

  // ---------------------------------------------------------------- recency

  function MoreRecentThan(p: SignedPacket, q: SignedPacket): bool
    requires |p.bytes| >= HEADER && |q.bytes| >= HEADER
  {
    if Timestamp(p) == Timestamp(q) then Less(EncodedPacket(q), EncodedPacket(p)) else Timestamp(p) > Timestamp(q)
  }

  /** Packets by timestamp, and packets of one timestamp by their contents in lexicographic order. */
  predicate NotAfter(p: SignedPacket, q: SignedPacket)
    requires |p.bytes| >= HEADER && |q.bytes| >= HEADER
  {
    || Timestamp(p) < Timestamp(q)
    || (Timestamp(p) == Timestamp(q) && Leq(EncodedPacket(p), EncodedPacket(q)))
  }

  /** A packet is the more recent one exactly if it does not come at or before the other. */
  lemma RecencyIsAfter(p: SignedPacket, q: SignedPacket)
    requires |p.bytes| >= HEADER && |q.bytes| >= HEADER
    ensures MoreRecentThan(p, q) <==> !NotAfter(p, q)
  {
    hide Timestamp, EncodedPacket, Less;
    var a, b := EncodedPacket(p), EncodedPacket(q);
    Irreflexive(a);
    Trichotomy(a, b);
    if Less(a, b) { Asymmetric(a, b); }
  }

  lemma NotAfterTransitive(p: SignedPacket, q: SignedPacket, r: SignedPacket)
    requires |p.bytes| >= HEADER && |q.bytes| >= HEADER && |r.bytes| >= HEADER && NotAfter(p, q) && NotAfter(q, r)
    ensures NotAfter(p, r)
  {
    hide Timestamp, EncodedPacket, Less;
    var a, b, c := EncodedPacket(p), EncodedPacket(q), EncodedPacket(r);
    if Less(a, b) && Less(b, c) { Transitive(a, b, c); }
  }

  /** Recency is a strict order that leaves only equal timestamps with equal contents unordered. */
  lemma RecencyIsStrictTotal(p: SignedPacket, q: SignedPacket, r: SignedPacket)
    requires |p.bytes| >= HEADER && |q.bytes| >= HEADER && |r.bytes| >= HEADER
    ensures !MoreRecentThan(p, p)
    ensures MoreRecentThan(p, q) ==> !MoreRecentThan(q, p)
    ensures MoreRecentThan(p, q) && MoreRecentThan(q, r) ==> MoreRecentThan(p, r)
    ensures !MoreRecentThan(p, q) && !MoreRecentThan(q, p)
       <==> Timestamp(p) == Timestamp(q) && EncodedPacket(p) == EncodedPacket(q)
  {
    hide Timestamp, EncodedPacket, Less;
    var a, b, c := EncodedPacket(p), EncodedPacket(q), EncodedPacket(r);
    Irreflexive(a);
    Trichotomy(a, b);
    if Less(b, a) { Asymmetric(b, a); }
    if Less(a, b) { Asymmetric(a, b); }
    if Less(b, a) && Less(c, b) { Transitive(c, b, a); }
  }

  /** Reading bytes from the first to the last, each worth 256 times the next. */
  function ReadOn(read: nat, bytes: Bytes): nat
    decreases |bytes|
  {
    if bytes == [] then read else ReadOn(256 * read + bytes[0], bytes[1..])
  }

  lemma {:induction false} ReadOnIsValue(read: Bytes, bytes: Bytes)
    ensures ReadOn(Value(256, read), bytes) == Value(256, read + bytes)
    decreases |bytes|
  {
    if bytes == [] {
      assert read + bytes == read;
    } else {
      assert (read + [bytes[0]])[..|read|] == read;
      assert read + bytes == (read + [bytes[0]]) + bytes[1..];
      ReadOnIsValue(read + [bytes[0]], bytes[1..]);
    }
  }

  /** Timestamps are written high byte first. */
  lemma HighByteFirst(bytes: Bytes)
    ensures FromBigEndian(bytes) == ReadOn(0, bytes)
  {
    ReadOnIsValue([], bytes);
    assert [] + bytes == bytes;
  }

  /** Which bytes are accepted, and the first check that fails otherwise. */
  lemma BytesAreChecked(c: Checks, bytes: Bytes)
    ensures |bytes| < 104 ==> FromBytes(c, bytes) == FromBytesUnchecked(c, bytes) == Err(TooShort(|bytes|))
    ensures |bytes| > 1104 ==> FromBytes(c, bytes) == FromBytesUnchecked(c, bytes) == Err(TooLarge(|bytes|))
    ensures 104 <= |bytes| <= 1104 ==>
              var p := SignedPacket(bytes);
              var signed := c.verify(bytes[..32], Signable(Timestamp(p), bytes[104..]), bytes[32..96]);
              && (FromBytes(c, bytes) == Err(InvalidKey) <==> !c.validKey(bytes[..32]))
              && (FromBytes(c, bytes) == Err(SignatureError) <==> c.validKey(bytes[..32]) && !signed)
              && (FromBytes(c, bytes) == Err(DnsError)
                  <==> c.validKey(bytes[..32]) && signed && !c.parses(bytes[104..]))
              && (FromBytes(c, bytes) == Ok(p) <==> c.validKey(bytes[..32]) && signed && c.parses(bytes[104..]))
              && FromBytesUnchecked(c, bytes) == (if c.parses(bytes[104..]) then Ok(p) else Err(DnsError))
  {
    hide Signable;
  }
}
