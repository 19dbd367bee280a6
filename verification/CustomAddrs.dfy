/** Custom transport addresses: storage in a small inline buffer or on the heap, and their binary and text forms. */
module CustomAddrs {
  import opened Base
  import opened Numerals

  const INLINE: nat := 30
  const MAX_CUSTOM_ADDR_BYTES: nat := 512

  /** Storage: an inline buffer of thirty bytes with the number in use, or a heap block. */
  datatype AddrBytes = Inline(size: byte, buffer: Bytes) | Heap(data: Bytes)

  datatype CustomAddr = CustomAddr(id: nat, data: AddrBytes)

  datatype AddrError = TooShort | TooLong | MissingSeparator | InvalidId | InvalidData | InvalidSize

  predicate Stored(d: AddrBytes) {
    d.Inline? ==> |d.buffer| == INLINE && d.size <= INLINE
  }

  function AsBytes(d: AddrBytes): Bytes
    requires Stored(d)
  {
    match d
    case Inline(size, buffer) => buffer[..size]
    case Heap(data) => data
  }

  /** The one representation the constructors produce: short data inline and zero-padded, long data on the heap. */
  predicate Canonical(d: AddrBytes) {
    match d
    case Inline(size, buffer) => |buffer| == INLINE && size <= INLINE && forall i | size <= i < INLINE :: buffer[i] == 0
    case Heap(data) => |data| > INLINE
  }

  predicate Valid(a: CustomAddr) {
    a.id <= U64_MAX && Canonical(a.data)
  }

  function Zeros(n: nat): (z: Bytes)
    ensures |z| == n && forall i | 0 <= i < n :: z[i] == 0
  {
    seq(n, i => 0)
  }

  function CopyFromSlice(data: Bytes): AddrBytes {
    if |data| <= INLINE then Inline(|data|, data + Zeros(INLINE - |data|)) else Heap(data)
  }

  function FromPartsUnchecked(id: nat, data: Bytes): CustomAddr {
    CustomAddr(id, CopyFromSlice(data))
  }

  function TryFromParts(id: nat, data: Bytes): Result<CustomAddr, AddrError> {
    if |data| > MAX_CUSTOM_ADDR_BYTES then Err(TooLong) else Ok(FromPartsUnchecked(id, data))
  }

  /** What is copied in is what is read out, and the copy is canonical. */
  lemma CopyKeepsBytes(data: Bytes)
    ensures Canonical(CopyFromSlice(data)) && Stored(CopyFromSlice(data)) && AsBytes(CopyFromSlice(data)) == data
  {
  }

  lemma CanonicalIsCopy(d: AddrBytes)
    requires Canonical(d)
    ensures Stored(d) && CopyFromSlice(AsBytes(d)) == d
  {
    if d.Inline? { assert d.buffer == d.buffer[..d.size] + Zeros(INLINE - d.size); }
  }

  /** Among canonical addresses, field-by-field equality is equality of the transport id and the bytes. */
  lemma EqualityIsByContents(a: CustomAddr, b: CustomAddr)
    requires Valid(a) && Valid(b)
    ensures Stored(a.data) && Stored(b.data)
    ensures a == b <==> a.id == b.id && AsBytes(a.data) == AsBytes(b.data)
  {
    CanonicalIsCopy(a.data);
    CanonicalIsCopy(b.data);
  }

  /** Storage that is not canonical breaks that: the same byte, stored inline and on the heap. */
  lemma UncanonicalStorageDiffers()
    ensures var inline, heap := CopyFromSlice([7]), Heap([7]);
            Stored(inline) && Stored(heap) && AsBytes(inline) == AsBytes(heap) && inline != heap
  {
    CopyKeepsBytes([7]);
  }

  // ---------------------------------------------------------------- deserializing

  /** Storage as a deserializer reads it: sizes and lengths are the sender's claims. */
  function ReadStorage(d: AddrBytes): Result<AddrBytes, AddrError>
    requires d.Inline? ==> |d.buffer| == INLINE
  {
    match d
    case Inline(size, _) => if size > INLINE then Err(InvalidSize) else Ok(d)
    case Heap(data) => if |data| > MAX_CUSTOM_ADDR_BYTES then Err(TooLong) else Ok(d)
  }

  function Deserialize(id: nat, d: AddrBytes): Result<CustomAddr, AddrError>
    requires d.Inline? ==> |d.buffer| == INLINE
  {
    var stored :- ReadStorage(d);
    TryFromParts(id, AsBytes(stored))
  }

  /** Deserializing accepts any storage within the bounds and makes it canonical; addresses sent are received. */
  lemma DeserializeIsCanonical(id: nat, d: AddrBytes)
    requires id <= U64_MAX && (d.Inline? ==> |d.buffer| == INLINE)
    ensures Deserialize(id, d).Ok? <==> Stored(d) && |AsBytes(d)| <= MAX_CUSTOM_ADDR_BYTES
    ensures Deserialize(id, d).Ok? ==> && Valid(Deserialize(id, d).value) && Stored(Deserialize(id, d).value.data)
                                       && AsBytes(Deserialize(id, d).value.data) == AsBytes(d)
    ensures Deserialize(id, d).Ok? && Canonical(d) ==> Deserialize(id, d).value == CustomAddr(id, d)
    ensures Deserialize(id, d).Err? ==> Deserialize(id, d).error == if d.Inline? then InvalidSize else TooLong
  {
    if Stored(d) {
      CopyKeepsBytes(AsBytes(d));
      if Canonical(d) { CanonicalIsCopy(d); }
    }
  }

  // ---------------------------------------------------------------- binary form

  function Reversed(s: Bytes): (r: Bytes)
    ensures |r| == |s| && forall i | 0 <= i < |s| :: r[i] == s[|s| - 1 - i]
  {
    seq(|s|, i requires 0 <= i < |s| => s[|s| - 1 - i])
  }

  function LittleEndian(n: nat): (bytes: Bytes)
    ensures |bytes| == 8
  {
    Reversed(Word(256, 8, n))
  }

  function FromLittleEndian(bytes: Bytes): nat {
    Value(256, Reversed(bytes))
  }

  lemma LittleEndianRoundTrip(n: nat)
    requires n <= U64_MAX
    ensures FromLittleEndian(LittleEndian(n)) == n
  {
    WordsOf64Bits();
    WordDenotes(256, 8, n);
    assert Reversed(Reversed(Word(256, 8, n))) == Word(256, 8, n);
  }

  lemma FromLittleEndianRoundTrip(bytes: Bytes)
    requires |bytes| == 8
    ensures LittleEndian(FromLittleEndian(bytes)) == bytes && FromLittleEndian(bytes) <= U64_MAX
  {
    WordsOf64Bits();
    WordOfValue(256, Reversed(bytes));
    ValueBound(256, Reversed(bytes));
    assert Reversed(Reversed(bytes)) == bytes;
  }

  function ToVec(a: CustomAddr): Bytes
    requires Stored(a.data)
  {
    LittleEndian(a.id) + AsBytes(a.data)
  }

  function FromBytes(bytes: Bytes): Result<CustomAddr, AddrError> {
    if |bytes| < 8 then Err(TooShort) else TryFromParts(FromLittleEndian(bytes[..8]), bytes[8..])
  }

  /** Every address that fits decodes from its encoding, whatever its id and data. */
  lemma BinaryRoundTrip(a: CustomAddr)
    requires Valid(a)
    ensures Stored(a.data) && (FromBytes(ToVec(a)) == Ok(a) <==> |AsBytes(a.data)| <= MAX_CUSTOM_ADDR_BYTES)
  {
    hide LittleEndian, FromLittleEndian;
    CanonicalIsCopy(a.data);
    LittleEndianRoundTrip(a.id);
    assert ToVec(a)[..8] == LittleEndian(a.id) && ToVec(a)[8..] == AsBytes(a.data);
  }

  /** Every byte string of a legal length decodes, to a canonical address that encodes back to it. */
  lemma BinaryIsExact(bytes: Bytes)
    ensures FromBytes(bytes).Ok? <==> 8 <= |bytes| <= 8 + MAX_CUSTOM_ADDR_BYTES
    ensures FromBytes(bytes).Err? ==> FromBytes(bytes).error == if |bytes| < 8 then TooShort else TooLong
    ensures FromBytes(bytes).Ok? ==> && Valid(FromBytes(bytes).value) && Stored(FromBytes(bytes).value.data)
                                     && ToVec(FromBytes(bytes).value) == bytes
  {
    hide LittleEndian, FromLittleEndian;
    if |bytes| >= 8 {
      FromLittleEndianRoundTrip(bytes[..8]);
      CopyKeepsBytes(bytes[8..]);
    }
  }

  // ---------------------------------------------------------------- filling the buffers

  /** Copies into a zeroed inline buffer, or keeps a heap block. */
  method CopyIntoStorage(data: Bytes) returns (d: AddrBytes)
    ensures d == CopyFromSlice(data)
  {
    if |data| > INLINE {
      return Heap(data);
    }
    var buffer := new byte[INLINE](i => 0);
    for i := 0 to |data|
      invariant buffer[..i] == data[..i]
      invariant forall k | i <= k < INLINE :: buffer[k] == 0
    {
      buffer[i] := data[i];
    }
    assert buffer[..] == data + Zeros(INLINE - |data|);
    return Inline(|data|, buffer[..]);
  }

  /** Fills a zeroed vector with the id, low byte first, and then the data. */
  method FillVec(a: CustomAddr) returns (out: array<byte>)
    requires a.id <= U64_MAX && Stored(a.data)
    ensures out[..] == ToVec(a)
  {
    hide Word, AsBytes;
    var data := AsBytes(a.data);
    out := new byte[8 + |data|](i => 0);
    ghost var bytes := LittleEndian(a.id);
    var id := a.id;
    for i := 0 to 8
      invariant forall k | 0 <= k < i :: out[k] == bytes[k]
      invariant Word(256, 8 - i, id) == Word(256, 8, a.id)[..8 - i]
    {
      out[i] := id % 256;
      LowestDigit(8 - i, id, Word(256, 8, a.id)[..8 - i]);
      id := id / 256;
      assert Word(256, 8, a.id)[..8 - i][..7 - i] == Word(256, 8, a.id)[..7 - i];
    }
    hide LittleEndian;
    for i := 0 to |data|
      invariant forall k | 0 <= k < 8 :: out[k] == bytes[k]
      invariant forall k | 0 <= k < i :: out[8 + k] == data[k]
    {
      out[8 + i] := data[i];
    }
    assert out[..] == bytes + data;
  }

  lemma LowestDigit(width: nat, n: nat, ds: Digits)
    requires width > 0 && Word(256, width, n) == ds
    ensures ds[width - 1] == n % 256 && Word(256, width - 1, n / 256) == ds[..width - 1]
  {
  }

  /** Reads a heap block element by element; too long a claim or too many elements end it. */
  method VisitSeq(elements: Bytes, sizeHint: Option<nat>) returns (r: Result<AddrBytes, AddrError>)
    ensures r.Ok?
       <==> |elements| <= MAX_CUSTOM_ADDR_BYTES && (sizeHint.Some? ==> sizeHint.value <= MAX_CUSTOM_ADDR_BYTES)
    ensures r.Ok? ==> r == ReadStorage(Heap(elements))
    ensures r.Err? ==> r.error == TooLong
  {
    if sizeHint.Some? && sizeHint.value > MAX_CUSTOM_ADDR_BYTES {
      return Err(TooLong);
    }
    var bytes: Bytes := [];
    for i := 0 to |elements|
      invariant bytes == elements[..i] && i <= MAX_CUSTOM_ADDR_BYTES
    {
      if |bytes| == MAX_CUSTOM_ADDR_BYTES {
        return Err(TooLong);
      }
      bytes := bytes + [elements[i]];
    }
    assert bytes == elements;
    return Ok(Heap(bytes));
  }

  /** The id of a decoded address, byte by byte, the low byte first. */
  lemma LowByteFirst(bytes: Bytes)
    requires |bytes| == 8
    ensures FromLittleEndian(bytes) == Sum(bytes, 8)
  {
    hide Value;
    SumIsValue(bytes, 8);
    assert Reversed(bytes) == Reversed(bytes[..8]);
  }

  /** The bytes from the first on, each worth 256 times the one before it. */
  function Sum(bytes: Bytes, n: nat): nat
    requires n <= |bytes|
  {
    if n == 0 then 0 else bytes[0] + 256 * Sum(bytes[1..], n - 1)
  }

  lemma {:induction false} SumIsValue(bytes: Bytes, n: nat)
    requires n == |bytes|
    ensures Sum(bytes, n) == Value(256, Reversed(bytes))
  {
    if n > 0 {
      SumIsValue(bytes[1..], n - 1);
      var reversed := Reversed(bytes);
      assert reversed[..n - 1] == Reversed(bytes[1..]);
    }
  }
}
