/** What is published about an endpoint, as attributes and TXT strings, and what a reader gets back. */
module EndpointInfo {
  import opened Base
  import opened CustomAddrs
  import opened CustomAddrText
  import opened Numerals
  import opened TxtAttrs

  /** Relay URLs and socket addresses, each named by a number; only their texts matter. */
  type Url = nat
  type Socket = nat

  /** Custom addresses as their constructors make them. */
  type Address = a: CustomAddr | Valid(a) witness CustomAddr(0, CopyFromSlice([]))

  datatype TransportAddr = Relay(url: Url) | Ip(addr: Socket) | Custom(custom: Address)

  type Addrs = seq<TransportAddr>

  const MAX_USER_DATA: nat := 245

  /**
   Printing and parsing of URLs and socket addresses, which the libraries do. A socket address is plain if its
   text says all there is to it; an IPv6 one with flow information is not.
   */
  datatype Codec = Codec(
    printUrl: Url -> string,
    parseUrl: string -> Option<Url>,
    printIp: Socket -> string,
    parseIp: string -> Option<Socket>,
    plainIp: Socket -> bool)

  ghost predicate SocketsHaveColons(c: Codec) {
    forall t :: c.parseIp(t).Some? ==> ':' in t
  }

  /**
   What is relied on: URLs and plain socket addresses parse back from their texts; the text of a socket address
   has no equals sign, and what parses as one has a colon and is plain; and a URL's text up to its first equals
   sign does not parse as a URL whose text has one.
   */
  ghost predicate Lawful(c: Codec) {
    && (forall u: Url :: c.parseUrl(c.printUrl(u)) == Some(u))
    && (forall u: Url | c.parseUrl(Cut(c.printUrl(u))).Some? ::
          '=' !in c.printUrl(c.parseUrl(Cut(c.printUrl(u))).value))
    && (forall a: Socket | c.plainIp(a) :: c.parseIp(c.printIp(a)) == Some(a))
    && (forall a: Socket :: '=' !in c.printIp(a))
    && (forall t :: c.parseIp(t).Some? ==> c.plainIp(c.parseIp(t).value))
    && SocketsHaveColons(c)
  }

  function Utf8Length(c: char): nat {
    if c as int < 0x80 then 1 else if c as int < 0x800 then 2 else if c as int < 0x10000 then 3 else 4
  }

  function ByteLength(s: string): nat {
    if s == [] then 0 else ByteLength(s[..|s| - 1]) + Utf8Length(s[|s| - 1])
  }

  lemma {:induction false} PrefixIsShorter(a: string, b: string)
    requires a <= b
    ensures ByteLength(a) <= ByteLength(b)
    decreases |b|
  {
    if a != b { PrefixIsShorter(a, b[..|b| - 1]); }
  }

  type UserData = s: string | ByteLength(s) <= MAX_USER_DATA witness ""

  function ParseUserData(s: string): Option<UserData> {
    if ByteLength(s) <= MAX_USER_DATA then Some(s) else None
  }

  datatype EndpointData = EndpointData(addrs: Addrs, userData: Option<UserData>)

  // ---------------------------------------------------------------- removing duplicates

  /** Each item once, where it first occurs. */
  function Dedup(items: Addrs): Addrs {
    if items == [] then [] else
    var earlier := Dedup(items[..|items| - 1]);
    if items[|items| - 1] in earlier then earlier else earlier + [items[|items| - 1]]
  }

  function First(items: Addrs, x: TransportAddr): (i: nat)
    requires x in items
    ensures i < |items| && items[i] == x && x !in items[..i]
  {
    if items[0] == x then 0 else 1 + First(items[1..], x)
  }

  predicate NoDuplicates(items: Addrs) {
    forall i, j | 0 <= i < j < |items| :: items[i] != items[j]
  }

  lemma {:induction false} DedupKeepsItems(items: Addrs)
    ensures NoDuplicates(Dedup(items)) && (forall x :: x in Dedup(items) <==> x in items)
  {
    if items != [] {
      var most, last := items[..|items| - 1], items[|items| - 1];
      DedupKeepsItems(most);
      assert items == most + [last];
    }
  }

  lemma {:induction false} FirstIsFirst(items: Addrs, x: TransportAddr, i: nat)
    requires i < |items| && items[i] == x && x !in items[..i]
    ensures x in items && First(items, x) == i
  {
    if i > 0 {
      assert items[..i][0] == items[0];
      assert items[1..][..i - 1] == items[..i][1..];
      FirstIsFirst(items[1..], x, i - 1);
    }
  }

  lemma FirstInPrefix(items: Addrs, n: nat, x: TransportAddr)
    requires n <= |items| && x in items[..n]
    ensures x in items && First(items, x) == First(items[..n], x)
  {
    var k := First(items[..n], x);
    assert items[..n][..k] == items[..k];
    FirstIsFirst(items, x, k);
  }

  /** What is left stands in the order of first occurrences. */
  lemma {:induction false} DedupKeepsOrder(items: Addrs, i: nat, j: nat)
    requires i < j < |Dedup(items)|
    ensures var d := Dedup(items);
            d[i] in items && d[j] in items && First(items, d[i]) < First(items, d[j])
  {
    var most, last := items[..|items| - 1], items[|items| - 1];
    var d, e := Dedup(items), Dedup(most);
    DedupKeepsItems(most);
    assert d[i] in e;
    FirstInPrefix(items, |most|, d[i]);
    if j < |e| {
      DedupKeepsOrder(most, i, j);
      assert d[j] in e;
      FirstInPrefix(items, |most|, d[j]);
    } else {
      FirstIsFirst(items, last, |most|);
    }
  }

  lemma {:induction false} DedupIsIdentity(items: Addrs)
    requires NoDuplicates(items)
    ensures Dedup(items) == items
  {
    if items != [] {
      DedupIsIdentity(items[..|items| - 1]);
      assert items == items[..|items| - 1] + [items[|items| - 1]];
    }
  }

  // ---------------------------------------------------------------- to and from attributes

  function Text(c: Codec, a: TransportAddr): string {
    match a
    case Relay(url) => c.printUrl(url)
    case Ip(addr) => c.printIp(addr)
    case Custom(custom) =>
      CanonicalIsCopy(custom.data);
      Print(custom)
  }

  function PairOf(c: Codec, a: TransportAddr): Pair {
    (if a.Relay? then RelayAttr else AddrAttr, Text(c, a))
  }

  function AddrPairs(c: Codec, addrs: Addrs): seq<Pair> {
    if addrs == [] then [] else AddrPairs(c, addrs[..|addrs| - 1]) + [PairOf(c, addrs[|addrs| - 1])]
  }

  function UserPairs(user: Option<UserData>): seq<Pair> {
    if user.Some? then [(UserDataAttr, user.value)] else []
  }

  function ToAttrs(c: Codec, d: EndpointData): Attrs {
    FromParts(AddrPairs(c, d.addrs) + UserPairs(d.userData))
  }

  function ParseRelay(c: Codec, text: string): Option<TransportAddr> {
    match c.parseUrl(text)
    case Some(url) => Some(Relay(url))
    case None => None
  }

  /** A socket address if it is one, else a custom address if it is one. */
  function ParseAddr(c: Codec, text: string): Option<TransportAddr> {
    match c.parseIp(text)
    case Some(addr) => Some(Ip(addr))
    case None => match FromStr(text)
      case Ok(custom) =>
        TextIsExact(text);
        Some(Custom(custom))
      case Err(_) => None
  }

  function RelayParser(c: Codec): string -> Option<TransportAddr> {
    t => ParseRelay(c, t)
  }

  function AddrParser(c: Codec): string -> Option<TransportAddr> {
    t => ParseAddr(c, t)
  }

  /** The texts that parse, parsed, in order. */
  function Parsed(parse: string -> Option<TransportAddr>, texts: seq<string>): Addrs {
    if texts == [] then [] else
    var last := parse(texts[|texts| - 1]);
    Parsed(parse, texts[..|texts| - 1]) + (if last.Some? then [last.value] else [])
  }

  function FromAttrs(c: Codec, attrs: Attrs): EndpointData {
    var user := Get(attrs, UserDataAttr);
    EndpointData(
      Dedup(Parsed(RelayParser(c), Get(attrs, RelayAttr)) + Parsed(AddrParser(c), Get(attrs, AddrAttr))),
      if user == [] then None else ParseUserData(user[0]))
  }

  /** Publishing `d` and reading the strings back. */
  function Republished(c: Codec, d: EndpointData): Result<EndpointData, ParseError> {
    var attrs :- FromStrings(ToTxtStrings(ToAttrs(c, d)));
    Ok(FromAttrs(c, attrs))
  }

  // ---------------------------------------------------------------- what comes back

  function Relays(addrs: Addrs): Addrs {
    if addrs == [] then [] else
    Relays(addrs[..|addrs| - 1]) + (if addrs[|addrs| - 1].Relay? then [addrs[|addrs| - 1]] else [])
  }

  function Others(addrs: Addrs): Addrs {
    if addrs == [] then [] else
    Others(addrs[..|addrs| - 1]) + (if addrs[|addrs| - 1].Relay? then [] else [addrs[|addrs| - 1]])
  }

  lemma {:induction false} PartitionKeepsItems(addrs: Addrs, a: TransportAddr)
    ensures a in Relays(addrs) <==> a in addrs && a.Relay?
    ensures a in Others(addrs) <==> a in addrs && !a.Relay?
  {
    if addrs != [] {
      PartitionKeepsItems(addrs[..|addrs| - 1], a);
      assert addrs == addrs[..|addrs| - 1] + [addrs[|addrs| - 1]];
    }
  }

  function Texts(c: Codec, addrs: Addrs): seq<string> {
    if addrs == [] then [] else Texts(c, addrs[..|addrs| - 1]) + [Text(c, addrs[|addrs| - 1])]
  }

  lemma TextsStep(c: Codec, addrs: Addrs, a: TransportAddr)
    ensures Texts(c, addrs + [a]) == Texts(c, addrs) + [Text(c, a)]
  {
    assert (addrs + [a])[..|addrs|] == addrs;
  }

  lemma ValuesOfStep(pairs: seq<Pair>, p: Pair, k: Attr)
    ensures ValuesOf(pairs + [p], k) == ValuesOf(pairs, k) + (if p.0 == k then [p.1] else [])
  {
    assert (pairs + [p])[..|pairs|] == pairs;
  }

  lemma NoTexts(c: Codec)
    ensures Texts(c, []) == [] && forall k :: ValuesOf([], k) == []
  {
  }

  lemma {:induction false} AddrPairsValues(c: Codec, addrs: Addrs)
    ensures ValuesOf(AddrPairs(c, addrs), RelayAttr) == Texts(c, Relays(addrs))
    ensures ValuesOf(AddrPairs(c, addrs), AddrAttr) == Texts(c, Others(addrs))
    ensures ValuesOf(AddrPairs(c, addrs), UserDataAttr) == []
  {
    hide Text, ValuesOf, Texts;
    if addrs == [] {
      NoTexts(c);
    } else {
      var most, a := addrs[..|addrs| - 1], addrs[|addrs| - 1];
      AddrPairsValues(c, most);
      ValuesOfStep(AddrPairs(c, most), PairOf(c, a), RelayAttr);
      ValuesOfStep(AddrPairs(c, most), PairOf(c, a), AddrAttr);
      ValuesOfStep(AddrPairs(c, most), PairOf(c, a), UserDataAttr);
      TextsStep(c, Relays(most), a);
      TextsStep(c, Others(most), a);
      assert Relays(addrs) == if a.Relay? then Relays(most) + [a] else Relays(most);
      assert Others(addrs) == if a.Relay? then Others(most) else Others(most) + [a];
    }
  }

  /** What is read back, for any data: everything that still parses once values are cut at their equals signs. */
  function Surviving(c: Codec, d: EndpointData): EndpointData {
    EndpointData(
      Dedup(Parsed(RelayParser(c), CutValues(Texts(c, Relays(d.addrs))))
            + Parsed(AddrParser(c), CutValues(Texts(c, Others(d.addrs))))),
      if d.userData.Some? then ParseUserData(Cut(d.userData.value)) else None)
  }

  lemma RepublishedHolds(c: Codec, d: EndpointData, k: Attr)
    ensures FromStrings(ToTxtStrings(ToAttrs(c, d))).Ok?
    ensures Get(FromStrings(ToTxtStrings(ToAttrs(c, d))).value, k)
         == CutValues(ValuesOf(AddrPairs(c, d.addrs), k) + ValuesOf(UserPairs(d.userData), k))
  {
    hide Cut, FromParts, ValuesOf, AddrPairs, FromStrings, ToTxtStrings, Get;
    StringsRoundTrip(ToAttrs(c, d), k);
    FromPartsHolds(AddrPairs(c, d.addrs) + UserPairs(d.userData), k);
    ValuesOfAppend(AddrPairs(c, d.addrs), UserPairs(d.userData), k);
  }

  lemma RepublishedSurvives(c: Codec, d: EndpointData)
    ensures Republished(c, d) == Ok(Surviving(c, d))
  {
    hide Cut, FromParts, AddrPairs, FromStrings, ToTxtStrings, Texts, Relays, Others, Parsed, Dedup, ByteLength;
    RepublishedHolds(c, d, RelayAttr);
    RepublishedHolds(c, d, AddrAttr);
    RepublishedHolds(c, d, UserDataAttr);
    AddrPairsValues(c, d.addrs);
    UserValues(d.userData);
    assert forall values: seq<string> :: values + [] == values;
  }

  lemma UserValues(user: Option<UserData>)
    ensures ValuesOf(UserPairs(user), RelayAttr) == [] == ValuesOf(UserPairs(user), AddrAttr)
    ensures ValuesOf(UserPairs(user), UserDataAttr) == if user.Some? then [user.value] else []
  {
    hide ByteLength;
    if user.Some? { assert UserPairs(user)[..0] == []; }
  }

  // ---------------------------------------------------------------- the round trip

  /** The relays first, then the other addresses, each in their order, none twice; the user data unchanged. */
  function Expected(d: EndpointData): EndpointData {
    EndpointData(Dedup(Relays(d.addrs) + Others(d.addrs)), d.userData)
  }

  function Bytes(a: Address): Base.Bytes {
    CanonicalIsCopy(a.data);
    AsBytes(a.data)
  }

  /** Nothing about an address gets in the way: no equals sign, no hidden part, no oversized custom data. */
  predicate Sendable(c: Codec, a: TransportAddr) {
    && (a.Relay? ==> '=' !in c.printUrl(a.url))
    && (a.Ip? ==> c.plainIp(a.addr))
    && (a.Custom? ==> |Bytes(a.custom)| <= MAX_CUSTOM_ADDR_BYTES)
  }

  /** What a publisher can check beforehand. */
  predicate Publishable(c: Codec, d: EndpointData) {
    && (forall a | a in d.addrs :: Sendable(c, a))
    && (d.userData.Some? ==> '=' !in d.userData.value)
  }

  /** The text of a custom address never passes for a socket address. */
  lemma CustomTextIsNoSocket(c: Codec, a: Address)
    requires SocketsHaveColons(c)
    ensures c.parseIp(Text(c, Custom(a))) == None
  {
    hide Print;
    PrintedCharacters(a);
  }

  lemma SendableParses(c: Codec, a: TransportAddr)
    requires Lawful(c) && Sendable(c, a)
    ensures (if a.Relay? then ParseRelay(c, Cut(Text(c, a))) else ParseAddr(c, Cut(Text(c, a)))) == Some(a)
  {
    hide Cut, FromStr;
    CutIsWhole(Text(c, a));
    if a.Custom? {
      PrintedCharacters(a.custom);
      CustomTextIsNoSocket(c, a.custom);
      TextRoundTrip(a.custom);
    }
  }

  lemma ParsedStep(parse: string -> Option<TransportAddr>, texts: seq<string>, text: string)
    ensures Parsed(parse, CutValues(texts + [text]))
         == Parsed(parse, CutValues(texts)) + (if parse(Cut(text)).Some? then [parse(Cut(text)).value] else [])
  {
    hide Cut;
    assert CutValues(texts + [text]) == CutValues(texts) + [Cut(text)];
    assert (CutValues(texts) + [Cut(text)])[..|texts|] == CutValues(texts);
  }

  /** Texts that all parse give their addresses back, in order. */
  lemma {:induction false} ParsedBack(c: Codec, parse: string -> Option<TransportAddr>, addrs: Addrs)
    requires forall a | a in addrs :: parse(Cut(Text(c, a))) == Some(a)
    ensures Parsed(parse, CutValues(Texts(c, addrs))) == addrs
  {
    hide Cut, Text, Parsed, CutValues;
    if addrs == [] {
      NothingParsed(parse);
    } else {
      var most, a := addrs[..|addrs| - 1], addrs[|addrs| - 1];
      ParsedBack(c, parse, most);
      ParsedStep(parse, Texts(c, most), Text(c, a));
      assert addrs == most + [a];
    }
  }

  lemma NothingParsed(parse: string -> Option<TransportAddr>)
    ensures Parsed(parse, CutValues([])) == []
  {
  }

  /** Whatever is parsed came from one of the texts. */
  lemma {:induction false} ParsedFrom(parse: string -> Option<TransportAddr>, texts: seq<string>, a: TransportAddr)
    requires a in Parsed(parse, texts)
    ensures exists i :: 0 <= i < |texts| && parse(texts[i]) == Some(a)
  {
    var most := texts[..|texts| - 1];
    if parse(texts[|texts| - 1]) != Some(a) {
      ParsedFrom(parse, most, a);
      var i :| 0 <= i < |most| && parse(most[i]) == Some(a);
      assert texts[i] == most[i];
    }
  }

  lemma {:induction false} TextsAt(c: Codec, addrs: Addrs, i: nat)
    requires i < |addrs|
    ensures |Texts(c, addrs)| == |addrs| && Texts(c, addrs)[i] == Text(c, addrs[i])
  {
    hide Text;
    if |addrs| > 1 { TextsAt(c, addrs[..|addrs| - 1], if i < |addrs| - 1 then i else 0); }
  }

  lemma {:induction false} TextsLength(c: Codec, addrs: Addrs)
    ensures |Texts(c, addrs)| == |addrs|
  {
    hide Text;
    if addrs != [] { TextsLength(c, addrs[..|addrs| - 1]); }
  }

  lemma SurvivingRelay(c: Codec, d: EndpointData, a: TransportAddr)
    requires Lawful(c) && a in Parsed(RelayParser(c), CutValues(Texts(c, Relays(d.addrs))))
    ensures Sendable(c, a)
  {
    hide Cut, Relays, Texts, Parsed;
    var relays := CutValues(Texts(c, Relays(d.addrs)));
    ParsedFrom(RelayParser(c), relays, a);
    var i :| 0 <= i < |relays| && RelayParser(c)(relays[i]) == Some(a);
    TextsLength(c, Relays(d.addrs));
    TextsAt(c, Relays(d.addrs), i);
    PartitionKeepsItems(d.addrs, Relays(d.addrs)[i]);
  }

  lemma SurvivingOther(c: Codec, d: EndpointData, a: TransportAddr)
    requires Lawful(c) && a in Parsed(AddrParser(c), CutValues(Texts(c, Others(d.addrs))))
    ensures Sendable(c, a)
  {
    hide Cut, Others, Texts, Parsed, FromStr;
    var others := CutValues(Texts(c, Others(d.addrs)));
    ParsedFrom(AddrParser(c), others, a);
    var i :| 0 <= i < |others| && AddrParser(c)(others[i]) == Some(a);
    if a.Custom? { TextIsExact(others[i]); }
  }

  lemma SurvivorsAreSendable(c: Codec, d: EndpointData, a: TransportAddr)
    requires Lawful(c) && a in Surviving(c, d).addrs
    ensures Sendable(c, a)
  {
    hide Cut, Relays, Others, Dedup, Lawful, Sendable, Texts, Parsed;
    var relays, others := CutValues(Texts(c, Relays(d.addrs))), CutValues(Texts(c, Others(d.addrs)));
    DedupKeepsItems(Parsed(RelayParser(c), relays) + Parsed(AddrParser(c), others));
    if a in Parsed(RelayParser(c), relays) { SurvivingRelay(c, d, a); } else { SurvivingOther(c, d, a); }
  }

  lemma PublishableSurvives(c: Codec, d: EndpointData)
    requires Lawful(c) && Publishable(c, d)
    ensures Surviving(c, d) == Expected(d)
  {
    hide Cut, Relays, Others, Dedup, Text, ParseRelay, ParseAddr, Lawful, Sendable, ByteLength;
    forall a | a in Relays(d.addrs) ensures RelayParser(c)(Cut(Text(c, a))) == Some(a) {
      PartitionKeepsItems(d.addrs, a);
      SendableParses(c, a);
    }
    forall a | a in Others(d.addrs) ensures AddrParser(c)(Cut(Text(c, a))) == Some(a) {
      PartitionKeepsItems(d.addrs, a);
      SendableParses(c, a);
    }
    ParsedBack(c, RelayParser(c), Relays(d.addrs));
    ParsedBack(c, AddrParser(c), Others(d.addrs));
    if d.userData.Some? { CutIsWhole(d.userData.value); }
  }

  /**
   Publishing and reading back always succeeds, and gives the same user data and the stable partition of
   the addresses exactly when no relay text and no user data holds an equals sign, every socket address is
   plain and no custom address is oversized.
   */
  lemma RoundTrip(c: Codec, d: EndpointData)
    requires Lawful(c)
    ensures Republished(c, d).Ok?
    ensures Republished(c, d) == Ok(Expected(d)) <==> Publishable(c, d)
  {
    hide Cut, Relays, Others, Dedup, Lawful, Sendable, Republished, ByteLength, Parsed, Texts;
    RepublishedSurvives(c, d);
    if Publishable(c, d) {
      PublishableSurvives(c, d);
    } else if Surviving(c, d) == Expected(d) {
      forall a | a in d.addrs ensures Sendable(c, a) {
        PartitionKeepsItems(d.addrs, a);
        DedupKeepsItems(Relays(d.addrs) + Others(d.addrs));
        SurvivorsAreSendable(c, d, a);
      }
      if d.userData.Some? { CutIsWhole(d.userData.value); }
      assert false;
    }
  }

  /** For the data that the constructors build, duplicate-free, nothing is dropped at all. */
  lemma RoundTripKeepsAll(c: Codec, d: EndpointData)
    requires Lawful(c) && Publishable(c, d) && NoDuplicates(d.addrs)
    ensures Republished(c, d) == Ok(EndpointData(Relays(d.addrs) + Others(d.addrs), d.userData))
  {
    hide Relays, Others, Dedup, Lawful, Sendable, Republished, ByteLength;
    RoundTrip(c, d);
    PartitionHasNoDuplicates(d.addrs);
    DedupIsIdentity(Relays(d.addrs) + Others(d.addrs));
  }

  /** User data comes back up to its first equals sign. */
  lemma UserDataIsCut(c: Codec, d: EndpointData)
    requires d.userData.Some?
    ensures Republished(c, d).Ok? && Republished(c, d).value.userData.Some?
    ensures Republished(c, d).value.userData.value == Cut(d.userData.value)
  {
    hide Cut, ByteLength, Republished, Dedup, Parsed, Texts;
    RepublishedSurvives(c, d);
    CutIsWhole(d.userData.value);
    PrefixIsShorter(Cut(d.userData.value), d.userData.value);
  }

  /** A socket address that is not plain, such as an IPv6 one with flow information, does not come back as it was. */
  lemma HiddenPartsAreLost(c: Codec, d: EndpointData, a: Socket)
    requires Lawful(c) && Ip(a) in d.addrs && !c.plainIp(a)
    ensures Republished(c, d).Ok? && Ip(a) !in Republished(c, d).value.addrs && Republished(c, d) != Ok(Expected(d))
  {
    hide Cut, ByteLength, Republished, Relays, Others, Dedup, Lawful, Parsed, Texts;
    RoundTrip(c, d);
    RepublishedSurvives(c, d);
    if Ip(a) in Surviving(c, d).addrs { SurvivorsAreSendable(c, d, Ip(a)); }
    assert !Sendable(c, Ip(a));
  }

  // A codec of this kind: halves in hexadecimal. Odd URLs end in an equals sign; sockets end in a colon, and the
  // odd ones hide that they are odd.

  function HexOrNone(t: string): Option<nat> {
    var n := Value(16, HexValues(t));
    if t == PrintHex(n) then Some(n) else None
  }

  function HexUrl(u: Url): string {
    PrintHex(u / 2) + (if u % 2 == 0 then "" else "=")
  }

  predicate Last(t: string, c: char) {
    t != [] && t[|t| - 1] == c
  }

  function ParseHexUrl(t: string): Option<Url> {
    var half := if Last(t, '=') then HexOrNone(t[..|t| - 1]) else HexOrNone(t);
    if half.None? then None else Some(2 * half.value + (if Last(t, '=') then 1 else 0))
  }

  function HexSocket(a: Socket): string {
    PrintHex(a / 2) + ":"
  }

  function ParseHexSocket(t: string): Option<Socket> {
    var half := if Last(t, ':') then HexOrNone(t[..|t| - 1]) else None;
    if half.None? then None else Some(2 * half.value)
  }

  function HexCodec(): Codec {
    Codec((u: Url) => HexUrl(u), t => ParseHexUrl(t), (a: Socket) => HexSocket(a), t => ParseHexSocket(t),
          (a: Socket) => a % 2 == 0)
  }

  lemma HexTextParses(n: nat)
    ensures HexOrNone(PrintHex(n)) == Some(n) && '=' !in PrintHex(n) && ':' !in PrintHex(n)
  {
    hide PrintHex, HexValues, Value, Numeral;
    PrintedHex(n);
    NumeralDenotes(16, n);
    LowerHexHasNone(PrintHex(n));
  }

  lemma LastIsIn(t: string, c: char)
    ensures Last(t, c) ==> c in t
    ensures Last(t + [c], c) && (t + [c])[..|t|] == t
  {
  }

  lemma HexUrlParses(u: Url)
    ensures ParseHexUrl(HexUrl(u)) == Some(u) && Cut(HexUrl(u)) == PrintHex(u / 2)
    ensures ParseHexUrl(PrintHex(u / 2)) == Some(2 * (u / 2)) && '=' !in HexUrl(2 * (u / 2))
  {
    hide PrintHex, HexOrNone, Last;
    var half := PrintHex(u / 2);
    HexTextParses(u / 2);
    LastIsIn(half, '=');
    CutIsWhole(half);
    if u % 2 == 0 {
      assert HexUrl(u) == half;
    } else {
      SplitOnceAt(half, '=', "");
      assert HexUrl(u) == half + ['='] == half + ['='] + "";
    }
    assert HexUrl(2 * (u / 2)) == half;
  }

  lemma HexSocketParses(a: Socket)
    ensures '=' !in HexSocket(a) && ParseHexSocket(HexSocket(a)) == Some(2 * (a / 2))
  {
    hide PrintHex, HexOrNone, Last;
    HexTextParses(a / 2);
    LastIsIn(PrintHex(a / 2), ':');
  }

  lemma HexSocketIsPlain(t: string)
    ensures ParseHexSocket(t).Some? ==> ':' in t && ParseHexSocket(t).value % 2 == 0
  {
    hide HexOrNone;
  }

  lemma HexCodecIsLawful()
    ensures Lawful(HexCodec())
  {
    hide Cut, HexUrl, ParseHexUrl, HexSocket, ParseHexSocket, PrintHex;
    var c := HexCodec();
    forall u: Url
      ensures c.parseUrl(c.printUrl(u)) == Some(u)
      ensures c.parseUrl(Cut(c.printUrl(u))).Some? ==> '=' !in c.printUrl(c.parseUrl(Cut(c.printUrl(u))).value)
    {
      HexUrlParses(u);
    }
    forall a: Socket ensures '=' !in c.printIp(a) && (c.plainIp(a) ==> c.parseIp(c.printIp(a)) == Some(a)) {
      HexSocketParses(a);
    }
    forall t ensures c.parseIp(t).Some? ==> ':' in t && c.plainIp(c.parseIp(t).value) { HexSocketIsPlain(t); }
  }

  lemma {:induction false} PartsHaveNoDuplicates(addrs: Addrs)
    requires NoDuplicates(addrs)
    ensures NoDuplicates(Relays(addrs)) && NoDuplicates(Others(addrs))
  {
    if addrs != [] {
      var most, last := addrs[..|addrs| - 1], addrs[|addrs| - 1];
      PartsHaveNoDuplicates(most);
      PartitionKeepsItems(most, last);
    }
  }

  lemma PartitionHasNoDuplicates(addrs: Addrs)
    requires NoDuplicates(addrs)
    ensures NoDuplicates(Relays(addrs) + Others(addrs))
  {
    hide Relays, Others;
    PartsHaveNoDuplicates(addrs);
    forall i | 0 <= i < |Relays(addrs)| ensures Relays(addrs)[i].Relay? {
      PartitionKeepsItems(addrs, Relays(addrs)[i]);
    }
    forall i | 0 <= i < |Others(addrs)| ensures !Others(addrs)[i].Relay? {
      PartitionKeepsItems(addrs, Others(addrs)[i]);
    }
  }

  // ---------------------------------------------------------------- the object and its loops

  /** Removes duplicates in place, keeping the order, and returns the items seen. */
  method DedupInPlace(items: Addrs) returns (kept: Addrs, seen: set<TransportAddr>)
    ensures kept == Dedup(items) && (forall a :: a in seen <==> a in kept)
  {
    kept, seen := [], {};
    for i := 0 to |items|
      invariant kept == Dedup(items[..i]) && (forall a :: a in seen <==> a in kept)
    {
      assert items[..i + 1][..i] == items[..i];
      if items[i] !in seen {
        seen := seen + {items[i]};
        kept := kept + [items[i]];
      }
    }
    assert items[..|items|] == items;
  }

  class Data {
    var addrs: Addrs
    var userData: Option<UserData>

    function State(): EndpointData
      reads this
    {
      EndpointData(addrs, userData)
    }

    ghost predicate Valid()
      reads this
    {
      NoDuplicates(addrs)
    }

    constructor (addrs: Addrs)
      ensures Valid() && State() == EndpointData(Dedup(addrs), None)
    {
      DedupKeepsItems(addrs);
      var kept, _ := DedupInPlace(addrs);
      this.addrs := kept;
      userData := None;
    }

    method AddRelayUrl(url: Url)
      requires Valid()
      modifies this`addrs
      ensures Valid() && addrs == Dedup(old(addrs) + [Relay(url)])
    {
      DedupIsIdentity(addrs);
      assert (addrs + [Relay(url)])[..|addrs|] == addrs;
      if Relay(url) !in addrs {
        addrs := addrs + [Relay(url)];
      }
    }

    /** Adds addresses in order; what is there already, or twice among the new ones, is left out. */
    method AddAddrs(more: Addrs)
      modifies this`addrs
      ensures Valid() && addrs == Dedup(old(addrs) + more)
    {
      var kept, seen := DedupInPlace(addrs);
      ghost var before := addrs;
      assert before + more[..0] == before;
      for i := 0 to |more|
        invariant kept == Dedup(before + more[..i]) && (forall a :: a in seen <==> a in kept)
      {
        assert (before + more[..i + 1])[..|before| + i] == before + more[..i];
        if more[i] !in seen {
          kept := kept + [more[i]];
          seen := seen + {more[i]};
        }
      }
      assert more[..|more|] == more;
      addrs := kept;
      DedupKeepsItems(before + more);
    }

    method SetUserData(user: Option<UserData>)
      modifies this`userData
      ensures userData == user
    {
      userData := user;
    }
  }

  /** Prints every address, in order, under its key, and the user data last. */
  method PrintAttrs(c: Codec, d: EndpointData) returns (attrs: Attrs)
    ensures attrs == ToAttrs(c, d)
  {
    var pairs: seq<Pair> := [];
    for i := 0 to |d.addrs|
      invariant pairs == AddrPairs(c, d.addrs[..i])
    {
      assert d.addrs[..i + 1][..i] == d.addrs[..i];
      pairs := pairs + [PairOf(c, d.addrs[i])];
    }
    assert d.addrs[..|d.addrs|] == d.addrs;
    attrs := CollectParts(pairs + UserPairs(d.userData));
  }

  /** Reads data out of attributes into a new object. */
  method ReadAttrs(c: Codec, attrs: Attrs) returns (data: Data)
    ensures fresh(data) && data.Valid() && data.State() == FromAttrs(c, attrs)
  {
    var user := Get(attrs, UserDataAttr);
    data := new Data([]);
    data.SetUserData(if user == [] then None else ParseUserData(user[0]));
    var parsed := Parsed(RelayParser(c), Get(attrs, RelayAttr)) + Parsed(AddrParser(c), Get(attrs, AddrAttr));
    assert [] + parsed == parsed;
    data.AddAddrs(parsed);
  }

  // ---------------------------------------------------------------- what is read, for any attributes

  /** The address that one published text stands for. */
  ghost predicate StandsFor(c: Codec, attrs: Attrs, a: TransportAddr) {
    match a
    case Relay(url) => exists i :: 0 <= i < |Get(attrs, RelayAttr)| && c.parseUrl(Get(attrs, RelayAttr)[i]) == Some(url)
    case Ip(addr) => exists i :: 0 <= i < |Get(attrs, AddrAttr)| && c.parseIp(Get(attrs, AddrAttr)[i]) == Some(addr)
    case Custom(custom) =>
      exists i :: 0 <= i < |Get(attrs, AddrAttr)| && c.parseIp(Get(attrs, AddrAttr)[i]) == None
                  && FromStr(Get(attrs, AddrAttr)[i]) == Ok(custom)
  }

  lemma {:induction false} ParsedHolds(parse: string -> Option<TransportAddr>, texts: seq<string>, i: nat)
    requires i < |texts| && parse(texts[i]).Some?
    ensures parse(texts[i]).value in Parsed(parse, texts)
  {
    if i < |texts| - 1 {
      assert texts[..|texts| - 1][i] == texts[i];
      ParsedHolds(parse, texts[..|texts| - 1], i);
    }
  }

  /** Exactly the addresses that some published text stands for are read, none twice, and the first user data. */
  lemma ReadsWhatIsPublished(c: Codec, attrs: Attrs, a: TransportAddr)
    ensures NoDuplicates(FromAttrs(c, attrs).addrs)
    ensures a in FromAttrs(c, attrs).addrs <==> StandsFor(c, attrs, a)
    ensures var user := Get(attrs, UserDataAttr);
            FromAttrs(c, attrs).userData ==
            if user == [] || ByteLength(user[0]) > MAX_USER_DATA then None else Some(user[0])
  {
    hide Parsed, Dedup, Get, FromStr, ByteLength;
    var relays, others := Get(attrs, RelayAttr), Get(attrs, AddrAttr);
    DedupKeepsItems(Parsed(RelayParser(c), relays) + Parsed(AddrParser(c), others));
    if a in Parsed(RelayParser(c), relays) { ParsedFrom(RelayParser(c), relays, a); }
    if a in Parsed(AddrParser(c), others) { ParsedFrom(AddrParser(c), others, a); }
    if StandsFor(c, attrs, a) {
      if a.Relay? {
        var i :| 0 <= i < |relays| && c.parseUrl(relays[i]) == Some(a.url);
        ParsedHolds(RelayParser(c), relays, i);
      } else {
        var i :| 0 <= i < |others| && ParseAddr(c, others[i]) == Some(a);
        ParsedHolds(AddrParser(c), others, i);
      }
    }
  }
}
