/** Attributes of an endpoint as TXT strings of the form `key=value` (RFC 1464). */
module TxtAttrs {
  import opened Base
  import opened CustomAddrText

  /** The attribute keys, in the order of the map that holds them. */
  datatype Attr = RelayAttr | AddrAttr | UserDataAttr

  type Pair = (Attr, string)
  type Attrs = map<Attr, seq<string>>

  datatype ParseError = UnexpectedFormat(text: string) | AttrFromString(key: string)

  function Name(k: Attr): (name: string)
    ensures '=' !in name
  {
    match k
    case RelayAttr => "relay"
    case AddrAttr => "addr"
    case UserDataAttr => "user-data"
  }

  function ParseName(name: string): (k: Option<Attr>)
    ensures k.Some? ==> Name(k.value) == name
  {
    if name == "relay" then Some(RelayAttr)
    else if name == "addr" then Some(AddrAttr)
    else if name == "user-data" then Some(UserDataAttr)
    else None
  }

  lemma NamesParse(k: Attr)
    ensures ParseName(Name(k)) == Some(k)
  {
    assert "relay"[0] == 'r' && "addr"[0] == 'a' && "user-data"[0] == 'u';
  }

  /** What a key holds; an absent key holds nothing. */
  function Get(attrs: Attrs, k: Attr): seq<string> {
    if k in attrs then attrs[k] else []
  }

  function Push(attrs: Attrs, p: Pair): Attrs {
    attrs[p.0 := Get(attrs, p.0) + [p.1]]
  }

  function FromParts(pairs: seq<Pair>): Attrs {
    if pairs == [] then map[] else Push(FromParts(pairs[..|pairs| - 1]), pairs[|pairs| - 1])
  }

  /** The values given for one key, in order. */
  function ValuesOf(pairs: seq<Pair>, k: Attr): seq<string> {
    if pairs == [] then [] else
    ValuesOf(pairs[..|pairs| - 1], k) + (if pairs[|pairs| - 1].0 == k then [pairs[|pairs| - 1].1] else [])
  }

  lemma {:induction false} FromPartsHolds(pairs: seq<Pair>, k: Attr)
    ensures Get(FromParts(pairs), k) == ValuesOf(pairs, k)
  {
    if pairs != [] { FromPartsHolds(pairs[..|pairs| - 1], k); }
  }

  lemma {:induction false} ValuesOfAppend(a: seq<Pair>, b: seq<Pair>, k: Attr)
    ensures ValuesOf(a + b, k) == ValuesOf(a, k) + ValuesOf(b, k)
  {
    if b == [] {
      assert a + b == a;
    } else {
      assert (a + b)[..|a + b| - 1] == a + b[..|b| - 1];
      ValuesOfAppend(a, b[..|b| - 1], k);
    }
  }

  // ---------------------------------------------------------------- printing and parsing strings

  function Line(p: Pair): string {
    Name(p.0) + "=" + p.1
  }

  function Lines(pairs: seq<Pair>): seq<string> {
    seq(|pairs|, i requires 0 <= i < |pairs| => Line(pairs[i]))
  }

  function Under(k: Attr, values: seq<string>): seq<Pair> {
    seq(|values|, i requires 0 <= i < |values| => (k, values[i]))
  }

  /** All values, key by key. */
  function Flattened(attrs: Attrs): seq<Pair> {
    Under(RelayAttr, Get(attrs, RelayAttr)) + Under(AddrAttr, Get(attrs, AddrAttr))
    + Under(UserDataAttr, Get(attrs, UserDataAttr))
  }

  function ToTxtStrings(attrs: Attrs): seq<string> {
    Lines(Flattened(attrs))
  }

  /** What survives of a value: the text up to its first equals sign. */
  function Cut(value: string): string {
    match SplitOnce(value, '=')
    case None => value
    case Some((before, _)) => before
  }

  lemma CutIsWhole(value: string)
    ensures Cut(value) == value <==> '=' !in value
    ensures '=' !in Cut(value) && Cut(value) <= value
  {
  }

  /** The text before the first equals sign and between it and the second, if there is a first. */
  function KeyValue(text: string): Result<Pair, ParseError> {
    match SplitOnce(text, '=')
    case None => Err(UnexpectedFormat(text))
    case Some((key, rest)) =>
      var k := ParseName(key);
      if k.None? then Err(AttrFromString(key)) else Ok((k.value, Cut(rest)))
  }

  lemma LineParses(p: Pair)
    ensures KeyValue(Line(p)) == Ok((p.0, Cut(p.1)))
  {
    NamesParse(p.0);
    SplitOnceAt(Name(p.0), '=', p.1);
  }

  function FromStrings(strings: seq<string>): Result<Attrs, ParseError> {
    if strings == [] then Ok(map[]) else
    var attrs :- FromStrings(strings[..|strings| - 1]);
    var p :- KeyValue(strings[|strings| - 1]);
    Ok(Push(attrs, p))
  }

  function CutAll(pairs: seq<Pair>): seq<Pair> {
    seq(|pairs|, i requires 0 <= i < |pairs| => (pairs[i].0, Cut(pairs[i].1)))
  }

  function CutValues(values: seq<string>): seq<string> {
    seq(|values|, i requires 0 <= i < |values| => Cut(values[i]))
  }

  lemma {:induction false} LinesParse(pairs: seq<Pair>)
    ensures FromStrings(Lines(pairs)) == Ok(FromParts(CutAll(pairs)))
  {
    hide Cut, KeyValue, Line;
    if pairs != [] {
      var most, last := pairs[..|pairs| - 1], pairs[|pairs| - 1];
      LinesParse(most);
      LineParses(last);
      assert Lines(pairs)[..|pairs| - 1] == Lines(most);
      assert CutAll(pairs)[..|pairs| - 1] == CutAll(most);
    } else {
      assert Lines(pairs) == [] && CutAll(pairs) == [];
    }
  }

  lemma {:induction false} UnderValues(k: Attr, values: seq<string>, k': Attr)
    ensures ValuesOf(CutAll(Under(k, values)), k') == if k' == k then CutValues(values) else []
  {
    hide Cut;
    if values != [] {
      var most := values[..|values| - 1];
      UnderValues(k, most, k');
      assert CutAll(Under(k, values))[..|values| - 1] == CutAll(Under(k, most));
      assert CutValues(values) == CutValues(most) + [Cut(values[|values| - 1])];
    } else {
      assert CutAll(Under(k, values)) == [] && CutValues(values) == [];
    }
  }

  /**
   Printing attributes and parsing them back keeps every value of every key, in order, up to its first
   equals sign.
   */
  lemma StringsRoundTrip(attrs: Attrs, k: Attr)
    ensures FromStrings(ToTxtStrings(attrs)).Ok?
    ensures Get(FromStrings(ToTxtStrings(attrs)).value, k) == CutValues(Get(attrs, k))
  {
    hide Cut, Get, ValuesOf, FromParts, FromStrings, Under, CutAll, CutValues, Lines;
    var pairs := Flattened(attrs);
    LinesParse(pairs);
    FromPartsHolds(CutAll(pairs), k);
    var r, a := Under(RelayAttr, Get(attrs, RelayAttr)), Under(AddrAttr, Get(attrs, AddrAttr));
    var u := Under(UserDataAttr, Get(attrs, UserDataAttr));
    CutAllAppend(r, a);
    CutAllAppend(r + a, u);
    ValuesOfAppend(CutAll(r), CutAll(a), k);
    ValuesOfAppend(CutAll(r) + CutAll(a), CutAll(u), k);
    UnderValues(RelayAttr, Get(attrs, RelayAttr), k);
    UnderValues(AddrAttr, Get(attrs, AddrAttr), k);
    UnderValues(UserDataAttr, Get(attrs, UserDataAttr), k);
  }

  lemma CutAllAppend(a: seq<Pair>, b: seq<Pair>)
    ensures CutAll(a + b) == CutAll(a) + CutAll(b)
  {
  }

  /** The whole map comes back exactly when no value holds an equals sign. */
  lemma StringsRoundTripExactly(attrs: Attrs)
    requires forall k | k in attrs :: attrs[k] != []
    ensures FromStrings(ToTxtStrings(attrs)) == Ok(attrs)
       <==> forall k, i | k in attrs && 0 <= i < |attrs[k]| :: '=' !in attrs[k][i]
  {
    hide Cut, FromStrings, ToTxtStrings;
    StringsRoundTrip(attrs, RelayAttr);
    forall k: Attr ensures Get(FromStrings(ToTxtStrings(attrs)).value, k) == CutValues(Get(attrs, k)) {
      StringsRoundTrip(attrs, k);
    }
    var back := FromStrings(ToTxtStrings(attrs)).value;
    forall value: string ensures Cut(value) == value <==> '=' !in value { CutIsWhole(value); }
    NothingEmpty(ToTxtStrings(attrs));
    if forall k, i | k in attrs && 0 <= i < |attrs[k]| :: '=' !in attrs[k][i] {
      forall k: Attr ensures Get(back, k) == Get(attrs, k) {}
      SameHoldings(back, attrs);
    } else {
      var k, i :| k in attrs && 0 <= i < |attrs[k]| && '=' in attrs[k][i];
      assert Get(back, k)[i] == Cut(attrs[k][i]);
    }
  }

  lemma {:induction false} NothingEmpty(strings: seq<string>)
    requires FromStrings(strings).Ok?
    ensures forall k | k in FromStrings(strings).value :: FromStrings(strings).value[k] != []
  {
    if strings != [] { NothingEmpty(strings[..|strings| - 1]); }
  }

  lemma SameHoldings(a: Attrs, b: Attrs)
    requires (forall k | k in a :: a[k] != []) && (forall k | k in b :: b[k] != [])
    requires forall k: Attr :: Get(a, k) == Get(b, k)
    ensures a == b
  {
    forall k: Attr ensures k in a <==> k in b { assert Get(a, k) == Get(b, k); }
    forall k | k in a ensures a[k] == b[k] { assert Get(a, k) == Get(b, k); }
  }

  /** A query string in a relay address is one such value: everything from the second equals sign on is gone. */
  lemma EqualsSignsAreLost()
    ensures FromStrings(ToTxtStrings(map[RelayAttr := ["a=b"]])) != Ok(map[RelayAttr := ["a=b"]])
  {
    var attrs: Attrs := map[RelayAttr := ["a=b"]];
    StringsRoundTripExactly(attrs);
    assert attrs[RelayAttr][0] == "a=b" && "a=b"[1] == '=';
  }

  // ---------------------------------------------------------------- the loops

  method CollectParts(pairs: seq<Pair>) returns (attrs: Attrs)
    ensures attrs == FromParts(pairs)
  {
    attrs := map[];
    for i := 0 to |pairs|
      invariant attrs == FromParts(pairs[..i])
    {
      assert pairs[..i + 1][..i] == pairs[..i];
      attrs := Push(attrs, pairs[i]);
    }
    assert pairs[..|pairs|] == pairs;
  }

  method ParseStrings(strings: seq<string>) returns (r: Result<Attrs, ParseError>)
    ensures r == FromStrings(strings)
    ensures r.Err? ==>
              exists i :: 0 <= i < |strings| && KeyValue(strings[i]) == Err(r.error) && FromStrings(strings[..i]).Ok?
  {
    hide KeyValue, Push;
    var attrs: Attrs := map[];
    for i := 0 to |strings|
      invariant FromStrings(strings[..i]) == Ok(attrs)
    {
      assert strings[..i + 1][..i] == strings[..i];
      var p := KeyValue(strings[i]);
      if p.Err? {
        FirstErrorStays(strings, i);
        return Err(p.error);
      }
      attrs := Push(attrs, p.value);
    }
    assert strings[..|strings|] == strings;
    return Ok(attrs);
  }

  lemma {:induction false} FirstErrorStays(strings: seq<string>, i: nat)
    requires i < |strings| && FromStrings(strings[..i]).Ok? && KeyValue(strings[i]).Err?
    ensures FromStrings(strings) == Err(KeyValue(strings[i]).error)
    decreases |strings|
  {
    hide KeyValue, Push;
    var most := strings[..|strings| - 1];
    if i < |most| {
      assert most[..i] == strings[..i];
      FirstErrorStays(most, i);
    } else {
      assert strings[..i] == most;
    }
  }

  /** The three keys as they are published. */
  lemma PublishedKeys(value: string)
    requires '=' !in value
    ensures KeyValue("relay=" + value) == Ok((RelayAttr, value))
    ensures KeyValue("addr=" + value) == Ok((AddrAttr, value))
    ensures KeyValue("user-data=" + value) == Ok((UserDataAttr, value))
  {
    hide KeyValue, Cut;
    CutIsWhole(value);
    LineParses((RelayAttr, value));
    LineParses((AddrAttr, value));
    LineParses((UserDataAttr, value));
    assert Line((RelayAttr, value)) == "relay=" + value && Line((AddrAttr, value)) == "addr=" + value;
    assert Line((UserDataAttr, value)) == "user-data=" + value;
  }

  /** Which lines are refused: those without an equals sign, and those whose text before it is no key. */
  lemma BadLinesAreRefused(text: string)
    ensures '=' !in text ==> KeyValue(text) == Err(UnexpectedFormat(text))
    ensures '=' in text ==>
              var key := SplitOnce(text, '=').value.0;
              KeyValue(text).Err? <==> key !in {"relay", "addr", "user-data"}
    ensures '=' in text && KeyValue(text).Err? ==> KeyValue(text) == Err(AttrFromString(SplitOnce(text, '=').value.0))
  {
    hide SplitOnce, Cut;
  }

  function Prefixed(prefix: string, values: seq<string>): seq<string> {
    seq(|values|, i requires 0 <= i < |values| => prefix + values[i])
  }

  /** What is published, line by line: the relays, then the addresses, then the user data. */
  lemma PublishedLines(attrs: Attrs)
    ensures ToTxtStrings(attrs)
         == Prefixed("relay=", Get(attrs, RelayAttr)) + Prefixed("addr=", Get(attrs, AddrAttr))
            + Prefixed("user-data=", Get(attrs, UserDataAttr))
  {
    hide Get;
    forall value: string
      ensures Line((RelayAttr, value)) == "relay=" + value && Line((AddrAttr, value)) == "addr=" + value
      ensures Line((UserDataAttr, value)) == "user-data=" + value
    {
      assert "relay" + "=" == "relay=" && "addr" + "=" == "addr=" && "user-data" + "=" == "user-data=";
    }
    hide Line;
  }
}
