/** Streaming both address families of a host: two concurrent lookups, one stream of results. */
module HostStream {
  import opened Base

  const MAX_ADDRESS_RECORDS_PER_FAMILY: nat := 64

  type Address = nat

  datatype IpAddr = V4(address: Address) | V6(address: Address)

  datatype DnsError = MissingHost | NoResponse | Timeout | Other(code: nat)
                    | ResolveBoth(ipv4: DnsError, ipv6: DnsError)

  /** How one family's lookup eventually completes. */
  datatype Lookup = Found(addresses: seq<Address>) | Failed(error: DnsError)

  datatype Host = Missing | LiteralV4(v4: Address) | LiteralV6(v6: Address) | Domain

  type Item = Result<IpAddr, DnsError>

  function Bounded(l: Lookup): seq<Address> {
    if l.Failed? then []
    else if |l.addresses| <= MAX_ADDRESS_RECORDS_PER_FAMILY then l.addresses
    else l.addresses[..MAX_ADDRESS_RECORDS_PER_FAMILY]
  }

  function AsV4(addresses: seq<Address>): (r: seq<IpAddr>)
    ensures |r| == |addresses|
  {
    seq(|addresses|, i requires 0 <= i < |addresses| => V4(addresses[i]))
  }

  function AsV6(addresses: seq<Address>): (r: seq<IpAddr>)
    ensures |r| == |addresses|
  {
    seq(|addresses|, i requires 0 <= i < |addresses| => V6(addresses[i]))
  }

  function Good(addresses: seq<IpAddr>): seq<Item> {
    seq(|addresses|, i requires 0 <= i < |addresses| => Ok(addresses[i]))
  }

  /** All addresses of a domain, the family whose lookup completes first in front. */
  function Addresses(v4: Lookup, v6: Lookup, v4First: bool): seq<IpAddr> {
    if v4First then AsV4(Bounded(v4)) + AsV6(Bounded(v6)) else AsV6(Bounded(v6)) + AsV4(Bounded(v4))
  }

  function Closing(v4: Lookup, v6: Lookup): DnsError {
    if v4.Failed? && v6.Failed? then ResolveBoth(v4.error, v6.error) else NoResponse
  }

  /** What the stream must yield: every address, or else exactly one error. */
  function Expected(host: Host, v4: Lookup, v6: Lookup, v4First: bool): seq<Item> {
    match host
    case Missing => [Err(MissingHost)]
    case LiteralV4(a) => [Ok(V4(a))]
    case LiteralV6(a) => [Ok(V6(a))]
    case Domain =>
      var addresses := Addresses(v4, v6, v4First);
      if addresses == [] then [Err(Closing(v4, v6))] else Good(addresses)
  }

  class HostStream {
    // What the two lookups will answer once they complete.
    const v4: Lookup
    const v6: Lookup

    var v4Outstanding: bool
    var v6Outstanding: bool
    var v4Error: Option<DnsError>
    var v6Error: Option<DnsError>
    var queue: seq<IpAddr>
    var closed: bool
    var yielded: bool

    constructor (v4: Lookup, v6: Lookup)
      ensures Valid() && this.v4 == v4 && this.v6 == v6
      ensures v4Outstanding && v6Outstanding && !closed && !yielded && queue == []
    {
      this.v4, this.v6 := v4, v6;
      v4Outstanding, v6Outstanding := true, true;
      v4Error, v6Error := None, None;
      queue, closed, yielded := [], false, false;
    }

    ghost predicate Valid()
      reads this
    {
      && (v4Outstanding && v6Outstanding ==> queue == [] && !yielded)
      && (!closed ==> v4Error == if !v4Outstanding && v4.Failed? then Some(v4.error) else None)
      && (!closed ==> v6Error == if !v6Outstanding && v6.Failed? then Some(v6.error) else None)
      && (closed ==> !v4Outstanding && !v6Outstanding && queue == [])
      && (v4.Failed? && v6.Failed? ==> queue == [] && !yielded)
    }

    /** The addresses of the outstanding lookups, in the order they will come in. */
    ghost function Incoming(v4First: bool): seq<IpAddr>
      reads this
    {
      if v4Outstanding && v6Outstanding then Addresses(v4, v6, v4First)
      else if v4Outstanding then AsV4(Bounded(v4))
      else if v6Outstanding then AsV6(Bounded(v6))
      else []
    }

    /** The items still to come when `v4First` says which of two outstanding lookups completes first. */
    ghost function Rest(v4First: bool): seq<Item>
      reads this
    {
      var coming := queue + Incoming(v4First);
      if closed then []
      else if coming == [] && !yielded then [Err(Closing(v4, v6))]
      else Good(coming)
    }

    /** Waits for one outstanding lookup and takes its answer in. */
    method AwaitLookup(v4First: bool)
      requires Valid() && !closed && queue == [] && (v4Outstanding || v6Outstanding)
      modifies this
      ensures Valid() && !closed
      ensures Rest(v4First) == old(Rest(v4First))
      ensures if old(v4Outstanding) && (v4First || !old(v6Outstanding))
              then !v4Outstanding && v6Outstanding == old(v6Outstanding)
              else !v6Outstanding && v4Outstanding == old(v4Outstanding)
    {
      hide AsV4, AsV6, Good;
      if v4Outstanding && (v4First || !v6Outstanding) {
        v4Outstanding := false;
        match v4 {
          case Found(_) => queue := queue + AsV4(Bounded(v4));
          case Failed(error) => v4Error := Some(error);
        }
      } else {
        v6Outstanding := false;
        match v6 {
          case Found(_) => queue := queue + AsV6(Bounded(v6));
          case Failed(error) => v6Error := Some(error);
        }
      }
      assert queue + Incoming(v4First) == old(queue + Incoming(v4First));
    }

    /** Takes the address at the head of the queue. */
    method YieldQueued() returns (head: IpAddr)
      requires Valid() && !closed && queue != []
      modifies this
      ensures Valid()
      ensures old(Rest(true)) == old(Rest(false)) == [Ok(head)] + Rest(true)
      ensures Rest(true) == Rest(false)
    {
      hide Addresses, AsV4, AsV6, Good;
      head := queue[0];
      assert (queue + Incoming(true))[1..] == queue[1..] + Incoming(true);
      GoodCons(queue + Incoming(true));
      queue := queue[1..];
      yielded := true;
    }

    /** Polls the stream for its next item; `v4First` is the choice of the race when both lookups are outstanding. */
    method Next(v4First: bool) returns (item: Option<Item>)
      requires Valid()
      modifies this
      ensures Valid()
      ensures item.None? <==> old(Rest(v4First)) == []
      ensures item.Some? ==> old(Rest(v4First)) == [item.value] + Rest(true)
      ensures Rest(true) == Rest(false)
    {
      hide Addresses, AsV4, AsV6, Good;
      while true
        invariant Valid()
        invariant Rest(v4First) == old(Rest(v4First))
        decreases if v4Outstanding then 1 else 0, if v6Outstanding then 1 else 0
      {
        if closed {
          return None;
        }
        if queue != [] {
          var head := YieldQueued();
          return Some(Ok(head));
        }
        if !v4Outstanding && !v6Outstanding {
          closed := true;
          GoodEmpty();
          var errors := (v4Error, v6Error);
          v4Error, v6Error := None, None;
          match errors {
            case (Some(e4), Some(e6)) => return Some(Err(ResolveBoth(e4, e6)));
            case _ => if !yielded { return Some(Err(NoResponse)); } else { return None; }
          }
        }
        AwaitLookup(v4First);
      }
    }
  }

  lemma GoodCons(addresses: seq<IpAddr>)
    requires addresses != []
    ensures Good(addresses) == [Ok(addresses[0])] + Good(addresses[1..])
  {
  }

  lemma GoodEmpty()
    ensures Good([]) == []
  {
  }

  /** Polls until the stream ends, with any outcomes of the race. */
  method Drain(stream: HostStream, race: nat -> bool) returns (items: seq<Item>)
    requires stream.Valid()
    modifies stream
    ensures items == old(stream.Rest(race(0)))
  {
    hide HostStream.Valid, HostStream.Rest;
    items := [];
    var polls := 0;
    while true
      invariant stream.Valid()
      invariant items + stream.Rest(race(polls)) == old(stream.Rest(race(0)))
      invariant polls > 0 ==> stream.Rest(true) == stream.Rest(false)
      decreases |stream.Rest(race(polls))|
    {
      var item := stream.Next(race(polls));
      if item.None? {
        return;
      }
      items := items + [item.value];
      polls := polls + 1;
    }
  }

  /** Resolves a host; the stream ends, having yielded exactly the expected items. */
  method Collect(host: Host, v4: Lookup, v6: Lookup, race: nat -> bool) returns (items: seq<Item>)
    ensures items == Expected(host, v4, v6, race(0))
    ensures !host.Domain? ==>
              items == [if host.Missing? then Err(MissingHost)
                        else if host.LiteralV4? then Ok(V4(host.v4)) else Ok(V6(host.v6))]
  {
    hide Good, AsV4, AsV6, Addresses;
    match host
    case Missing => return [Err(MissingHost)];
    case LiteralV4(a) => return [Ok(V4(a))];
    case LiteralV6(a) => return [Ok(V6(a))];
    case Domain =>
      var stream := new HostStream(v4, v6);
      assert stream.queue + stream.Incoming(race(0)) == Addresses(v4, v6, race(0));
      items := Drain(stream, race);
  }

  // ---------------------------------------------------------------- what the expected items are

  predicate InFamily(item: Item, v4: bool) {
    item.Ok? && item.value.V4? == v4
  }

  /** The addresses of one family among the items, in the order they came. */
  function Family(items: seq<Item>, v4: bool): seq<Address> {
    if items == [] then [] else
    (if InFamily(items[0], v4) then [items[0].value.address] else []) + Family(items[1..], v4)
  }

  function Errors(items: seq<Item>): seq<DnsError> {
    if items == [] then [] else
    (if items[0].Err? then [items[0].error] else []) + Errors(items[1..])
  }

  lemma {:induction false} FamilyAppend(a: seq<IpAddr>, b: seq<IpAddr>, v4: bool)
    ensures Family(Good(a + b), v4) == Family(Good(a), v4) + Family(Good(b), v4)
  {
    hide Good;
    if a == [] {
      GoodEmpty();
      assert a + b == b;
    } else {
      FamilyAppend(a[1..], b, v4);
      assert (a + b)[1..] == a[1..] + b;
      GoodCons(a + b);
      GoodCons(a);
    }
  }

  lemma {:induction false} GoodHasNoErrors(a: seq<IpAddr>)
    ensures Errors(Good(a)) == []
  {
    if a != [] {
      GoodHasNoErrors(a[1..]);
      GoodCons(a);
    }
  }

  lemma {:induction false} OneFamily(addresses: seq<Address>, v4: bool)
    ensures Family(Good(AsV4(addresses)), v4) == if v4 then addresses else []
    ensures Family(Good(AsV6(addresses)), v4) == if v4 then [] else addresses
  {
    if addresses != [] {
      OneFamily(addresses[1..], v4);
      assert AsV4(addresses)[1..] == AsV4(addresses[1..]);
      assert AsV6(addresses)[1..] == AsV6(addresses[1..]);
      GoodCons(AsV4(addresses));
      GoodCons(AsV6(addresses));
    }
  }

  lemma ErrorAlone(e: DnsError)
    ensures Errors([Err(e)]) == [e] && Family([Err(e)], true) == [] == Family([Err(e)], false)
  {
    var items: seq<Item> := [Err(e)];
    assert items[1..] == [];
  }

  /** A lookup's addresses as far as they are taken: in order from the first, at most 64 of them. */
  predicate TakenFrom(l: Lookup, taken: seq<Address>) {
    && (l.Failed? ==> taken == [])
    && (l.Found? ==> taken <= l.addresses && |taken| == if |l.addresses| < 64 then |l.addresses| else 64)
  }

  predicate HasAddress(l: Lookup) {
    l.Found? && l.addresses != []
  }

  /** No item of one family comes after an item of the other. */
  predicate Apart(items: seq<Item>, v4First: bool) {
    forall i, j | 0 <= i < j < |items| && InFamily(items[j], v4First) :: InFamily(items[i], v4First)
  }

  lemma BoundedIsTaken(l: Lookup)
    ensures TakenFrom(l, Bounded(l)) && (Bounded(l) == [] <==> !HasAddress(l))
  {
  }

  lemma FamiliesApart(v4: Lookup, v6: Lookup, v4First: bool)
    ensures Apart(Expected(Domain, v4, v6, v4First), v4First)
  {
    hide Bounded;
    var a := if v4First then AsV4(Bounded(v4)) else AsV6(Bounded(v6));
    var addresses := Addresses(v4, v6, v4First);
    forall i | 0 <= i < |addresses| ensures addresses[i].V4? == v4First <==> i < |a| {}
    var items := Expected(Domain, v4, v6, v4First);
    if addresses != [] {
      forall i | 0 <= i < |items| ensures InFamily(items[i], v4First) <==> i < |a| {}
    }
  }

  /**
   Each family's first 64 addresses come exactly once and in order, the family that answered first in front. An
   error comes alone: both errors if both lookups failed, and none as soon as there is an address.
   */
  lemma ExpectedIsComplete(v4: Lookup, v6: Lookup, v4First: bool)
    ensures var items := Expected(Domain, v4, v6, v4First);
            && TakenFrom(v4, Family(items, true)) && TakenFrom(v6, Family(items, false)) && Apart(items, v4First)
            && (HasAddress(v4) || HasAddress(v6) ==> Errors(items) == [])
            && (v4.Failed? && v6.Failed? ==> Errors(items) == [ResolveBoth(v4.error, v6.error)])
            && (!HasAddress(v4) && !HasAddress(v6) && (v4.Found? || v6.Found?) ==> Errors(items) == [NoResponse])
            && |items| == |Family(items, true)| + |Family(items, false)| + |Errors(items)|
  {
    hide Good, AsV4, AsV6, Family, Bounded, Apart, HasAddress, TakenFrom;
    var a, b := AsV4(Bounded(v4)), AsV6(Bounded(v6));
    BoundedIsTaken(v4);
    BoundedIsTaken(v6);
    FamiliesApart(v4, v6, v4First);
    ErrorAlone(Closing(v4, v6));
    OneFamily(Bounded(v4), true);
    OneFamily(Bounded(v4), false);
    OneFamily(Bounded(v6), true);
    OneFamily(Bounded(v6), false);
    FamilyAppend(a, b, true);
    FamilyAppend(a, b, false);
    FamilyAppend(b, a, true);
    FamilyAppend(b, a, false);
    GoodHasNoErrors(Addresses(v4, v6, v4First));
    GoodLength(Addresses(v4, v6, v4First));
    var items := Expected(Domain, v4, v6, v4First);
    assert Family(items, true) == Bounded(v4) && Family(items, false) == Bounded(v6);
  }

  lemma GoodLength(addresses: seq<IpAddr>)
    ensures |Good(addresses)| == |addresses|
  {
  }
}
