/**
 The DNS server's zone store: packets in a persistent store, parsed zones in a bounded cache in front of
 it. Here every call runs alone, without the DHT fallback and without expiry.
 */
module ZoneStore {
  import opened Base
  import opened SignedPackets

  type Key = Bytes
  type Packet = p: SignedPacket | |p.bytes| >= HEADER witness SignedPacket(seq(HEADER, _ => 0))

  /** A name and record type to look up, and the records found, each named by a number. */
  type Query = nat
  type RecordSet = nat
  type Records = map<Query, RecordSet>

  /** How a packet's DNS records are read; some packets cannot be. */
  type Reader = Packet -> Option<Records>

  datatype CachedZone = CachedZone(timestamp: nat, records: Records)

  datatype Outcome = Found(records: RecordSet) | NotFound | Unreadable

  function KeyOf(p: Packet): Key {
    PublicKey(p)
  }

  function ZoneOf(read: Reader, p: Packet): Option<CachedZone> {
    match read(p)
    case Some(records) => Some(CachedZone(Timestamp(p), records))
    case None => None
  }

  function InZone(zone: CachedZone, q: Query): Outcome {
    if q in zone.records then Found(zone.records[q]) else NotFound
  }

  /** The store replaces a packet unless the one it has is more recent. */
  predicate Replaces(store: map<Key, Packet>, p: Packet) {
    KeyOf(p) in store ==> !MoreRecentThan(store[KeyOf(p)], p)
  }

  function Upserted(store: map<Key, Packet>, p: Packet): map<Key, Packet> {
    if Replaces(store, p) then store[KeyOf(p) := p] else store
  }

  /** The reference: read the packet the store has, every time. */
  function Answer(read: Reader, store: map<Key, Packet>, key: Key, q: Query): Outcome {
    if key !in store then NotFound else
    match ZoneOf(read, store[key])
    case None => Unreadable
    case Some(zone) => InZone(zone, q)
  }

  predicate StoreOk(store: map<Key, Packet>) {
    forall key | key in store :: KeyOf(store[key]) == key
  }

  /** Cached zones are those of the packets the store has. */
  predicate Coherent(read: Reader, store: map<Key, Packet>, cache: map<Key, CachedZone>) {
    forall key | key in cache :: key in store && ZoneOf(read, store[key]) == Some(cache[key])
  }

  class Zones {
    const read: Reader
    var store: map<Key, Packet>
    var cache: map<Key, CachedZone>

    ghost predicate Valid()
      reads this
    {
      StoreOk(store) && Coherent(read, store, cache)
    }

    constructor (read: Reader)
      ensures Valid() && this.read == read && store == map[]
    {
      this.read := read;
      store, cache := map[], map[];
    }

    /** Puts a packet's zone into the cache unless the cached one is newer; making room may evict others. */
    method CacheInsert(p: Packet, evicted: set<Key>) returns (ok: bool)
      requires KeyOf(p) !in evicted
      modifies this`cache
      ensures var before := old(cache);
              var key := KeyOf(p);
              if key in before && before[key].timestamp > Timestamp(p) then ok && cache == before
              else if ZoneOf(read, p).None? then !ok && cache == before
              else ok && cache == before[key := ZoneOf(read, p).value] - evicted
    {
      var key := KeyOf(p);
      if key in cache && cache[key].timestamp > Timestamp(p) {
        return true;
      }
      var zone := ZoneOf(read, p);
      if zone.None? {
        return false;
      }
      cache := cache[key := zone.value] - evicted;
      return true;
    }

    /** What a query gets is what reading the store's packet would give, whatever is cached or evicted. */
    method Resolve(key: Key, q: Query, evicted: set<Key>) returns (r: Outcome)
      requires Valid() && key !in evicted
      modifies this`cache
      ensures Valid() && r == Answer(read, store, key, q)
      ensures r.Unreadable? <==> key in store && read(store[key]).None?
      ensures r.Found? <==> key in store && read(store[key]).Some? && q in read(store[key]).value
      ensures r.Found? ==> r.records == read(store[key]).value[q]
      ensures key in store && ZoneOf(read, store[key]).Some? ==> key in cache
    {
      if key in cache {
        r := InZone(cache[key], q);
        if r.Found? {
          return r;
        }
      }
      if key !in store {
        return NotFound;
      }
      var ok := CacheInsert(store[key], evicted);
      r := if !ok then Unreadable else if key in cache then InZone(cache[key], q) else NotFound;
    }

    method Insert(p: Packet) returns (updated: bool)
      requires Valid()
      modifies this
      ensures Valid() && store == Upserted(old(store), p) && updated == Replaces(old(store), p)
      ensures updated <==> KeyOf(p) !in old(store) || NotAfter(old(store)[KeyOf(p)], p)
      ensures if updated then store == old(store)[KeyOf(p) := p] else store == old(store)
    {
      hide MoreRecentThan, NotAfter;
      if KeyOf(p) in store { RecencyIsAfter(store[KeyOf(p)], p); }
      updated := Replaces(store, p);
      if updated {
        store := store[KeyOf(p) := p];
        cache := cache - {KeyOf(p)};
      }
    }

    /** The cache may drop zones at any time. */
    method Evict(keys: set<Key>)
      requires Valid()
      modifies this`cache
      ensures Valid() && cache == old(cache) - keys
    {
      cache := cache - keys;
    }
  }

  // ---------------------------------------------------------------- whole runs

  datatype Call = Insert(p: Packet) | Resolve(key: Key, q: Query, evicted: set<Key>) | Evict(keys: set<Key>)

  function Reference(read: Reader, calls: seq<Call>): (map<Key, Packet>, seq<Outcome>) {
    if calls == [] then (map[], []) else
    var (store, outcomes) := Reference(read, calls[..|calls| - 1]);
    match calls[|calls| - 1]
    case Insert(p) => (Upserted(store, p), outcomes)
    case Resolve(key, q, _) => (store, outcomes + [Answer(read, store, key, q)])
    case Evict(_) => (store, outcomes)
  }

  /** Any sequence of inserts, queries and evictions answers as the uncached store would. */
  method Serve(read: Reader, calls: seq<Call>) returns (outcomes: seq<Outcome>, store: map<Key, Packet>)
    requires forall i | 0 <= i < |calls| && calls[i].Resolve? :: calls[i].key !in calls[i].evicted
    ensures outcomes == Reference(read, calls).1 && store == Reference(read, calls).0
  {
    var zones := new Zones(read);
    outcomes := [];
    for i := 0 to |calls|
      invariant fresh(zones) && zones.Valid() && zones.read == read
      invariant (zones.store, outcomes) == Reference(read, calls[..i])
    {
      assert calls[..i + 1][..i] == calls[..i];
      match calls[i] {
        case Insert(p) => var _ := zones.Insert(p);
        case Resolve(key, q, evicted) =>
          var r := zones.Resolve(key, q, evicted);
          outcomes := outcomes + [r];
        case Evict(keys) => zones.Evict(keys);
      }
    }
    assert calls[..|calls|] == calls;
    store := zones.store;
  }

  predicate Inserts(calls: seq<Call>, i: nat, key: Key)
    requires i < |calls|
  {
    calls[i].Insert? && KeyOf(calls[i].p) == key
  }

  /** `p` was inserted, and of all the packets inserted for its key it has the largest timestamp and, among those of
   that timestamp, the greatest contents. */
  ghost predicate IsLatest(calls: seq<Call>, key: Key, p: Packet) {
    && (exists i :: 0 <= i < |calls| && Inserts(calls, i, key) && calls[i].p == p)
    && (forall i | 0 <= i < |calls| && Inserts(calls, i, key) :: NotAfter(calls[i].p, p))
  }

  ghost predicate NeverInserted(calls: seq<Call>, key: Key) {
    forall i | 0 <= i < |calls| :: !Inserts(calls, i, key)
  }

  lemma UpsertedKeeps(store: map<Key, Packet>, p: Packet, key: Key)
    ensures KeyOf(p) != key ==> (key in Upserted(store, p) <==> key in store)
    ensures KeyOf(p) != key && key in store ==> Upserted(store, p)[key] == store[key]
    ensures KeyOf(p) in Upserted(store, p)
    ensures KeyOf(p) !in store ==> Upserted(store, p)[KeyOf(p)] == p
    ensures KeyOf(p) in store ==>
              Upserted(store, p)[KeyOf(p)] == if NotAfter(store[KeyOf(p)], p) then p else store[KeyOf(p)]
    ensures KeyOf(p) in store && !NotAfter(store[KeyOf(p)], p) ==> NotAfter(p, store[KeyOf(p)])
    ensures NotAfter(p, p)
  {
    hide MoreRecentThan, NotAfter, KeyOf;
    RecencyIsStrictTotal(p, p, p);
    RecencyIsAfter(p, p);
    if KeyOf(p) in store {
      RecencyIsAfter(store[KeyOf(p)], p);
      RecencyIsAfter(p, store[KeyOf(p)]);
      RecencyIsStrictTotal(p, store[KeyOf(p)], p);
    }
  }

  lemma LatestStep(calls: seq<Call>, last: Call, key: Key, store: map<Key, Packet>)
    requires if key in store then IsLatest(calls, key, store[key]) else NeverInserted(calls, key)
    ensures var after := if last.Insert? then Upserted(store, last.p) else store;
            if key in after then IsLatest(calls + [last], key, after[key]) else NeverInserted(calls + [last], key)
  {
    hide NotAfter, KeyOf, Upserted;
    var more := calls + [last];
    forall i | 0 <= i < |calls| ensures Inserts(more, i, key) == Inserts(calls, i, key) {}
    if last.Insert? { UpsertedKeeps(store, last.p, key); }
    if key in store {
      var i :| 0 <= i < |calls| && Inserts(calls, i, key) && calls[i].p == store[key];
      assert Inserts(more, i, key) && more[i].p == store[key];
    }
    if last.Insert? && KeyOf(last.p) == key {
      assert Inserts(more, |calls|, key) && more[|calls|].p == last.p;
      if key in store && NotAfter(store[key], last.p) {
        forall i | 0 <= i < |more| && Inserts(more, i, key) ensures NotAfter(more[i].p, last.p) {
          if i < |calls| {
            assert Inserts(calls, i, key);
            NotAfterTransitive(calls[i].p, store[key], last.p);
          }
        }
      }
    }
  }

  /** After any calls the store has, for every key, the latest of all the packets inserted for it, and no others. */
  lemma {:induction false} NewestPacketStays(read: Reader, calls: seq<Call>, key: Key)
    ensures var store := Reference(read, calls).0;
            if key in store then IsLatest(calls, key, store[key]) else NeverInserted(calls, key)
  {
    hide IsLatest, NeverInserted, Answer, Upserted;
    if calls == [] {
      NothingInserted(key);
    } else {
      var most, last := calls[..|calls| - 1], calls[|calls| - 1];
      NewestPacketStays(read, most, key);
      LatestStep(most, last, key, Reference(read, most).0);
      assert calls == most + [last];
    }
  }

  lemma NothingInserted(key: Key)
    ensures NeverInserted([], key)
  {
  }
}
