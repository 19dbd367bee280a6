/**
 The zone store under concurrency. A query looks into the cache, then asks the store, then puts what it
 got into the cache; an insert writes the store and then clears the cache. Other calls may run in
 between, packets may expire from the store and zones may be evicted from the cache.
 */
module ZoneStoreRuns {
  import opened Base
  import opened SignedPackets
  import opened ZoneStore

  type Thread = nat

  datatype Pc =
    | Missed(key: Key, q: Query)
    | Holding(p: Packet, q: Query)
    | Clearing(key: Key)

  /** An answer given, with the packet it was read from; none if the store had none when it was asked. */
  datatype Reply = Reply(key: Key, q: Query, outcome: Outcome, origin: Option<Packet>)

  /**
   Beside what the server keeps: the packet each cached zone was read from, every packet the store ever had, and
   the keys marked because of a late put or an expiry.
   */
  datatype System = System(
    store: map<Key, Packet>,
    cache: map<Key, CachedZone>,
    threads: map<Thread, Pc>,
    replies: seq<Reply>,
    origin: map<Key, Packet>,
    held: set<Packet>,
    stale: set<Key>)

  const INITIAL: System := System(map[], map[], map[], [], map[], {}, {})

  datatype Step =
    | Lookup(t: Thread, key: Key, q: Query)
    | Fetch(t: Thread)
    | Put(t: Thread, evicted: set<Key>)
    | Write(t: Thread, p: Packet)
    | Clear(t: Thread)
    | EvictZones(keys: set<Key>)
    | Expire(key: Key)

  function Next(read: Reader, s: System, step: Step): System {
    match step
    case Lookup(t, key, q) =>
      if t in s.threads then s
      else if key in s.cache && InZone(s.cache[key], q).Found? then FromCache(s, key, q)
      else s.(threads := s.threads[t := Missed(key, q)])
    case Fetch(t) =>
      if t !in s.threads || !s.threads[t].Missed? then s else
      var Missed(key, q) := s.threads[t];
      if key in s.store then s.(threads := s.threads[t := Holding(s.store[key], q)])
      else s.(threads := s.threads - {t}, replies := s.replies + [Reply(key, q, NotFound, None)])
    case Put(t, evicted) =>
      if t !in s.threads || !s.threads[t].Holding? || KeyOf(s.threads[t].p) in evicted then s
      else Putting(read, s, t, evicted)
    case Write(t, p) =>
      if t in s.threads || !Replaces(s.store, p) then s
      else s.(store := s.store[KeyOf(p) := p], held := s.held + {p}, threads := s.threads[t := Clearing(KeyOf(p))])
    case Clear(t) =>
      if t !in s.threads || !s.threads[t].Clearing? then s
      else Dropped(s.(threads := s.threads - {t}), {s.threads[t].key})
    case EvictZones(keys) => Dropped(s, keys)
    case Expire(key) =>
      if key !in s.store then s else s.(store := s.store - {key}, stale := s.stale + {key})
  }

  function Dropped(s: System, keys: set<Key>): System {
    s.(cache := s.cache - keys, origin := s.origin - keys, stale := s.stale - keys)
  }

  function FromCache(s: System, key: Key, q: Query): System
    requires key in s.cache
  {
    s.(replies := s.replies
    + [Reply(key, q, InZone(s.cache[key], q), if key in s.origin then Some(s.origin[key]) else None)])
  }

  /** Whether a put replaces the cached zone: the cached one is not newer and the packet can be read. */
  predicate Lands(read: Reader, s: System, p: Packet) {
    !(KeyOf(p) in s.cache && s.cache[KeyOf(p)].timestamp > Timestamp(p)) && ZoneOf(read, p).Some?
  }

  predicate IsCurrent(s: System, p: Packet) {
    KeyOf(p) in s.store && s.store[KeyOf(p)] == p
  }

  function Putting(read: Reader, s: System, t: Thread, evicted: set<Key>): System
    requires t in s.threads && s.threads[t].Holding?
  {
    var Holding(p, q) := s.threads[t];
    var key := KeyOf(p);
    var done := s.(threads := s.threads - {t});
    if Lands(read, s, p) then
      var zone := ZoneOf(read, p).value;
      done.(
      cache := s.cache[key := zone] - evicted,
      origin := s.origin[key := p] - evicted,
      stale := (if IsCurrent(s, p) then s.stale - {key} else s.stale + {key}) - evicted,
      replies := s.replies + [Reply(key, q, InZone(zone, q), Some(p))])
    else if key in s.cache && s.cache[key].timestamp > Timestamp(p) then FromCache(done, key, q)
    else done.(replies := s.replies + [Reply(key, q, Unreadable, Some(p))])
  }

  function After(read: Reader, steps: seq<Step>): System {
    if steps == [] then INITIAL else Next(read, After(read, steps[..|steps| - 1]), steps[|steps| - 1])
  }

  // ---------------------------------------------------------------- where answers come from

  /** A reply is what its packet, once held by the store for the key, answers; one without a packet finds nothing. */
  predicate Justified(read: Reader, s: System, r: Reply) {
    match r.origin
    case None => r.outcome == NotFound
    case Some(p) => p in s.held && KeyOf(p) == r.key && r.outcome == Answer(read, map[r.key := p], r.key, r.q)
  }

  /** A cached zone is the reading of its origin. */
  predicate Sourced(read: Reader, s: System, key: Key) {
    key in s.cache && key in s.origin && s.origin[key] in s.held && KeyOf(s.origin[key]) == key
    && ZoneOf(read, s.origin[key]) == Some(s.cache[key])
  }

  predicate PacketsHeld(s: System) {
    && (forall key | key in s.store :: s.store[key] in s.held && KeyOf(s.store[key]) == key)
    && (forall t | t in s.threads && s.threads[t].Holding? :: s.threads[t].p in s.held)
  }

  predicate RepliesJustified(read: Reader, s: System) {
    forall i | 0 <= i < |s.replies| :: Justified(read, s, s.replies[i])
  }

  ghost predicate HistoryInv(read: Reader, s: System) {
    && PacketsHeld(s)
    && (forall key | key in s.cache :: Sourced(read, s, key))
    && RepliesJustified(read, s)
  }

  lemma HeldStays(read: Reader, s: System, next: System)
    requires s.held <= next.held
    ensures forall r | Justified(read, s, r) :: Justified(read, next, r)
  {
    hide Answer, KeyOf;
  }

  lemma SourceStays(read: Reader, s: System, step: Step, key: Key)
    requires !step.Put? && key in Next(read, s, step).cache && (key in s.cache ==> Sourced(read, s, key))
    ensures Sourced(read, Next(read, s, step), key)
  {
    hide InZone, KeyOf, ZoneOf, Putting, Replaces;
  }

  lemma CacheReplies(read: Reader, s: System, key: Key, q: Query)
    requires key in s.cache && Sourced(read, s, key)
    ensures key in s.origin
    ensures Justified(read, s, Reply(key, q, InZone(s.cache[key], q), Some(s.origin[key])))
  {
  }

  lemma PacketReplies(read: Reader, s: System, p: Packet, q: Query)
    requires p in s.held
    ensures var outcome := if ZoneOf(read, p).Some? then InZone(ZoneOf(read, p).value, q) else Unreadable;
            Justified(read, s, Reply(KeyOf(p), q, outcome, Some(p)))
  {
  }

  lemma PutKeepsHistory(read: Reader, s: System, t: Thread, evicted: set<Key>)
    requires HistoryInv(read, s) && t in s.threads && s.threads[t].Holding? && KeyOf(s.threads[t].p) !in evicted
    ensures HistoryInv(read, Putting(read, s, t, evicted))
  {
    hide Justified, InZone, KeyOf, ZoneOf;
      var Holding(p, q) := s.threads[t];
    HeldStays(read, s, Putting(read, s, t, evicted));
    PacketReplies(read, s, p, q);
    if KeyOf(p) in s.cache { CacheReplies(read, s, KeyOf(p), q); }
  }

  lemma StepKeepsPackets(read: Reader, s: System, step: Step)
    requires PacketsHeld(s) && !step.Put?
    ensures PacketsHeld(Next(read, s, step))
  {
    hide InZone, ZoneOf, Putting, Replaces, PublicKey;
  }

  lemma StepKeepsReplies(read: Reader, s: System, step: Step)
    requires RepliesJustified(read, s) && !step.Put? && forall key | key in s.cache :: Sourced(read, s, key)
    ensures RepliesJustified(read, Next(read, s, step))
  {
    hide Justified, InZone, KeyOf, ZoneOf, Putting, Replaces, Sourced;
    HeldStays(read, s, Next(read, s, step));
    if step.Lookup? && step.key in s.cache { CacheReplies(read, s, step.key, step.q); }
    NothingIsJustified(read, s);
  }

  lemma StepKeepsHistory(read: Reader, s: System, step: Step)
    requires HistoryInv(read, s)
    ensures HistoryInv(read, Next(read, s, step))
  {
    hide KeyOf, Putting, Sourced, PacketsHeld, RepliesJustified;
    var next := Next(read, s, step);
    if step.Put? {
      if next != s { PutKeepsHistory(read, s, step.t, step.evicted); }
    } else {
      StepKeepsPackets(read, s, step);
      StepKeepsReplies(read, s, step);
      forall key | key in next.cache ensures Sourced(read, next, key) { SourceStays(read, s, step, key); }
    }
  }

  lemma NothingIsJustified(read: Reader, s: System)
    ensures forall key, q :: Justified(read, s, Reply(key, q, NotFound, None))
  {
  }

  // ---------------------------------------------------------------- freshness

  predicate ClearPending(s: System, key: Key) {
    exists t | t in s.threads :: s.threads[t] == Clearing(key)
  }

  /**
   With no clear of it pending, a cached key is unmarked exactly if its zone was read from the packet the
   store has.
   */
  ghost predicate FreshInv(s: System) {
    forall key | key in s.cache && key in s.origin && !ClearPending(s, key) ::
      key !in s.stale <==> key in s.store && s.store[key] == s.origin[key]
  }

  lemma PutKeepsFresh(read: Reader, s: System, t: Thread, evicted: set<Key>)
    requires FreshInv(s) && t in s.threads && s.threads[t].Holding? && KeyOf(s.threads[t].p) !in evicted
    ensures FreshInv(Putting(read, s, t, evicted))
  {
    hide KeyOf, ZoneOf, InZone, Timestamp;
    var next := Putting(read, s, t, evicted);
    forall key | ClearPending(s, key) ensures ClearPending(next, key) {
      var t' :| t' in s.threads && s.threads[t'] == Clearing(key);
      assert next.threads[t'] == Clearing(key);
    }
  }

  lemma ClearsStay(read: Reader, s: System, step: Step, key: Key)
    requires ClearPending(s, key) && !step.Put?
    ensures ClearPending(Next(read, s, step), key) || (step.Clear? && key !in Next(read, s, step).cache)
  {
    hide KeyOf, ZoneOf, InZone, Replaces, Putting;
    var next := Next(read, s, step);
    var t :| t in s.threads && s.threads[t] == Clearing(key);
    if !(step.Clear? && step.t == t) { assert t in next.threads && next.threads[t] == Clearing(key); }
  }

  lemma StepKeepsFresh(read: Reader, s: System, step: Step)
    requires FreshInv(s)
    ensures FreshInv(Next(read, s, step))
  {
    hide KeyOf, ZoneOf, InZone, Putting, Replaces, ClearPending;
    var next := Next(read, s, step);
    if step.Put? {
      if next != s { PutKeepsFresh(read, s, step.t, step.evicted); }
    } else {
      forall key | key in next.cache && key in next.origin && !ClearPending(next, key)
        ensures key !in next.stale <==> key in next.store && next.store[key] == next.origin[key]
      {
        if ClearPending(s, key) { ClearsStay(read, s, step, key); }
        if step.Write? && next != s { WriteOwesClear(next, step.t, KeyOf(step.p)); }
      }
    }
  }

  lemma WriteOwesClear(s: System, t: Thread, key: Key)
    requires t in s.threads && s.threads[t] == Clearing(key)
    ensures ClearPending(s, key)
  {
  }

  lemma {:induction false} RunsKeepInvariants(read: Reader, steps: seq<Step>)
    ensures HistoryInv(read, After(read, steps)) && FreshInv(After(read, steps))
  {
    hide HistoryInv, FreshInv, Next;
    if steps == [] {
      InitialInvariants(read);
    } else {
      RunsKeepInvariants(read, steps[..|steps| - 1]);
      StepKeepsHistory(read, After(read, steps[..|steps| - 1]), steps[|steps| - 1]);
      StepKeepsFresh(read, After(read, steps[..|steps| - 1]), steps[|steps| - 1]);
    }
  }

  lemma InitialInvariants(read: Reader)
    ensures HistoryInv(read, INITIAL) && FreshInv(INITIAL)
  {
  }

  /**
   Under every interleaving, whatever is cached or answered is read from a packet the store once held for
   that key.
   */
  lemma AnswersComeFromHeldPackets(read: Reader, steps: seq<Step>)
    ensures var s := After(read, steps);
            && (forall key | key in s.cache :: Sourced(read, s, key))
            && (forall i | 0 <= i < |s.replies| :: Justified(read, s, s.replies[i]))
  {
    hide After, Justified, Sourced, FreshInv;
    RunsKeepInvariants(read, steps);
  }

  /** A reply without a packet was given when the query asked a store that had none for the key. */
  predicate Missing(read: Reader, steps: seq<Step>, j: nat, r: Reply)
    requires j < |steps|
  {
    var s := After(read, steps[..j]);
    steps[j].Fetch? && steps[j].t in s.threads && s.threads[steps[j].t] == Missed(r.key, r.q) && r.key !in s.store
  }

  lemma NewReply(read: Reader, s: System, step: Step)
    requires forall key | key in s.cache :: key in s.origin
    ensures var next := Next(read, s, step);
            || next.replies == s.replies
            || (&& |next.replies| == |s.replies| + 1 && next.replies[..|s.replies|] == s.replies
                && var r := next.replies[|s.replies|];
                r.origin.None? ==>
                  step.Fetch? && step.t in s.threads && s.threads[step.t] == Missed(r.key, r.q) && r.key !in s.store)
  {
    hide KeyOf, ZoneOf, InZone, Replaces, Timestamp, Lands;
  }

  lemma {:induction false} MissesAreReal(read: Reader, steps: seq<Step>, i: nat)
    requires i < |After(read, steps).replies| && After(read, steps).replies[i].origin.None?
    ensures exists j :: 0 <= j < |steps| && Missing(read, steps, j, After(read, steps).replies[i])
  {
    hide Next, Justified;
    var most := steps[..|steps| - 1];
    var s, r := After(read, most), After(read, steps).replies[i];
    RunsKeepInvariants(read, most);
    forall key | key in s.cache ensures key in s.origin { assert Sourced(read, s, key); }
    NewReply(read, s, steps[|steps| - 1]);
    if i < |s.replies| {
      assert s.replies[i] == r;
      MissesAreReal(read, most, i);
      var j :| 0 <= j < |most| && Missing(read, most, j, r);
      assert most[..j] == steps[..j] && Missing(read, steps, j, r);
    } else {
      assert Missing(read, steps, |steps| - 1, r);
    }
  }

  // ---------------------------------------------------------------- what marks a key

  /** A put that lands although the store no longer has its packet, or an expiry. */
  predicate Marks(read: Reader, s: System, step: Step, key: Key) {
    || (step == Expire(key) && key in s.store)
    || (LandingPut(read, s, step, key) && !IsCurrent(s, s.threads[step.t].p))
  }

  predicate LandingPut(read: Reader, s: System, step: Step, key: Key) {
    step.Put? && step.t in s.threads && s.threads[step.t].Holding? && key !in step.evicted
    && KeyOf(s.threads[step.t].p) == key && Lands(read, s, s.threads[step.t].p)
  }

  /** A put that lands with the packet the store has, or a step that drops the key from the cache. */
  predicate Unmarks(read: Reader, s: System, step: Step, key: Key) {
    || (LandingPut(read, s, step, key) && IsCurrent(s, s.threads[step.t].p))
    || (step.Clear? && step.t in s.threads && s.threads[step.t] == Clearing(key))
    || (step.EvictZones? && key in step.keys)
    || (&& step.Put? && key in step.evicted && step.t in s.threads && s.threads[step.t].Holding?
        && KeyOf(s.threads[step.t].p) !in step.evicted && Lands(read, s, s.threads[step.t].p))
  }

  lemma MarkStep(read: Reader, s: System, step: Step, key: Key)
    ensures key in Next(read, s, step).stale
       <==> Marks(read, s, step, key) || (key in s.stale && !Unmarks(read, s, step, key))
  {
    hide KeyOf, Lands, IsCurrent, ZoneOf, InZone, Replaces, Putting;
    if step.Put? && step.t in s.threads && s.threads[step.t].Holding? { PutMarks(read, s, step.t, step.evicted, key); }
  }

  lemma PutMarks(read: Reader, s: System, t: Thread, evicted: set<Key>, key: Key)
    requires t in s.threads && s.threads[t].Holding?
    ensures var p := s.threads[t].p;
            && (!Lands(read, s, p) ==> (key in Putting(read, s, t, evicted).stale <==> key in s.stale))
            && (Lands(read, s, p) ==>
                  (key in Putting(read, s, t, evicted).stale
                   <==> key !in evicted && (if key == KeyOf(p) then !IsCurrent(s, p) else key in s.stale)))
  {
    hide KeyOf, ZoneOf, InZone, Timestamp;
  }

  /** Step `i` of the run marked the key, and nothing has unmarked it since. */
  ghost predicate MarkedSince(read: Reader, steps: seq<Step>, i: nat, key: Key)
    requires i < |steps|
  {
    && Marks(read, After(read, steps[..i]), steps[i], key)
    && forall j | i < j < |steps| :: !Unmarks(read, After(read, steps[..j]), steps[j], key)
  }

  /** A key is marked exactly if a late put or an expiry of it has not been undone since. */
  lemma {:induction false} StaleHasCause(read: Reader, steps: seq<Step>, key: Key)
    ensures key in After(read, steps).stale <==> exists i :: 0 <= i < |steps| && MarkedSince(read, steps, i, key)
  {
    hide Next, Marks, Unmarks;
    if steps != [] {
      var n := |steps| - 1;
      var most := steps[..n];
      StaleHasCause(read, most, key);
      MarkStep(read, After(read, most), steps[n], key);
      forall i | 0 <= i < n
        ensures MarkedSince(read, steps, i, key)
           <==> MarkedSince(read, most, i, key) && !Unmarks(read, After(read, most), steps[n], key)
      {
        MarkedLater(read, steps, i, key);
      }
      assert MarkedSince(read, steps, n, key) <==> Marks(read, After(read, most), steps[n], key);
    }
  }

  lemma MarkedLater(read: Reader, steps: seq<Step>, i: nat, key: Key)
    requires i < |steps| - 1
    ensures var most := steps[..|steps| - 1];
            MarkedSince(read, steps, i, key)
            <==> MarkedSince(read, most, i, key) && !Unmarks(read, After(read, most), steps[|steps| - 1], key)
  {
    hide After, Marks, Unmarks;
    var most := steps[..|steps| - 1];
    forall j | 0 <= j < |most| ensures most[..j] == steps[..j] && most[j] == steps[j] {}
  }

  /**
   A query that hits the cache gets the answer of the packet its zone was read from. With no clear of the key
   pending, that is the packet the store has, and the answer the uncached one, exactly if no late put and no
   expiry of the key stands.
   */
  lemma CacheIsTransparent(read: Reader, steps: seq<Step>, t: Thread, key: Key, q: Query)
    requires key in After(read, steps).cache && t !in After(read, steps).threads
    ensures var s := After(read, steps);
            && Sourced(read, s, key)
            && (InZone(s.cache[key], q).Found? ==>
                  Next(read, s, Lookup(t, key, q)).replies
                  == s.replies + [Reply(key, q, Answer(read, map[key := s.origin[key]], key, q), Some(s.origin[key]))])
            && (!ClearPending(s, key) ==>
                  (IsCurrent(s, s.origin[key]) <==> !exists i :: 0 <= i < |steps| && MarkedSince(read, steps, i, key)))
            && (IsCurrent(s, s.origin[key])
                ==> Answer(read, map[key := s.origin[key]], key, q) == Answer(read, s.store, key, q))
  {
    hide After, MarkedSince, ClearPending;
    RunsKeepInvariants(read, steps);
    StaleHasCause(read, steps, key);
  }

  // ---------------------------------------------------------------- timestamps of cached zones

  lemma TimestampsGrow(read: Reader, s: System, step: Step, key: Key)
    requires key in s.cache && key in Next(read, s, step).cache
    ensures s.cache[key].timestamp <= Next(read, s, step).cache[key].timestamp
  {
    hide Timestamp, KeyOf, InZone, Replaces;
  }

  /** While a key stays cached its zone's timestamp, which is that of the packet it was read from, never decreases. */
  lemma {:induction false} CachedTimestampsGrow(read: Reader, steps: seq<Step>, more: seq<Step>, key: Key)
    requires forall k | 0 <= k <= |more| :: key in After(read, steps + more[..k]).cache
    ensures key in After(read, steps).cache && key in After(read, steps + more).cache
    ensures After(read, steps).cache[key].timestamp <= After(read, steps + more).cache[key].timestamp
    ensures var s, later := After(read, steps), After(read, steps + more);
            key in s.origin && key in later.origin && Timestamp(s.origin[key]) <= Timestamp(later.origin[key])
  {
    hide Next, Timestamp;
    assert steps + more[..0] == steps && more[..|more|] == more;
    TimestampOfOrigin(read, steps, key);
    TimestampOfOrigin(read, steps + more, key);
    if more != [] {
      var less := more[..|more| - 1];
      forall k | 0 <= k <= |less| ensures key in After(read, steps + less[..k]).cache { assert less[..k] == more[..k]; }
      CachedTimestampsGrow(read, steps, less, key);
      assert (steps + more)[..|steps + more| - 1] == steps + less;
      TimestampsGrow(read, After(read, steps + less), more[|more| - 1], key);
    }
  }

  lemma TimestampOfOrigin(read: Reader, steps: seq<Step>, key: Key)
    requires key in After(read, steps).cache
    ensures var s := After(read, steps); key in s.origin && s.cache[key].timestamp == Timestamp(s.origin[key])
  {
    hide After, Timestamp, KeyOf;
    AnswersComeFromHeldPackets(read, steps);
    assert Sourced(read, After(read, steps), key);
  }

  // ---------------------------------------------------------------- a late put

  /** A query fetches the old packet, an insert replaces and clears it, and then the query puts the old one. */
  function LateRun(early: Packet, late: Packet, q: Query): seq<Step> {
    [Write(0, early), Clear(0), Lookup(1, KeyOf(early), q), Fetch(1), Write(0, late), Clear(0), Put(1, {}),
     Lookup(2, KeyOf(early), q)]
  }

  lemma AfterTake(read: Reader, steps: seq<Step>, k: nat)
    requires k < |steps|
    ensures After(read, steps[..0]) == INITIAL
            && After(read, steps[..k + 1]) == Next(read, After(read, steps[..k]), steps[k])
  {
    hide Next;
    assert steps[..k + 1][..k] == steps[..k];
  }

  lemma OldPacketIsFetched(read: Reader, early: Packet, late: Packet, q: Query)
    ensures var s := After(read, LateRun(early, late, q)[..4]);
            s.store == map[KeyOf(early) := early] && s.cache == map[] && s.origin == map[]
            && s.threads == map[1 := Holding(early, q)]
  {
    hide KeyOf, MoreRecentThan, After;
    var run, key := LateRun(early, late, q), KeyOf(early);
    AfterTake(read, run, 0);
    AfterTake(read, run, 1);
    AfterTake(read, run, 2);
    AfterTake(read, run, 3);
    var s1 := After(read, run[..1]);
    assert s1.store == map[key := early] && s1.cache == map[] && s1.origin == map[]
           && s1.threads == map[0 := Clearing(key)];
    var s2 := After(read, run[..2]);
    assert s2.store == map[key := early] && s2.cache == map[] && s2.origin == map[] && s2.threads == map[];
    var s3 := After(read, run[..3]);
    assert s3.store == map[key := early] && s3.cache == map[] && s3.origin == map[]
           && s3.threads == map[1 := Missed(key, q)];
  }

  lemma OldPacketIsCached(read: Reader, early: Packet, late: Packet, q: Query)
    requires KeyOf(early) == KeyOf(late) && MoreRecentThan(late, early) && ZoneOf(read, early).Some?
    ensures var s := After(read, LateRun(early, late, q)[..7]);
            && s.store == map[KeyOf(early) := late] && s.cache == map[KeyOf(early) := ZoneOf(read, early).value]
            && s.origin == map[KeyOf(early) := early] && s.threads == map[]
  {
    hide KeyOf, MoreRecentThan, ZoneOf, After;
    RecencyIsStrictTotal(late, early, early);
    var run, key := LateRun(early, late, q), KeyOf(early);
    OldPacketIsFetched(read, early, late, q);
    AfterTake(read, run, 4);
    AfterTake(read, run, 5);
    AfterTake(read, run, 6);
    var s5 := After(read, run[..5]);
    assert s5.store == map[key := late] && s5.cache == map[] && s5.origin == map[]
           && s5.threads == map[0 := Clearing(key), 1 := Holding(early, q)];
    var s6 := After(read, run[..6]);
    assert s6.store == map[key := late] && s6.cache == map[] && s6.origin == map[]
           && s6.threads == map[1 := Holding(early, q)];
  }

  /** After a late put, with every call over, the cache goes on answering from the packet the store has replaced. */
  lemma LatePutServesOldRecords(read: Reader, early: Packet, late: Packet, q: Query)
    requires KeyOf(early) == KeyOf(late) && MoreRecentThan(late, early) && ZoneOf(read, early).Some?
    requires InZone(ZoneOf(read, early).value, q).Found?
    ensures var run := LateRun(early, late, q);
            var s := After(read, run);
            && After(read, run[..7]).threads == map[] && s.threads == map[] && s.store == map[KeyOf(early) := late]
            && s.replies == After(read, run[..7]).replies
                            + [Reply(KeyOf(early), q, InZone(ZoneOf(read, early).value, q), Some(early))]
  {
    hide KeyOf, MoreRecentThan, ZoneOf, After;
    RecencyIsStrictTotal(late, early, early);
    var run, key := LateRun(early, late, q), KeyOf(early);
    assert run[..8] == run;
    AfterTake(read, run, 7);
    OldPacketIsCached(read, early, late, q);
  }

  // ---------------------------------------------------------------- what the store keeps

  lemma AfterOne(read: Reader, steps: seq<Step>, step: Step)
    ensures After(read, steps + [step]) == Next(read, After(read, steps), step)
  {
    hide Next;
    assert (steps + [step])[..|steps|] == steps;
  }

  /** Step `i` is an insert of `p`, by a thread that was free for it. */
  ghost predicate InsertedAt(read: Reader, steps: seq<Step>, i: nat, p: Packet)
    requires i < |steps|
  {
    steps[i].Write? && steps[i].p == p && steps[i].t !in After(read, steps[..i]).threads
  }

  predicate Holds(s: System, p: Packet) {
    KeyOf(p) in s.store && NotAfter(p, s.store[KeyOf(p)])
  }

  lemma StoreStep(read: Reader, s: System, step: Step, p: Packet)
    requires step != Expire(KeyOf(p)) && (Holds(s, p) || (step.Write? && step.p == p && step.t !in s.threads))
    ensures Holds(Next(read, s, step), p)
  {
    hide KeyOf, NotAfter, MoreRecentThan, Putting, ZoneOf, InZone;
    if step.Write? {
      UpsertedKeeps(s.store, step.p, KeyOf(p));
      if Holds(s, p) && KeyOf(step.p) == KeyOf(p) && NotAfter(s.store[KeyOf(p)], step.p) {
        NotAfterTransitive(p, s.store[KeyOf(p)], step.p);
      }
      assert KeyOf(step.p) in s.store ==> (Replaces(s.store, step.p) <==> NotAfter(s.store[KeyOf(step.p)], step.p)) by {
        if KeyOf(step.p) in s.store { RecencyIsAfter(s.store[KeyOf(step.p)], step.p); }
      }
    } else if step.Put? && step.t in s.threads && s.threads[step.t].Holding? {
      PuttingKeepsStore(read, s, step.t, step.evicted);
    }
  }

  lemma PuttingKeepsStore(read: Reader, s: System, t: Thread, evicted: set<Key>)
    requires t in s.threads && s.threads[t].Holding?
    ensures Putting(read, s, t, evicted).store == s.store
  {
    hide KeyOf, ZoneOf, InZone, Timestamp;
  }

  /** From its insert on, until the key expires, the store has a packet no earlier than the one inserted. */
  lemma {:induction false} InsertsAreKept(read: Reader, steps: seq<Step>, i: nat, p: Packet)
    requires i < |steps| && InsertedAt(read, steps, i, p)
    requires forall j | i < j < |steps| :: steps[j] != Expire(KeyOf(p))
    ensures Holds(After(read, steps), p)
    decreases |steps|
  {
    hide Next, Holds, KeyOf;
    var n := |steps| - 1;
    var most := steps[..n];
    if i < n {
      assert most[..i] == steps[..i];
      InsertsAreKept(read, most, i, p);
    }
    StoreStep(read, After(read, most), steps[n], p);
  }

  /** The store only has packets that were inserted, and an expiry empties its key. */
  lemma {:induction false} StoreWasInserted(read: Reader, steps: seq<Step>, key: Key)
    requires key in After(read, steps).store
    ensures exists i :: 0 <= i < |steps| && InsertedAt(read, steps, i, After(read, steps).store[key])
  {
    hide KeyOf, MoreRecentThan, ZoneOf, InZone, Putting;
    var n := |steps| - 1;
    var most := steps[..n];
    var before, step := After(read, most), steps[n];
    if step.Put? && step.t in before.threads && before.threads[step.t].Holding? {
      PuttingKeepsStore(read, before, step.t, step.evicted);
    }
    if key in before.store && before.store[key] == After(read, steps).store[key] {
      StoreWasInserted(read, most, key);
      var i :| 0 <= i < n && InsertedAt(read, most, i, before.store[key]);
      assert most[..i] == steps[..i];
      assert InsertedAt(read, steps, i, before.store[key]);
    } else {
      assert InsertedAt(read, steps, n, After(read, steps).store[key]);
    }
  }

  lemma ExpiryEmpties(read: Reader, steps: seq<Step>, key: Key)
    ensures var s := After(read, steps); After(read, steps + [Expire(key)]).store == s.store - {key}
  {
    hide After;
    AfterOne(read, steps, Expire(key));
  }

  /** A query left alone that misses the cache answers from the store's packet and caches it. */
  lemma QueryAnswers(read: Reader, steps: seq<Step>, t: Thread, key: Key, q: Query)
    requires var s := After(read, steps); t !in s.threads && key !in s.cache
    ensures var s := After(read, steps);
            var later := After(read, steps + [Lookup(t, key, q)] + [Fetch(t)] + [Put(t, {})]);
            && |later.replies| == |s.replies| + 1
            && later.replies[|s.replies|].key == key && later.replies[|s.replies|].q == q
            && later.replies[|s.replies|].outcome == Answer(read, s.store, key, q)
            && later.store == s.store && later.threads == s.threads
            && (key in later.cache <==> key in s.store && ZoneOf(read, s.store[key]).Some?)
  {
    hide After, KeyOf, Timestamp;
    var s := After(read, steps);
    KeysAreOwn(read, steps, key);
    AfterOne(read, steps, Lookup(t, key, q));
    AfterOne(read, steps + [Lookup(t, key, q)], Fetch(t));
    AfterOne(read, steps + [Lookup(t, key, q)] + [Fetch(t)], Put(t, {}));
    assert s.threads[t := Missed(key, q)] - {t} == s.threads;
    if key in s.store { assert s.threads[t := Missed(key, q)][t := Holding(s.store[key], q)] - {t} == s.threads; }
  }

  lemma KeysAreOwn(read: Reader, steps: seq<Step>, key: Key)
    ensures key in After(read, steps).store ==> KeyOf(After(read, steps).store[key]) == key
  {
    hide After, FreshInv, RepliesJustified, Sourced, KeyOf;
    RunsKeepInvariants(read, steps);
  }

  /** An insert left alone that replaces the store's packet leaves the new one there and nothing cached for it. */
  lemma InsertReplaces(read: Reader, steps: seq<Step>, t: Thread, p: Packet)
    requires var s := After(read, steps);
             t !in s.threads && (KeyOf(p) !in s.store || NotAfter(s.store[KeyOf(p)], p))
    ensures var s, later := After(read, steps), After(read, steps + [Write(t, p)] + [Clear(t)]);
            && later.store == s.store[KeyOf(p) := p] && KeyOf(p) !in later.cache && later.threads == s.threads
            && later.cache == s.cache - {KeyOf(p)}
  {
    hide After, KeyOf, NotAfter, MoreRecentThan;
    var s := After(read, steps);
    if KeyOf(p) in s.store { RecencyIsAfter(s.store[KeyOf(p)], p); }
    AfterOne(read, steps, Write(t, p));
    AfterOne(read, steps + [Write(t, p)], Clear(t));
    assert s.threads[t := Clearing(KeyOf(p))] - {t} == s.threads;
  }
}
