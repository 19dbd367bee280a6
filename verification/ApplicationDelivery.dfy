/**
 One delivery pass, message by message: which messages are left in the queue, and what has become of the others.
 A message is left exactly if a partition separates its ends, or if it carries no grant and its destination has no
 replica of the document and gets none from a message before it.
 */
module ApplicationDelivery {
  import opened Base
  import opened Application
  import opened ApplicationMerge
  import ApplicationBounds
  import opened ApplicationHistory
  import opened ApplicationRuns
  import opened ApplicationConvergence

  // ---------------------------------------------------------------- which messages get through

  /** One of the first `k` messages can hand `n` a replica of `d`; with `write`, one that grants Write. */
  predicate Granted(s: Snapshot, k: nat, n: NodeId, d: DocumentId, write: bool)
    requires k <= |s.pending|
  {
    exists j :: 0 <= j < k && Grants(s, s.pending[j], n, d, write)
  }

  predicate Grants(s: Snapshot, m: Message, n: NodeId, d: DocumentId, write: bool) {
    AddressedTo(m, n, d) && !Separated(s, m.from, m.to) && m.grant.Some? && (write ==> m.grant == Some(Write))
  }

  /** Message `i` cannot be delivered in a pass that starts in `s`. */
  predicate Stuck(s: Snapshot, i: nat)
    requires i < |s.pending|
  {
    var m := s.pending[i];
    || Separated(s, m.from, m.to)
    || (m.grant.None? && CapabilityOf(s, m.to, m.document).None? && !Granted(s, i, m.to, m.document, false))
  }

  /** The stuck ones of the first `k` messages, in their order. */
  function StuckOnes(s: Snapshot, k: nat): seq<Message>
    requires k <= |s.pending|
  {
    if k == 0 then [] else StuckOnes(s, k - 1) + (if Stuck(s, k - 1) then [s.pending[k - 1]] else [])
  }

  predicate GetsThrough(s: Snapshot, k: nat, i: nat, n: NodeId)
    requires k <= |s.pending|
  {
    i < k && !Stuck(s, i) && s.pending[i].to == n
  }

  /** Some message among the first `k` that gets through brings entry `e` at `key` to `n`'s replica of `d`. */
  ghost predicate Brought(s: Snapshot, k: nat, n: NodeId, d: DocumentId, key: Key, e: Entry)
    requires k <= |s.pending|
  {
    exists i: nat :: GetsThrough(s, k, i, n) && s.pending[i].document == d && Has(s.pending[i].entries, key, e)
  }

  ghost predicate BroughtBlob(s: Snapshot, k: nat, n: NodeId, h: BlobHash)
    requires k <= |s.pending|
  {
    exists i: nat :: GetsThrough(s, k, i, n) && h in s.pending[i].blobs
  }

  // ---------------------------------------------------------------- the state in the middle of a pass

  predicate SameNodeStatus(a: NodeState, b: NodeState) {
    && a.identity == b.identity && a.running == b.running && a.storageFault == b.storageFault
    && a.storageSchema == b.storageSchema
  }

  /** What delivery leaves alone. */
  predicate SameStatus(s: Snapshot, t: Snapshot) {
    && t.nodes.Keys == s.nodes.Keys && t.partitions == s.partitions && t.faults == s.faults && t.revision == s.revision
    && forall n | n in s.nodes :: SameNodeStatus(s.nodes[n], t.nodes[n])
  }

  /** All that `m` carries is at its destination: the grant, the entries or newer ones, and the blobs. */
  predicate Arrived(t: Snapshot, m: Message) {
    && CapabilityOf(t, m.to, m.document).Some? && AtLeast(CapabilityOf(t, m.to, m.document), m.grant)
    && Supersedes(EntriesOf(t, m.to, m.document), m.entries)
    && m.blobs.Keys <= BlobsOf(t, m.to).Keys
  }

  ghost predicate HoldersAfter(s: Snapshot, t: Snapshot, k: nat)
    requires k <= |s.pending|
  {
    && (forall n, d :: CapabilityOf(t, n, d).Some? <==> CapabilityOf(s, n, d).Some? || Granted(s, k, n, d, false))
    && (forall n, d :: HoldsWrite(t, n, d) <==> HoldsWrite(s, n, d) || Granted(s, k, n, d, true))
  }

  ghost predicate EntriesAfter(s: Snapshot, t: Snapshot, k: nat)
    requires k <= |s.pending|
  {
    && (forall n, d :: Supersedes(EntriesOf(t, n, d), EntriesOf(s, n, d)))
    && (forall n, d, key, e | Has(EntriesOf(t, n, d), key, e) ::
          Has(EntriesOf(s, n, d), key, e) || Brought(s, k, n, d, key, e))
  }

  ghost predicate BlobsAfter(s: Snapshot, t: Snapshot, k: nat)
    requires k <= |s.pending|
  {
    forall n, h :: h in BlobsOf(t, n) <==> h in BlobsOf(s, n) || BroughtBlob(s, k, n, h)
  }

  ghost predicate ArrivedAfter(s: Snapshot, t: Snapshot, k: nat)
    requires k <= |s.pending|
  {
    forall i | 0 <= i < k && !Stuck(s, i) :: Arrived(t, s.pending[i])
  }

  /** `t` is what the first `k` messages of a pass make of `s`. */
  ghost predicate Passed(s: Snapshot, t: Snapshot, k: nat)
    requires k <= |s.pending|
  {
    && t.pending == s.pending[k..] + StuckOnes(s, k)
    && SameStatus(s, t) && HoldersAfter(s, t, k) && EntriesAfter(s, t, k) && BlobsAfter(s, t, k)
    && ArrivedAfter(s, t, k)
  }

  // ---------------------------------------------------------------- one message

  predicate HeadStuck(t: Snapshot)
    requires t.pending != []
  {
    var m := t.pending[0];
    Separated(t, m.from, m.to) || (m.grant.None? && CapabilityOf(t, m.to, m.document).None?)
  }

  /** How landing `m` shows at one node. */
  predicate LandsAt(t: Snapshot, next: Snapshot, m: Message, n: NodeId, d: DocumentId) {
    && EntriesOf(next, n, d) == (if AddressedTo(m, n, d) then Newest(EntriesOf(t, n, d), m.entries)
                                 else EntriesOf(t, n, d))
    && CapabilityOf(next, n, d) == (if !AddressedTo(m, n, d) then CapabilityOf(t, n, d)
                                    else if m.grant == Some(Write) then Some(Write)
                                    else if CapabilityOf(t, n, d).Some? then CapabilityOf(t, n, d)
                                    else m.grant)
    && BlobsOf(next, n).Keys == BlobsOf(t, n).Keys + (if n == m.to then m.blobs.Keys else {})
  }

  ghost predicate HeadLands(t: Snapshot, next: Snapshot)
    requires t.pending != []
  {
    && next.pending == t.pending[1..] && SameStatus(t, next)
    && (forall n, d :: LandsAt(t, next, t.pending[0], n, d))
  }

  lemma LandedStatus(t: Snapshot, m: Message)
    requires m.to in t.nodes && (m.document in t.nodes[m.to].documents || m.grant.Some?)
    ensures SameStatus(t, SetNode(t, m.to, Landed(t.nodes[m.to], m)))
  {
    hide Newest, WithMissing;
    assert SetNode(t, m.to, Landed(t.nodes[m.to], m)).nodes.Keys == t.nodes.Keys;
  }

  lemma LandedLands(t: Snapshot)
    requires t.pending != []
    requires var m := t.pending[0]; m.to in t.nodes && (m.document in t.nodes[m.to].documents || m.grant.Some?)
    ensures var m := t.pending[0];
            HeadLands(t, SetNode(t.(pending := t.pending[1..]), m.to, Landed(t.nodes[m.to], m)))
  {
    var m := t.pending[0];
    var popped := t.(pending := t.pending[1..]);
    var next := SetNode(popped, m.to, Landed(t.nodes[m.to], m));
    LandedStatus(popped, m);
    forall n, d
      ensures EntriesOf(popped, n, d) == EntriesOf(t, n, d) && CapabilityOf(popped, n, d) == CapabilityOf(t, n, d)
      ensures BlobsOf(popped, n) == BlobsOf(t, n)
    {
    }
    hide EntriesOf, CapabilityOf, BlobsOf, Landed, Newest;
    forall n, d ensures LandsAt(t, next, m, n, d) { LandedObserved(popped, m, n, d); }
  }

  /** The head of the queue goes to the tail if it is stuck, and lands otherwise. */
  lemma HeadGoes(w: World, t: Snapshot)
    requires t.pending != [] && Hashed(w, t.pending[0].blobs) && DeliveredOne(w, t).Ok?
    ensures HeadStuck(t) ==> DeliveredOne(w, t).value == t.(pending := t.pending[1..] + [t.pending[0]])
    ensures !HeadStuck(t) ==> HeadLands(t, DeliveredOne(w, t).value)
  {
    hide Hashed, Received, Landed, HeadLands;
    var m := t.pending[0];
    ReceivedClosed(w, t.(pending := t.pending[1..]), m);
    if !HeadStuck(t) { LandedLands(t); }
  }

  // ---------------------------------------------------------------- one more message of a pass

  lemma GrantedStep(s: Snapshot, k: nat, n: NodeId, d: DocumentId, write: bool)
    requires k < |s.pending|
    ensures Granted(s, k + 1, n, d, write) <==> Granted(s, k, n, d, write) || Grants(s, s.pending[k], n, d, write)
  {
    hide Grants;
  }

  /** In the middle of the pass the head is stuck exactly if it was bound to be from the start. */
  lemma HeadStuckIff(s: Snapshot, t: Snapshot, k: nat)
    requires k < |s.pending| && Passed(s, t, k)
    ensures t.pending != [] && t.pending[0] == s.pending[k] && (HeadStuck(t) <==> Stuck(s, k))
  {
    hide CapabilityOf, Granted, EntriesAfter, BlobsAfter, ArrivedAfter, StuckOnes;
    assert t.pending[0] == s.pending[k];
  }

  lemma StuckOnesGet(s: Snapshot, k: nat, t: Snapshot, next: Snapshot)
    requires k < |s.pending| && t.pending == s.pending[k..] + StuckOnes(s, k)
    requires next.pending == t.pending[1..] + (if Stuck(s, k) then [s.pending[k]] else [])
    ensures next.pending == s.pending[k + 1..] + StuckOnes(s, k + 1)
  {
    hide Stuck;
    assert t.pending[1..] == s.pending[k + 1..] + StuckOnes(s, k);
  }

  ghost predicate SameObserved(t: Snapshot, next: Snapshot) {
    && (forall n, d :: EntriesOf(next, n, d) == EntriesOf(t, n, d) && CapabilityOf(next, n, d) == CapabilityOf(t, n, d))
    && (forall n :: BlobsOf(next, n) == BlobsOf(t, n))
  }

  lemma StuckReplicas(s: Snapshot, t: Snapshot, k: nat, next: Snapshot)
    requires k < |s.pending| && Stuck(s, k) && SameObserved(t, next) && HoldersAfter(s, t, k) && EntriesAfter(s, t, k)
    ensures HoldersAfter(s, next, k + 1) && EntriesAfter(s, next, k + 1)
  {
    hide EntriesOf, CapabilityOf, BlobsOf, Supersedes, Granted;
    forall n, d, write ensures Granted(s, k + 1, n, d, write) <==> Granted(s, k, n, d, write) {
      GrantedStep(s, k, n, d, write);
    }
    forall n, d, key, e | Has(EntriesOf(next, n, d), key, e)
      ensures Has(EntriesOf(s, n, d), key, e) || Brought(s, k + 1, n, d, key, e)
    {
      if Brought(s, k, n, d, key, e) { BroughtGrows(s, k, n, d, key, e); }
    }
  }

  lemma StuckArrivals(s: Snapshot, t: Snapshot, k: nat, next: Snapshot)
    requires k < |s.pending| && Stuck(s, k) && SameObserved(t, next) && BlobsAfter(s, t, k) && ArrivedAfter(s, t, k)
    ensures BlobsAfter(s, next, k + 1) && ArrivedAfter(s, next, k + 1)
  {
    hide EntriesOf, CapabilityOf, BlobsOf, Supersedes, AtLeast, Stuck, BroughtBlob;
    forall n, h ensures BroughtBlob(s, k + 1, n, h) <==> BroughtBlob(s, k, n, h) { BroughtBlobStep(s, k, n, h); }
    forall i | 0 <= i < k + 1 && !Stuck(s, i) ensures Arrived(next, s.pending[i]) { assert Arrived(t, s.pending[i]); }
  }

  /** A stuck message changes nothing but the queue. */
  lemma StuckPasses(s: Snapshot, t: Snapshot, k: nat, next: Snapshot)
    requires k < |s.pending| && Passed(s, t, k) && Stuck(s, k)
    requires next == t.(pending := t.pending[1..] + [s.pending[k]])
    ensures Passed(s, next, k + 1)
  {
    hide HoldersAfter, EntriesAfter, BlobsAfter, ArrivedAfter, StuckOnes, Stuck;
    StuckOnesGet(s, k, t, next);
    RequeuedObserved(t, next.pending);
    hide SameObserved;
    StuckReplicas(s, t, k, next);
    StuckArrivals(s, t, k, next);
  }

  lemma RequeuedObserved(t: Snapshot, queue: seq<Message>)
    ensures SameObserved(t, t.(pending := queue))
  {
  }

  lemma BroughtGrows(s: Snapshot, k: nat, n: NodeId, d: DocumentId, key: Key, e: Entry)
    requires k < |s.pending| && Brought(s, k, n, d, key, e)
    ensures Brought(s, k + 1, n, d, key, e)
  {
    hide Stuck;
    var i: nat :| GetsThrough(s, k, i, n) && s.pending[i].document == d && Has(s.pending[i].entries, key, e);
    assert GetsThrough(s, k + 1, i, n);
  }

  lemma BroughtBlobStep(s: Snapshot, k: nat, n: NodeId, h: BlobHash)
    requires k < |s.pending|
    ensures BroughtBlob(s, k + 1, n, h)
       <==> BroughtBlob(s, k, n, h) || (!Stuck(s, k) && s.pending[k].to == n && h in s.pending[k].blobs)
  {
    hide Stuck;
    if BroughtBlob(s, k, n, h) {
      var i: nat :| GetsThrough(s, k, i, n) && h in s.pending[i].blobs;
      assert GetsThrough(s, k + 1, i, n);
    }
    if !Stuck(s, k) && s.pending[k].to == n && h in s.pending[k].blobs { assert GetsThrough(s, k + 1, k, n); }
    if BroughtBlob(s, k + 1, n, h) {
      var i: nat :| GetsThrough(s, k + 1, i, n) && h in s.pending[i].blobs;
      if i < k { assert GetsThrough(s, k, i, n); }
    }
  }

  /** A merge of unambiguous entries supersedes both sides. */
  lemma NewestSupersedesBoth(t: Snapshot, d: DocumentId, n: NodeId, m: Message)
    requires Unambiguous(t) && m in t.pending && m.document == d
    ensures Supersedes(Newest(EntriesOf(t, n, d), m.entries), EntriesOf(t, n, d))
    ensures Supersedes(Newest(EntriesOf(t, n, d), m.entries), m.entries)
  {
    hide EntriesOf, Newer;
    var have := EntriesOf(t, n, d);
    forall k | k in m.entries && k in have ensures Newer(m.entries[k], have[k]) || NotOlder(have[k], m.entries[k]) {
      assert Has(have, k, have[k]) && Has(m.entries, k, m.entries[k]);
      assert Carries(t, d, k, have[k]) && Carries(t, d, k, m.entries[k]);
      NewerIsTotal(have[k], m.entries[k]);
    }
  }

  lemma LandedHolders(s: Snapshot, t: Snapshot, k: nat, next: Snapshot)
    requires k < |s.pending| && HoldersAfter(s, t, k) && !Stuck(s, k) && t.partitions == s.partitions
    requires forall n, d :: LandsAt(t, next, s.pending[k], n, d)
    ensures HoldersAfter(s, next, k + 1)
  {
    hide CapabilityOf, EntriesOf, BlobsOf, Newest, Granted;
    forall n, d
      ensures CapabilityOf(next, n, d).Some? <==> CapabilityOf(s, n, d).Some? || Granted(s, k + 1, n, d, false)
      ensures HoldsWrite(next, n, d) <==> HoldsWrite(s, n, d) || Granted(s, k + 1, n, d, true)
    {
      assert LandsAt(t, next, s.pending[k], n, d);
      GrantedStep(s, k, n, d, false);
      GrantedStep(s, k, n, d, true);
    }
  }

  lemma LandedEntries(s: Snapshot, t: Snapshot, k: nat, next: Snapshot)
    requires k < |s.pending| && EntriesAfter(s, t, k) && !Stuck(s, k)
    requires Unambiguous(t) && s.pending[k] in t.pending
    requires forall n, d :: LandsAt(t, next, s.pending[k], n, d)
    ensures EntriesAfter(s, next, k + 1)
    ensures forall n, d :: Supersedes(EntriesOf(next, n, d), EntriesOf(t, n, d))
    ensures Supersedes(EntriesOf(next, s.pending[k].to, s.pending[k].document), s.pending[k].entries)
  {
    hide EntriesOf, CapabilityOf, BlobsOf, Stuck, Unambiguous, Supersedes, Newest;
    var m := s.pending[k];
    forall n, d
      ensures Supersedes(EntriesOf(next, n, d), EntriesOf(t, n, d))
      ensures Supersedes(EntriesOf(next, n, d), EntriesOf(s, n, d))
    {
      assert LandsAt(t, next, m, n, d);
      SupersedesItself(EntriesOf(t, n, d));
      if d == m.document { NewestSupersedesBoth(t, d, n, m); }
      SupersedesTransitive(EntriesOf(s, n, d), EntriesOf(t, n, d), EntriesOf(next, n, d));
    }
    assert LandsAt(t, next, m, m.to, m.document);
    NewestSupersedesBoth(t, m.document, m.to, m);
    forall n, d, key, e | Has(EntriesOf(next, n, d), key, e)
      ensures Has(EntriesOf(s, n, d), key, e) || Brought(s, k + 1, n, d, key, e)
    {
      assert LandsAt(t, next, m, n, d);
      NewestIsFrom(EntriesOf(t, n, d), m.entries, key, e);
      if Has(EntriesOf(t, n, d), key, e) {
        if Brought(s, k, n, d, key, e) { BroughtGrows(s, k, n, d, key, e); }
      } else {
        assert GetsThrough(s, k + 1, k, n);
      }
    }
  }

  lemma SupersedesItself(entries: Entries)
    ensures Supersedes(entries, entries)
  {
  }

  lemma NewestIsFrom(have: Entries, incoming: Entries, key: Key, e: Entry)
    ensures Has(Newest(have, incoming), key, e) ==> Has(have, key, e) || Has(incoming, key, e)
  {
  }

  lemma LandedBlobs(s: Snapshot, t: Snapshot, k: nat, next: Snapshot)
    requires k < |s.pending| && BlobsAfter(s, t, k) && !Stuck(s, k)
    requires forall n, d :: LandsAt(t, next, s.pending[k], n, d)
    ensures BlobsAfter(s, next, k + 1)
    ensures forall n :: BlobsOf(t, n).Keys <= BlobsOf(next, n).Keys
    ensures s.pending[k].blobs.Keys <= BlobsOf(next, s.pending[k].to).Keys
  {
    hide EntriesOf, CapabilityOf, BlobsOf, Stuck, Newest;
    var m := s.pending[k];
    forall n ensures BlobsOf(next, n).Keys == BlobsOf(t, n).Keys + (if n == m.to then m.blobs.Keys else {}) {
      assert LandsAt(t, next, m, n, m.document);
    }
    forall n, h ensures h in BlobsOf(next, n) <==> h in BlobsOf(s, n) || BroughtBlob(s, k + 1, n, h) {
      BroughtBlobStep(s, k, n, h);
      assert h in BlobsOf(next, n) <==> h in BlobsOf(next, n).Keys;
    }
  }

  lemma LandedArrives(s: Snapshot, t: Snapshot, k: nat, next: Snapshot)
    requires k < |s.pending| && ArrivedAfter(s, t, k) && !Stuck(s, k)
    requires !Separated(s, s.pending[k].from, s.pending[k].to)
    requires forall n, d :: LandsAt(t, next, s.pending[k], n, d)
    requires s.pending[k].grant.Some? || CapabilityOf(t, s.pending[k].to, s.pending[k].document).Some?
    requires forall n, d :: Supersedes(EntriesOf(next, n, d), EntriesOf(t, n, d))
    requires forall n :: BlobsOf(t, n).Keys <= BlobsOf(next, n).Keys
    requires Supersedes(EntriesOf(next, s.pending[k].to, s.pending[k].document), s.pending[k].entries)
    requires s.pending[k].blobs.Keys <= BlobsOf(next, s.pending[k].to).Keys
    ensures ArrivedAfter(s, next, k + 1)
  {
    hide EntriesOf, CapabilityOf, BlobsOf, Stuck, Newest, Supersedes, Separated;
    forall i | 0 <= i < k + 1 && !Stuck(s, i) ensures Arrived(next, s.pending[i]) {
      var m := s.pending[i];
      assert LandsAt(t, next, s.pending[k], m.to, m.document);
      if i < k {
        assert Arrived(t, m);
        SupersedesTransitive(m.entries, EntriesOf(t, m.to, m.document), EntriesOf(next, m.to, m.document));
      }
    }
  }

  lemma LandedPasses(s: Snapshot, t: Snapshot, k: nat, next: Snapshot)
    requires k < |s.pending| && Passed(s, t, k) && !Stuck(s, k) && Unambiguous(t)
    requires t.pending != [] && t.pending[0] == s.pending[k] && !HeadStuck(t) && HeadLands(t, next)
    ensures Passed(s, next, k + 1)
  {
    hide EntriesOf, CapabilityOf, BlobsOf, Newest, Supersedes, Unambiguous, HoldersAfter, EntriesAfter, BlobsAfter,
      ArrivedAfter, StuckOnes, LandsAt, Granted;
    StuckOnesGet(s, k, t, next);
    LandedHolders(s, t, k, next);
    LandedEntries(s, t, k, next);
    LandedBlobs(s, t, k, next);
    LandedArrives(s, t, k, next);
  }

  lemma QueueLength(s: Snapshot, t: Snapshot, k: nat)
    requires k <= |s.pending| && Passed(s, t, k)
    ensures |s.pending| - k <= |t.pending|
  {
  }

  lemma DeliveredOneDerives(w: World, t: Snapshot)
    requires t.pending != [] && Hashed(w, t.pending[0].blobs) && DeliveredOne(w, t).Ok? && Unambiguous(t)
    ensures Unambiguous(DeliveredOne(w, t).value)
  {
    hide Carries, DeliveredOne, Grows, BlobsGrow, HoldsWrite, WriteOffered, Hashed;
    DeliveredOneAdvances(w, t);
  }

  lemma PassedStep(w: World, s: Snapshot, t: Snapshot, k: nat)
    requires k < |s.pending| && AllHashed(w, s.pending) && Unambiguous(t) && Passed(s, t, k)
    requires t.pending != [] && DeliveredOne(w, t).Ok?
    ensures var next := DeliveredOne(w, t).value;
            Unambiguous(next) && Passed(s, next, k + 1) && |s.pending| - (k + 1) <= |next.pending|
  {
    hide Passed, Unambiguous, Hashed, Stuck, HeadStuck, HeadLands, DeliveredOne;
    HeadStuckIff(s, t, k);
    assert s.pending[k] in s.pending;
    HeadGoes(w, t);
    DeliveredOneDerives(w, t);
    var next := DeliveredOne(w, t).value;
    if Stuck(s, k) { StuckPasses(s, t, k, next); } else { LandedPasses(s, t, k, next); }
    QueueLength(s, next, k + 1);
  }

  lemma {:induction false} PassIsExact(w: World, s: Snapshot, t: Snapshot, k: nat)
    requires k <= |s.pending| && AllHashed(w, s.pending) && Unambiguous(t) && Passed(s, t, k)
    requires |s.pending| - k <= |t.pending| && Delivered(w, t, |s.pending| - k).Ok?
    ensures Passed(s, Delivered(w, t, |s.pending| - k).value, |s.pending|)
    decreases |s.pending| - k
  {
    hide Passed, Unambiguous, AllHashed, DeliveredOne;
    if k < |s.pending| {
      PassedStep(w, s, t, k);
      PassIsExact(w, s, DeliveredOne(w, t).value, k + 1);
    }
  }

  lemma NothingPassed(s: Snapshot)
    ensures Passed(s, s, 0)
  {
    hide EntriesOf, CapabilityOf, BlobsOf;
    assert s.pending[0..] + StuckOnes(s, 0) == s.pending;
  }

  // ---------------------------------------------------------------- when a pass succeeds

  predicate Through(s: Snapshot, i: nat, n: NodeId)
    requires i < |s.pending|
  {
    !Stuck(s, i) && s.pending[i].to == n
  }

  /** The keys that `n`'s replica of `d` has after the first `k` messages. */
  function KeysAfter(s: Snapshot, k: nat, n: NodeId, d: DocumentId): set<Key>
    requires k <= |s.pending|
  {
    if k == 0 then EntriesOf(s, n, d).Keys
    else KeysAfter(s, k - 1, n, d)
         + (if Through(s, k - 1, n) && s.pending[k - 1].document == d then s.pending[k - 1].entries.Keys else {})
  }

  function HashesAfter(s: Snapshot, k: nat, n: NodeId): set<BlobHash>
    requires k <= |s.pending|
  {
    if k == 0 then BlobsOf(s, n).Keys
    else HashesAfter(s, k - 1, n) + (if Through(s, k - 1, n) then s.pending[k - 1].blobs.Keys else {})
  }

  function DocumentsOf(s: Snapshot, n: NodeId): set<DocumentId> {
    if n in s.nodes then s.nodes[n].documents.Keys else {}
  }

  function DocumentsAfter(s: Snapshot, k: nat, n: NodeId): set<DocumentId>
    requires k <= |s.pending|
  {
    if k == 0 then DocumentsOf(s, n)
    else DocumentsAfter(s, k - 1, n) + (if Through(s, k - 1, n) then {s.pending[k - 1].document} else {})
  }

  /** With what the first `k` messages bring, everything is still within the limits. */
  ghost predicate PassFits(w: World, s: Snapshot, k: nat)
    requires k <= |s.pending|
  {
    && (forall n, d :: |KeysAfter(s, k, n, d)| <= w.config.maxEntriesPerDocument)
    && (forall n :: |HashesAfter(s, k, n)| <= w.config.maxBlobsPerNode)
    && (forall n :: |DocumentsAfter(s, k, n)| <= w.config.maxDocumentsPerNode)
  }

  predicate Up(s: Snapshot, n: NodeId) {
    n in s.nodes && s.nodes[n].running
  }

  predicate CanStore(s: Snapshot, n: NodeId) {
    Up(s, n) && !s.nodes[n].storageFault
  }

  /** Unless a partition keeps it away, the destination of message `i` runs, and can store it if it gets through. */
  predicate Receivable(s: Snapshot, i: nat)
    requires i < |s.pending|
  {
    var m := s.pending[i];
    Separated(s, m.from, m.to) || (Up(s, m.to) && (Stuck(s, i) || CanStore(s, m.to)))
  }

  /** The sizes of everything in the middle of a pass. */
  ghost predicate Counted(s: Snapshot, t: Snapshot, k: nat)
    requires k <= |s.pending|
  {
    && (forall n, d :: EntriesOf(t, n, d).Keys == KeysAfter(s, k, n, d))
    && (forall n :: BlobsOf(t, n).Keys == HashesAfter(s, k, n))
    && (forall n :: DocumentsOf(t, n) == DocumentsAfter(s, k, n))
  }

  lemma HoldsDocument(s: Snapshot, n: NodeId, d: DocumentId)
    ensures d in DocumentsOf(s, n) <==> CapabilityOf(s, n, d).Some?
  {
  }

  /** What one more message adds. */
  lemma OneMore(s: Snapshot, k: nat, n: NodeId, d: DocumentId)
    requires k < |s.pending|
    ensures var m := s.pending[k];
            && (Through(s, k, n) && m.document == d ==>
                  KeysAfter(s, k + 1, n, d) == KeysAfter(s, k, n, d) + m.entries.Keys)
            && (!Through(s, k, n) || m.document != d ==> KeysAfter(s, k + 1, n, d) == KeysAfter(s, k, n, d))
            && (Through(s, k, n) ==>
                  && HashesAfter(s, k + 1, n) == HashesAfter(s, k, n) + m.blobs.Keys
                  && DocumentsAfter(s, k + 1, n) == DocumentsAfter(s, k, n) + {m.document})
            && (!Through(s, k, n) ==>
                  && HashesAfter(s, k + 1, n) == HashesAfter(s, k, n)
                  && DocumentsAfter(s, k + 1, n) == DocumentsAfter(s, k, n))
  {
    hide Through;
  }

  lemma StuckCounts(s: Snapshot, t: Snapshot, k: nat, next: Snapshot)
    requires k < |s.pending| && Counted(s, t, k) && Stuck(s, k) && next.nodes == t.nodes
    ensures Counted(s, next, k + 1)
  {
    hide Stuck, KeysAfter, HashesAfter, DocumentsAfter;
    forall n, d ensures EntriesOf(next, n, d).Keys == KeysAfter(s, k + 1, n, d) {
      OneMore(s, k, n, d);
      assert EntriesOf(next, n, d) == EntriesOf(t, n, d);
    }
    forall n
      ensures BlobsOf(next, n).Keys == HashesAfter(s, k + 1, n) && DocumentsOf(next, n) == DocumentsAfter(s, k + 1, n)
    {
      OneMore(s, k, n, []);
      assert BlobsOf(next, n) == BlobsOf(t, n);
    }
  }

  lemma LandedCounts(s: Snapshot, t: Snapshot, k: nat, next: Snapshot)
    requires k < |s.pending| && Counted(s, t, k) && !Stuck(s, k)
    requires s.pending[k].grant.Some? || CapabilityOf(t, s.pending[k].to, s.pending[k].document).Some?
    requires forall n, d :: LandsAt(t, next, s.pending[k], n, d)
    ensures Counted(s, next, k + 1)
  {
    hide Stuck, EntriesOf, BlobsOf, DocumentsOf, CapabilityOf, KeysAfter, HashesAfter, DocumentsAfter, Pick;
    var m := s.pending[k];
    forall n, d ensures EntriesOf(next, n, d).Keys == KeysAfter(s, k + 1, n, d) {
      OneMore(s, k, n, d);
      assert LandsAt(t, next, m, n, d);
    }
    forall n ensures BlobsOf(next, n).Keys == HashesAfter(s, k + 1, n) {
      OneMore(s, k, n, m.document);
      assert LandsAt(t, next, m, n, m.document);
    }
    forall n ensures DocumentsOf(next, n) == DocumentsAfter(s, k + 1, n) {
      OneMore(s, k, n, m.document);
      forall d ensures d in DocumentsOf(next, n) <==> d in DocumentsAfter(s, k + 1, n) {
        HoldsDocument(t, n, d);
        HoldsDocument(next, n, d);
        assert LandsAt(t, next, m, n, d);
      }
    }
  }

  /** What `m` brings fits beside what its destination has. */
  predicate Room(w: World, m: Message, keys: set<Key>, hashes: set<BlobHash>, documents: set<DocumentId>) {
    && |keys + m.entries.Keys| <= w.config.maxEntriesPerDocument
    && |hashes + m.blobs.Keys| <= w.config.maxBlobsPerNode
    && |documents + {m.document}| <= w.config.maxDocumentsPerNode
  }

  predicate RoomAfter(w: World, s: Snapshot, k: nat)
    requires k < |s.pending|
  {
    var m := s.pending[k];
    Room(w, m, KeysAfter(s, k, m.to, m.document), HashesAfter(s, k, m.to), DocumentsAfter(s, k, m.to))
  }

  lemma OneMoreFits(w: World, s: Snapshot, k: nat, n: NodeId, d: DocumentId)
    requires k < |s.pending| && PassFits(w, s, k) && (Stuck(s, k) || RoomAfter(w, s, k))
    ensures |KeysAfter(s, k + 1, n, d)| <= w.config.maxEntriesPerDocument
    ensures |HashesAfter(s, k + 1, n)| <= w.config.maxBlobsPerNode
    ensures |DocumentsAfter(s, k + 1, n)| <= w.config.maxDocumentsPerNode
  {
    hide Stuck, KeysAfter, HashesAfter, DocumentsAfter;
    OneMore(s, k, n, d);
    assert |KeysAfter(s, k, n, d)| <= w.config.maxEntriesPerDocument;
    assert |HashesAfter(s, k, n)| <= w.config.maxBlobsPerNode;
    assert |DocumentsAfter(s, k, n)| <= w.config.maxDocumentsPerNode;
    hide PassFits;
  }

  lemma RoomFits(w: World, s: Snapshot, k: nat)
    requires k < |s.pending| && PassFits(w, s, k) && (Stuck(s, k) || RoomAfter(w, s, k))
    ensures PassFits(w, s, k + 1)
  {
    hide Stuck, KeysAfter, HashesAfter, DocumentsAfter, RoomAfter;
    var more := k + 1;
    forall n, d ensures |KeysAfter(s, more, n, d)| <= w.config.maxEntriesPerDocument { OneMoreFits(w, s, k, n, d); }
    forall n
      ensures |HashesAfter(s, more, n)| <= w.config.maxBlobsPerNode
      ensures |DocumentsAfter(s, more, n)| <= w.config.maxDocumentsPerNode
    {
      OneMoreFits(w, s, k, n, []);
    }
  }

  lemma FitsRoom(w: World, s: Snapshot, k: nat)
    requires k < |s.pending| && PassFits(w, s, k + 1) && !Stuck(s, k)
    ensures RoomAfter(w, s, k)
  {
    hide Stuck, KeysAfter, HashesAfter, DocumentsAfter;
    var m := s.pending[k];
    OneMore(s, k, m.to, m.document);
    assert |KeysAfter(s, k + 1, m.to, m.document)| <= w.config.maxEntriesPerDocument;
    assert |HashesAfter(s, k + 1, m.to)| <= w.config.maxBlobsPerNode;
    assert |DocumentsAfter(s, k + 1, m.to)| <= w.config.maxDocumentsPerNode;
  }

  /** One more message fits exactly if it is stuck or there is room for what it brings. */
  lemma FitsOneMore(w: World, s: Snapshot, k: nat)
    requires k < |s.pending| && PassFits(w, s, k)
    ensures PassFits(w, s, k + 1) <==> Stuck(s, k) || RoomAfter(w, s, k)
  {
    hide Stuck, PassFits, RoomAfter;
    if Stuck(s, k) || RoomAfter(w, s, k) { RoomFits(w, s, k); }
    if !Stuck(s, k) && PassFits(w, s, k + 1) { FitsRoom(w, s, k); }
  }

  lemma {:induction false} FitsBefore(w: World, s: Snapshot, k: nat, k': nat)
    requires k <= k' <= |s.pending| && PassFits(w, s, k')
    ensures PassFits(w, s, k)
    decreases k'
  {
    hide KeysAfter, HashesAfter, DocumentsAfter;
    if k < k' {
      FitsOneLess(w, s, k' - 1);
      FitsBefore(w, s, k, k' - 1);
    }
  }

  lemma FitsOneLess(w: World, s: Snapshot, k: nat)
    requires k < |s.pending| && PassFits(w, s, k + 1)
    ensures PassFits(w, s, k)
  {
    hide KeysAfter, HashesAfter, DocumentsAfter, Through;
    forall n, d ensures |KeysAfter(s, k, n, d)| <= w.config.maxEntriesPerDocument {
      OneMore(s, k, n, d);
      SubsetSize(KeysAfter(s, k, n, d), KeysAfter(s, k + 1, n, d));
    }
    forall n
      ensures |HashesAfter(s, k, n)| <= w.config.maxBlobsPerNode
      ensures |DocumentsAfter(s, k, n)| <= w.config.maxDocumentsPerNode
    {
      OneMore(s, k, n, []);
      SubsetSize(HashesAfter(s, k, n), HashesAfter(s, k + 1, n));
      SubsetSize(DocumentsAfter(s, k, n), DocumentsAfter(s, k + 1, n));
    }
  }

  lemma DocumentFits(docs: set<DocumentId>, d: DocumentId, limit: nat)
    requires |docs| <= limit
    ensures |docs + {d}| <= limit <==> d in docs || |docs| < limit
  {
    if d in docs { assert docs + {d} == docs; }
  }

  /** A head that is not stuck is accepted exactly if its destination can store it and everything fits. */
  lemma HeadAccepted(w: World, t: Snapshot)
    requires t.pending != [] && !HeadStuck(t) && Hashed(w, t.pending[0].blobs)
    requires var m := t.pending[0];
             && |EntriesOf(t, m.to, m.document).Keys| <= w.config.maxEntriesPerDocument
             && |BlobsOf(t, m.to).Keys| <= w.config.maxBlobsPerNode
             && |DocumentsOf(t, m.to)| <= w.config.maxDocumentsPerNode
    ensures var m := t.pending[0];
            DeliveredOne(w, t).Ok? <==>
            CanStore(t, m.to)
            && Room(w, m, EntriesOf(t, m.to, m.document).Keys, BlobsOf(t, m.to).Keys, DocumentsOf(t, m.to))
  {
    hide Hashed, Received, Landed, Fits;
    var m := t.pending[0];
    var popped := t.(pending := t.pending[1..]);
    var entries, blobs := EntriesOf(t, m.to, m.document), BlobsOf(t, m.to);
    ReceivedClosed(w, popped, m);
    FitsIsSize(w.config.maxEntriesPerDocument, entries, m.entries.Keys);
    FitsIsSize(w.config.maxBlobsPerNode, blobs, m.blobs.Keys);
    DocumentFits(DocumentsOf(t, m.to), m.document, w.config.maxDocumentsPerNode);
    assert m.to in t.nodes && (m.document in t.nodes[m.to].documents || m.grant.Some?)
      ==> Landing(t.nodes[m.to], m).entries == entries;
    assert Received(w, popped, m).Ok? <==> Acceptable(w, popped, m);
  }

  lemma HeadPutBack(w: World, t: Snapshot)
    requires t.pending != [] && HeadStuck(t)
    ensures var m := t.pending[0]; DeliveredOne(w, t).Ok? <==> Separated(t, m.from, m.to) || Up(t, m.to)
  {
    hide Received;
  }

  lemma StatusStays(s: Snapshot, t: Snapshot, n: NodeId)
    requires SameStatus(s, t)
    ensures Up(t, n) == Up(s, n) && CanStore(t, n) == CanStore(s, n)
    ensures forall a, b :: Separated(t, a, b) == Separated(s, a, b)
  {
  }

  lemma ReceivableIff(s: Snapshot, i: nat)
    requires i < |s.pending|
    ensures var m := s.pending[i];
            && (Stuck(s, i) ==> (Receivable(s, i) <==> Separated(s, m.from, m.to) || Up(s, m.to)))
            && (!Stuck(s, i) ==> (Receivable(s, i) <==> CanStore(s, m.to)))
  {
  }

  lemma HeadSucceeds(w: World, s: Snapshot, t: Snapshot, k: nat)
    requires k < |s.pending| && AllHashed(w, s.pending) && Passed(s, t, k) && Counted(s, t, k) && PassFits(w, s, k)
    ensures t.pending != []
    ensures DeliveredOne(w, t).Ok? <==> Receivable(s, k) && PassFits(w, s, k + 1)
  {
    hide Hashed, DeliveredOne, HeadStuck, Stuck, HoldersAfter, EntriesAfter, BlobsAfter, ArrivedAfter, EntriesOf,
      BlobsOf,
      DocumentsOf, KeysAfter, HashesAfter, DocumentsAfter;
    var m := s.pending[k];
    HeadStuckIff(s, t, k);
    FitsOneMore(w, s, k);
    StatusStays(s, t, m.to);
    assert m in s.pending;
    assert EntriesOf(t, m.to, m.document).Keys == KeysAfter(s, k, m.to, m.document);
    assert BlobsOf(t, m.to).Keys == HashesAfter(s, k, m.to) && DocumentsOf(t, m.to) == DocumentsAfter(s, k, m.to);
    ReceivableIff(s, k);
    hide Passed, Counted, PassFits, Room, Separated, Receivable;
    if HeadStuck(t) { HeadPutBack(w, t); } else { HeadAccepted(w, t); }
  }

  lemma CountedStep(w: World, s: Snapshot, t: Snapshot, k: nat)
    requires k < |s.pending| && AllHashed(w, s.pending) && Passed(s, t, k) && Counted(s, t, k)
    requires t.pending != [] && DeliveredOne(w, t).Ok?
    ensures Counted(s, DeliveredOne(w, t).value, k + 1)
  {
    hide Hashed, DeliveredOne, Stuck, HoldersAfter, EntriesAfter, BlobsAfter, ArrivedAfter, Counted, LandsAt;
    HeadStuckIff(s, t, k);
    HeadGoes(w, t);
    var next := DeliveredOne(w, t).value;
    if Stuck(s, k) { StuckCounts(s, t, k, next); } else { LandedCounts(s, t, k, next); }
  }

  ghost predicate AllReceivable(s: Snapshot, k: nat)
    requires k <= |s.pending|
  {
    forall i | k <= i < |s.pending| :: Receivable(s, i)
  }

  lemma ReceivableStep(s: Snapshot, k: nat)
    requires k < |s.pending|
    ensures AllReceivable(s, k) <==> Receivable(s, k) && AllReceivable(s, k + 1)
  {
    hide Receivable;
  }

  lemma {:induction false} PassSucceeds(w: World, s: Snapshot, t: Snapshot, k: nat)
    requires k <= |s.pending| && AllHashed(w, s.pending) && Unambiguous(t) && Passed(s, t, k) && Counted(s, t, k)
    requires PassFits(w, s, k) && |s.pending| - k <= |t.pending|
    ensures Delivered(w, t, |s.pending| - k).Ok? <==> AllReceivable(s, k) && PassFits(w, s, |s.pending|)
    decreases |s.pending| - k
  {
    hide Passed, Counted, PassFits, Unambiguous, AllHashed, Receivable, DeliveredOne;
    if k < |s.pending| {
      HeadSucceeds(w, s, t, k);
      ReceivableStep(s, k);
      if DeliveredOne(w, t).Ok? {
        CountedStep(w, s, t, k);
        PassedStep(w, s, t, k);
        PassSucceeds(w, s, DeliveredOne(w, t).value, k + 1);
      } else if PassFits(w, s, |s.pending|) {
        FitsBefore(w, s, k + 1, |s.pending|);
      }
    }
  }

  lemma NothingCounted(s: Snapshot)
    ensures Counted(s, s, 0)
  {
    hide EntriesOf, BlobsOf, DocumentsOf;
  }

  lemma NothingOverflows(w: World, m: Model)
    requires Inv(w, m)
    ensures PassFits(w, m.snapshot, 0)
  {
    var s := m.snapshot;
    InvIsWithinLimits(w, m);
    InvIsWellFormed(w, m);
    hide Inv, WithinLimits, ApplicationBounds.BlobsOk;
    forall n ensures |DocumentsAfter(s, 0, n)| <= w.config.maxDocumentsPerNode {
      if n in s.nodes { assert ApplicationBounds.NodeOk(w, n, s.nodes[n]); }
    }
    WithinFits(w, s);
  }

  lemma WithinFits(w: World, s: Snapshot)
    requires WithinLimits(w, s)
    ensures forall n, d :: |KeysAfter(s, 0, n, d)| <= w.config.maxEntriesPerDocument
    ensures forall n :: |HashesAfter(s, 0, n)| <= w.config.maxBlobsPerNode
  {
    hide EntriesOf, BlobsOf;
    forall n, d ensures |KeysAfter(s, 0, n, d)| <= w.config.maxEntriesPerDocument {
      assert |EntriesOf(s, n, d).Keys| == |EntriesOf(s, n, d)|;
    }
    forall n ensures |HashesAfter(s, 0, n)| <= w.config.maxBlobsPerNode {
      assert |BlobsOf(s, n).Keys| == |BlobsOf(s, n)|;
    }
  }

  /**
   Exactly when DeliverAll succeeds, in every reachable state: the destinations that messages can reach run, those
   that get something can store it, and everything that gets through fits.
   */
  lemma DeliverySucceedsIff(w: World, attempts: seq<Operation>)
    requires w.config.Valid()
    ensures var s := After(w, attempts).snapshot;
            Applied(w, s, DeliverAll).Ok? <==> AllReceivable(s, 0) && PassFits(w, s, |s.pending|)
  {
    hide Inv, After, Passed, Counted, PassFits, AllReceivable, Unambiguous, AllHashed, Delivered, RevisionsBelow;
    var m := After(w, attempts);
    RunsKeepInv(w, attempts);
    InvSupportsStep(w, m);
    InvIsUnambiguous(w, m);
    NothingPassed(m.snapshot);
    NothingCounted(m.snapshot);
    NothingOverflows(w, m);
    PassSucceeds(w, m.snapshot, m.snapshot, 0);
  }

  /** Every successful DeliverAll of every run, message by message. */
  lemma DeliveryIsExact(w: World, attempts: seq<Operation>)
    requires w.config.Valid() && Apply(w, After(w, attempts), DeliverAll).Ok?
    ensures var s, final := After(w, attempts).snapshot, After(w, attempts + [DeliverAll]).snapshot;
            && Passed(s, final, |s.pending|)
            && final.pending == StuckOnes(s, |s.pending|)
  {
    hide Inv, After, Passed, Unambiguous, AllHashed, Delivered, RevisionsBelow;
    var m := After(w, attempts);
    RunsKeepInv(w, attempts);
    InvSupportsStep(w, m);
    InvIsUnambiguous(w, m);
    NothingPassed(m.snapshot);
    PassIsExact(w, m.snapshot, m.snapshot, 0);
    AfterStep(w, attempts, DeliverAll);
    QueueIsStuck(m.snapshot, Delivered(w, m.snapshot, |m.snapshot.pending|).value);
  }

  lemma QueueIsStuck(s: Snapshot, t: Snapshot)
    requires Passed(s, t, |s.pending|)
    ensures t.pending == StuckOnes(s, |s.pending|)
  {
  }
}
