/**
 What one operation can do to the replicated data: where entries come from, what is never lost,
 and how authority to write is gained.
 */
module ApplicationHistory {
  import opened Base
  import opened Order
  import opened Application
  import opened ApplicationMerge

  // ---------------------------------------------------------------- observers

  function EntriesOf(s: Snapshot, n: NodeId, d: DocumentId): Entries {
    if n in s.nodes && d in s.nodes[n].documents then s.nodes[n].documents[d].entries else map[]
  }

  function CapabilityOf(s: Snapshot, n: NodeId, d: DocumentId): Option<Capability> {
    if n in s.nodes && d in s.nodes[n].documents then Some(s.nodes[n].documents[d].capability) else None
  }

  function BlobsOf(s: Snapshot, n: NodeId): Blobs {
    if n in s.nodes then s.nodes[n].blobs else map[]
  }

  /** The blobs at `n` that its replica of `d` refers to. */
  function ReferredBlobs(s: Snapshot, n: NodeId, d: DocumentId): set<BlobHash> {
    set h | h in BlobsOf(s, n) && References(EntriesOf(s, n, d), h)
  }

  predicate HoldsWrite(s: Snapshot, n: NodeId, d: DocumentId) {
    CapabilityOf(s, n, d) == Some(Write)
  }

  predicate Has(entries: Entries, k: Key, e: Entry) {
    k in entries && entries[k] == e
  }

  /** Entry `e` sits under `k` in some replica of `d`, or travels there in some message. */
  ghost predicate Carries(s: Snapshot, d: DocumentId, k: Key, e: Entry) {
    || (exists n :: Has(EntriesOf(s, n, d), k, e))
    || (exists m :: m in s.pending && m.document == d && Has(m.entries, k, e))
  }

  /** Some replica of document `d` held by node `n` refers to blob `h`. */
  ghost predicate Refers(s: Snapshot, n: NodeId, h: BlobHash) {
    exists d :: References(EntriesOf(s, n, d), h)
  }

  // ---------------------------------------------------------------- relations between two states

  /** Nothing is carried afterwards that was not carried before. */
  ghost predicate Derives(s: Snapshot, next: Snapshot) {
    forall d, k, e :: Carries(next, d, k, e) ==> Carries(s, d, k, e)
  }

  predicate NotOlder(a: Entry, b: Entry) {
    a == b || Newer(a, b)
  }

  predicate Supersedes(later: Entries, earlier: Entries) {
    forall k | k in earlier :: k in later && NotOlder(later[k], earlier[k])
  }

  predicate AtLeast(later: Option<Capability>, earlier: Option<Capability>) {
    earlier.Some? ==> later.Some? && later.value.Permits(earlier.value)
  }

  /** No node, document or entry is lost, no entry gets older, no capability is lowered. */
  ghost predicate Grows(s: Snapshot, next: Snapshot) {
    && s.nodes.Keys <= next.nodes.Keys
    && (forall n, d :: AtLeast(CapabilityOf(next, n, d), CapabilityOf(s, n, d)))
    && (forall n, d :: Supersedes(EntriesOf(next, n, d), EntriesOf(s, n, d)))
  }

  ghost predicate BlobsGrow(s: Snapshot, next: Snapshot) {
    forall n :: BlobsOf(s, n).Keys <= BlobsOf(next, n).Keys
  }

  /** The replicas are untouched. */
  ghost predicate SameReplicas(s: Snapshot, next: Snapshot) {
    && s.nodes.Keys <= next.nodes.Keys
    && (forall n, d :: CapabilityOf(next, n, d) == CapabilityOf(s, n, d))
    && (forall n, d :: EntriesOf(next, n, d) == EntriesOf(s, n, d))
  }

  lemma NotOlderTransitive(a: Entry, b: Entry, c: Entry)
    requires NotOlder(a, b) && NotOlder(b, c)
    ensures NotOlder(a, c)
  {
    if a.revision == b.revision == c.revision && a != b && b != c {
      Transitive(c.author, b.author, a.author);
    }
  }

  lemma SupersedesTransitive(a: Entries, b: Entries, c: Entries)
    requires Supersedes(b, a) && Supersedes(c, b)
    ensures Supersedes(c, a)
  {
    forall k | k in a ensures k in c && NotOlder(c[k], a[k]) {
      NotOlderTransitive(c[k], b[k], a[k]);
    }
  }

  lemma GrowsTransitive(a: Snapshot, b: Snapshot, c: Snapshot)
    requires Grows(a, b) && Grows(b, c)
    ensures Grows(a, c)
  {
    hide EntriesOf, CapabilityOf;
    forall n, d ensures Supersedes(EntriesOf(c, n, d), EntriesOf(a, n, d)) {
      SupersedesTransitive(EntriesOf(a, n, d), EntriesOf(b, n, d), EntriesOf(c, n, d));
    }
    forall n, d ensures AtLeast(CapabilityOf(c, n, d), CapabilityOf(a, n, d)) {
      assert AtLeast(CapabilityOf(b, n, d), CapabilityOf(a, n, d));
      assert AtLeast(CapabilityOf(c, n, d), CapabilityOf(b, n, d));
    }
  }

  lemma SameReplicasGrow(s: Snapshot, next: Snapshot)
    requires SameReplicas(s, next)
    ensures Grows(s, next)
  {
    hide EntriesOf, CapabilityOf;
  }

  lemma SameReplicasDerive(s: Snapshot, next: Snapshot)
    requires SameReplicas(s, next)
    requires forall m | m in next.pending :: m in s.pending || exists n :: m.entries == EntriesOf(s, n, m.document)
    ensures Derives(s, next)
  {
    hide EntriesOf, CapabilityOf;
    forall d, k, e | Carries(next, d, k, e) ensures Carries(s, d, k, e) {
      if m :| m in next.pending && m.document == d && Has(m.entries, k, e) {
        if m !in s.pending {
          var n :| m.entries == EntriesOf(s, n, d);
          assert Has(EntriesOf(s, n, d), k, e);
        }
      } else {
        var n :| Has(EntriesOf(next, n, d), k, e);
        assert Has(EntriesOf(s, n, d), k, e);
      }
    }
  }

  // ---------------------------------------------------------------- delivery

  /** A delivery step: only the head message of the queue is used up, and nothing is lost by it. */
  ghost predicate Advances(s: Snapshot, next: Snapshot) {
    && Derives(s, next)
    && Grows(s, next)
    && BlobsGrow(s, next)
    && next.partitions == s.partitions && next.faults == s.faults && next.revision == s.revision
    && (forall m | m in next.pending :: m in s.pending)
    && (forall n, d | HoldsWrite(next, n, d) :: HoldsWrite(s, n, d) || WriteOffered(s, n, d))
  }

  /** An undelivered Write grant for `d` can reach `n` now. */
  ghost predicate WriteOffered(s: Snapshot, n: NodeId, d: DocumentId) {
    exists m :: m in s.pending && Offers(s, m, n, d)
  }

  predicate Offers(s: Snapshot, m: Message, n: NodeId, d: DocumentId) {
    m.to == n && m.document == d && m.grant == Some(Write) && !Separated(s, m.from, m.to)
  }

  lemma AdvancesTransitive(a: Snapshot, b: Snapshot, c: Snapshot)
    requires Advances(a, b) && Advances(b, c)
    ensures Advances(a, c)
  {
    GrowsTransitive(a, b, c);
    hide EntriesOf, CapabilityOf, BlobsOf, Carries, Grows;
    forall n, d | HoldsWrite(c, n, d) ensures HoldsWrite(a, n, d) || WriteOffered(a, n, d) {
      if !HoldsWrite(b, n, d) || !HoldsWrite(a, n, d) {
        assert WriteOffered(b, n, d) ==> WriteOffered(a, n, d) by {
          if WriteOffered(b, n, d) {
            var m :| m in b.pending && Offers(b, m, n, d);
            assert m in a.pending && Offers(a, m, n, d);
          }
        }
      }
    }
    forall n ensures BlobsOf(a, n).Keys <= BlobsOf(c, n).Keys {
      assert BlobsOf(a, n).Keys <= BlobsOf(b, n).Keys;
      assert BlobsOf(b, n).Keys <= BlobsOf(c, n).Keys;
    }
  }

  /** How landing a message shows in the observers: one replica and one blob store change. */
  lemma LandedObserved(s: Snapshot, m: Message, n: NodeId, d: DocumentId)
    requires m.to in s.nodes && (m.document in s.nodes[m.to].documents || m.grant.Some?)
    ensures var next := SetNode(s, m.to, Landed(s.nodes[m.to], m));
            && EntriesOf(next, n, d) == (if n == m.to && d == m.document then Newest(EntriesOf(s, n, d), m.entries)
                                         else EntriesOf(s, n, d))
            && CapabilityOf(next, n, d) == (if n != m.to || d != m.document then CapabilityOf(s, n, d)
                                            else if m.grant == Some(Write) then Some(Write)
                                            else if CapabilityOf(s, n, d).Some? then CapabilityOf(s, n, d)
                                            else m.grant)
            && BlobsOf(next, n) == (if n == m.to then WithMissing(BlobsOf(s, n), m.blobs) else BlobsOf(s, n))
  {
    hide Newest, WithMissing;
  }

  lemma LandedAdvances(s: Snapshot, m: Message)
    requires s.pending != [] && s.pending[0] == m && !Separated(s, m.from, m.to)
    requires m.to in s.nodes && (m.document in s.nodes[m.to].documents || m.grant.Some?)
    ensures Advances(s, SetNode(s.(pending := s.pending[1..]), m.to, Landed(s.nodes[m.to], m)))
  {
    var popped := s.(pending := s.pending[1..]);
    var next := SetNode(popped, m.to, Landed(s.nodes[m.to], m));
    forall n, d
      ensures EntriesOf(popped, n, d) == EntriesOf(s, n, d) && CapabilityOf(popped, n, d) == CapabilityOf(s, n, d)
      ensures BlobsOf(popped, n) == BlobsOf(s, n)
    {
    }
    LandedDerives(s, m);
    LandedGrows(s, m);
    hide EntriesOf, CapabilityOf, BlobsOf, Derives, Grows, Landed;
    assert m in s.pending;
    forall n, d | HoldsWrite(next, n, d) ensures HoldsWrite(s, n, d) || WriteOffered(s, n, d) {
      LandedObserved(popped, m, n, d);
      if !HoldsWrite(s, n, d) { assert Offers(s, m, n, d); }
    }
    forall n ensures BlobsOf(s, n).Keys <= BlobsOf(next, n).Keys {
      LandedObserved(popped, m, n, m.document);
    }
  }

  lemma LandedDerives(s: Snapshot, m: Message)
    requires s.pending != [] && s.pending[0] == m
    requires m.to in s.nodes && (m.document in s.nodes[m.to].documents || m.grant.Some?)
    ensures Derives(s, SetNode(s.(pending := s.pending[1..]), m.to, Landed(s.nodes[m.to], m)))
  {
    var popped := s.(pending := s.pending[1..]);
    var next := SetNode(popped, m.to, Landed(s.nodes[m.to], m));
    forall n, d ensures EntriesOf(popped, n, d) == EntriesOf(s, n, d) {}
    hide EntriesOf, Landed;
    assert m in s.pending;
    forall d, k, e | Carries(next, d, k, e) ensures Carries(s, d, k, e) {
      if n :| Has(EntriesOf(next, n, d), k, e) {
        LandedObserved(popped, m, n, d);
        assert Has(EntriesOf(s, n, d), k, e) || (m.document == d && Has(m.entries, k, e));
      } else {
        var m' :| m' in next.pending && m'.document == d && Has(m'.entries, k, e);
        assert m' in s.pending;
      }
    }
  }

  lemma LandedGrows(s: Snapshot, m: Message)
    requires s.pending != [] && s.pending[0] == m
    requires m.to in s.nodes && (m.document in s.nodes[m.to].documents || m.grant.Some?)
    ensures Grows(s, SetNode(s.(pending := s.pending[1..]), m.to, Landed(s.nodes[m.to], m)))
  {
    var popped := s.(pending := s.pending[1..]);
    var next := SetNode(popped, m.to, Landed(s.nodes[m.to], m));
    forall n, d
      ensures EntriesOf(popped, n, d) == EntriesOf(s, n, d) && CapabilityOf(popped, n, d) == CapabilityOf(s, n, d)
    {
    }
    hide EntriesOf, CapabilityOf, Landed;
    forall n, d ensures Supersedes(EntriesOf(next, n, d), EntriesOf(s, n, d)) {
      LandedObserved(popped, m, n, d);
      NewestSupersedes(EntriesOf(s, n, d), m.entries);
    }
    forall n, d ensures AtLeast(CapabilityOf(next, n, d), CapabilityOf(s, n, d)) {
      LandedObserved(popped, m, n, d);
    }
  }

  lemma NewestSupersedes(have: Entries, incoming: Entries)
    ensures Supersedes(Newest(have, incoming), have)
  {
  }

  lemma RequeuedAdvances(s: Snapshot)
    requires s.pending != []
    ensures Advances(s, s.(pending := s.pending[1..] + [s.pending[0]]))
  {
    var next := s.(pending := s.pending[1..] + [s.pending[0]]);
    SameReplicasDerive(s, next);
    SameReplicasGrow(s, next);
    hide Derives, Grows;
  }

  lemma DeliveredOneAdvances(w: World, s: Snapshot)
    requires s.pending != [] && Hashed(w, s.pending[0].blobs) && DeliveredOne(w, s).Ok?
    ensures Advances(s, DeliveredOne(w, s).value)
  {
    hide Advances, Hashed, Received, Landed;
    var m := s.pending[0];
    ReceivedClosed(w, s.(pending := s.pending[1..]), m);
    RequeuedAdvances(s);
    if DeliveredOne(w, s) != Ok(s.(pending := s.pending[1..] + [m])) { LandedAdvances(s, m); }
  }

  ghost predicate AllHashed(w: World, pending: seq<Message>) {
    forall m | m in pending :: Hashed(w, m.blobs)
  }

  lemma {:induction false} DeliveredAdvances(w: World, s: Snapshot, attempts: nat)
    requires attempts <= |s.pending| && AllHashed(w, s.pending) && Delivered(w, s, attempts).Ok?
    ensures Advances(s, Delivered(w, s, attempts).value)
    decreases attempts
  {
    hide Hashed, EntriesOf, CapabilityOf, BlobsOf;
    if attempts == 0 {
    } else {
      var next := DeliveredOne(w, s).value;
      DeliveredOneAdvances(w, s);
      DeliveredAdvances(w, next, attempts - 1);
      AdvancesTransitive(s, next, Delivered(w, s, attempts).value);
    }
  }

  // ---------------------------------------------------------------- one operation

  /** The message holds its sender's replica, with every blob it refers to that the sender has. */
  predicate Copies(s: Snapshot, m: Message) {
    && m.entries == EntriesOf(s, m.from, m.document)
    && m.blobs.Keys == ReferredBlobs(s, m.from, m.document)
    && forall h | h in m.blobs :: h in BlobsOf(s, m.from) && m.blobs[h] == BlobsOf(s, m.from)[h]
  }

  /** A message just sent: a copy of its sender's replica, granting no more than the sender holds. */
  predicate FreshMessage(s: Snapshot, op: Operation, m: Message) {
    && Copies(s, m)
    && CapabilityOf(s, m.from, m.document).Some?
    && (m.grant.Some? ==>
          && op == Share(m.from, m.to, m.document, m.grant.value)
          && CapabilityOf(s, m.from, m.document).value.Permits(m.grant.value))
  }

  ghost predicate QueueFrom(s: Snapshot, next: Snapshot, op: Operation) {
    forall m | m in next.pending :: m in s.pending || FreshMessage(s, op, m)
  }

  predicate TouchesReplicas(op: Operation) {
    op.CreateDocument? || op.WriteEntry? || op.DeliverAll?
  }

  lemma MessageIsFresh(s: Snapshot, op: Operation, from: NodeId, to: NodeId, d: DocumentId, grant: Option<Capability>)
    requires from in s.nodes && MessageFrom(s.nodes[from], from, to, d, grant).Ok?
    requires grant.Some? ==> op == Share(from, to, d, grant.value)
                             && CapabilityOf(s, from, d).Some? && CapabilityOf(s, from, d).value.Permits(grant.value)
    ensures FreshMessage(s, op, MessageFrom(s.nodes[from], from, to, d, grant).value)
  {
  }

  lemma EnqueuedIsFresh(w: World, base: Snapshot, s: Snapshot, op: Operation, m: Message)
    requires QueueFrom(base, s, op) && FreshMessage(base, op, m) && Enqueued(w, s, m).Ok?
    ensures var next := Enqueued(w, s, m).value;
            next.nodes == s.nodes && next.revision == s.revision && QueueFrom(base, next, op)
  {
    hide FreshMessage;
  }

  lemma SentIsFresh(w: World, base: Snapshot, s: Snapshot, op: Operation, from: NodeId, to: NodeId, d: DocumentId,
                    grant: Option<Capability>)
    requires from in base.nodes && s.nodes == base.nodes && QueueFrom(base, s, op)
    requires Sent(w, s, MessageFrom(base.nodes[from], from, to, d, grant)).Ok?
    requires grant.Some? ==> op == Share(from, to, d, grant.value)
                             && CapabilityOf(base, from, d).Some?
                             && CapabilityOf(base, from, d).value.Permits(grant.value)
    ensures var next := Sent(w, s, MessageFrom(base.nodes[from], from, to, d, grant)).value;
            next.nodes == s.nodes && next.revision == s.revision && QueueFrom(base, next, op)
  {
    hide FreshMessage, CapabilityOf, EntriesOf, QueueFrom, MessageFrom, Enqueued;
    MessageIsFresh(base, op, from, to, d, grant);
    EnqueuedIsFresh(w, base, s, op, MessageFrom(base.nodes[from], from, to, d, grant).value);
  }

  lemma SynchronizedIsFresh(w: World, s: Snapshot, op: Operation, left: NodeId, right: NodeId, d: DocumentId)
    requires Synchronized(w, s, left, right, d).Ok?
    ensures var next := Synchronized(w, s, left, right, d).value;
            next.nodes == s.nodes && next.revision == s.revision && QueueFrom(s, next, op)
  {
    hide QueueFrom, MessageFrom, Enqueued;
    QueueFromSelf(s, s, op);
    var first := s;
    if d in s.nodes[left].documents {
      SentIsFresh(w, s, s, op, left, right, d, None);
      first := Sent(w, s, MessageFrom(s.nodes[left], left, right, d, None)).value;
    }
    if d in s.nodes[right].documents { SentIsFresh(w, s, first, op, right, left, d, None); }
  }

  lemma QueueFromSelf(s: Snapshot, next: Snapshot, op: Operation)
    requires next.pending == s.pending
    ensures QueueFrom(s, next, op)
  {
  }

  lemma SetNodeUntouched(s: Snapshot, n: NodeId, node: NodeState)
    requires if n in s.nodes then node.documents == s.nodes[n].documents else node.documents == map[]
    ensures SameReplicas(s, SetNode(s, n, node))
  {
  }

  /** Operations other than creating, writing and delivering leave every replica as it is. */
  lemma UntouchedReplicas(w: World, s: Snapshot, op: Operation)
    requires Applied(w, s, op).Ok? && !TouchesReplicas(op)
    ensures var next := Applied(w, s, op).value;
            SameReplicas(s, next) && QueueFrom(s, next, op) && next.revision == s.revision
  {
    hide SameReplicas, QueueFrom, Sent, MessageFrom, CapabilityOf, Synchronized, WithBlob;
    var next := Applied(w, s, op).value;
    if op.Share? {
      SharedUntouched(w, s, op);
    } else if op.Synchronize? {
      SynchronizedIsFresh(w, s, op, op.left, op.right, op.document);
      SameNodesUntouched(s, next);
    } else if op.FetchBlob? {
      WithBlobUntouched(w, s, op, op.to, op.blob, s.nodes[op.from].blobs[op.blob]);
    } else if op.AddBlob? {
      WithBlobUntouched(w, s, op, op.node, w.hash(op.bytes), op.bytes);
    } else if ChangesOneNode(op) {
      NodeUntouched(w, s, op);
    } else {
      SameNodesUntouched(s, next);
      QueueFromSelf(s, next, op);
    }
  }

  predicate ChangesOneNode(op: Operation) {
    || op.StartNode? || op.StopNode? || op.Shutdown? || op.RestartNode?
    || op.CollectGarbage? || op.SetStorageFault? || op.Migrate?
  }

  lemma SameNodesUntouched(s: Snapshot, next: Snapshot)
    requires next.nodes == s.nodes
    ensures SameReplicas(s, next)
  {
  }

  lemma SharedUntouched(w: World, s: Snapshot, op: Operation)
    requires op.Share? && Applied(w, s, op).Ok?
    ensures var next := Applied(w, s, op).value;
            SameReplicas(s, next) && QueueFrom(s, next, op) && next.revision == s.revision
  {
    hide SameReplicas, QueueFrom, Sent, MessageFrom;
    QueueFromSelf(s, s, op);
    SentIsFresh(w, s, s, op, op.from, op.to, op.document, Some(op.capability));
    SameNodesUntouched(s, Applied(w, s, op).value);
  }

  lemma WithBlobUntouched(w: World, s: Snapshot, op: Operation, n: NodeId, h: BlobHash, bytes: Bytes)
    requires WithBlob(w, s, n, h, bytes).Ok?
    ensures var next := WithBlob(w, s, n, h, bytes).value;
            SameReplicas(s, next) && QueueFrom(s, next, op) && next.revision == s.revision
  {
    hide SameReplicas, QueueFrom;
    var next := WithBlob(w, s, n, h, bytes).value;
    SetNodeUntouched(s, n, next.nodes[n]);
    QueueFromSelf(s, next, op);
  }

  lemma NodeUntouched(w: World, s: Snapshot, op: Operation)
    requires Applied(w, s, op).Ok?
    requires ChangesOneNode(op)
    ensures var next := Applied(w, s, op).value;
            SameReplicas(s, next) && QueueFrom(s, next, op) && next.revision == s.revision
  {
    hide SameReplicas, QueueFrom;
    SetNodeUntouched(s, op.node, Applied(w, s, op).value.nodes[op.node]);
    QueueFromSelf(s, Applied(w, s, op).value, op);
  }

  /** Creating a document adds one empty replica, held with Write by its creator. */
  lemma CreatedObserved(w: World, s: Snapshot, n: NodeId, d: DocumentId)
    requires Created(w, s, n, d).Ok?
    ensures var next := Created(w, s, n, d).value;
            && next.pending == s.pending && next.revision == s.revision && next.nodes.Keys == s.nodes.Keys
            && CapabilityOf(s, n, d) == None && CapabilityOf(next, n, d) == Some(Write)
            && (forall n', d' :: EntriesOf(next, n', d') == EntriesOf(s, n', d'))
            && (forall n', d' | n' != n || d' != d :: CapabilityOf(next, n', d') == CapabilityOf(s, n', d'))
  {
  }

  /** Writing changes one entry, stamps it with the next revision, and needs Write. */
  lemma WrittenObserved(w: World, s: Snapshot, n: NodeId, d: DocumentId, key: Key, blob: BlobHash)
    requires Written(w, s, n, d, key, blob).Ok?
    ensures var next := Written(w, s, n, d, key, blob).value;
            && next.pending == s.pending && next.nodes.Keys == s.nodes.Keys
            && next.revision == SaturatingSucc(s.revision)
            && HoldsWrite(s, n, d)
            && EntriesOf(next, n, d) == EntriesOf(s, n, d)[key := Entry(n, next.revision, blob)]
            && (forall n', d' :: CapabilityOf(next, n', d') == CapabilityOf(s, n', d'))
            && (forall n', d' | n' != n || d' != d :: EntriesOf(next, n', d') == EntriesOf(s, n', d'))
  {
  }

  lemma CreatedConserves(w: World, s: Snapshot, n: NodeId, d: DocumentId)
    requires Created(w, s, n, d).Ok?
    ensures Derives(s, Created(w, s, n, d).value) && Grows(s, Created(w, s, n, d).value)
  {
    hide EntriesOf, CapabilityOf, Created;
    var next := Created(w, s, n, d).value;
    CreatedObserved(w, s, n, d);
    forall d', k, e | Carries(next, d', k, e) ensures Carries(s, d', k, e) {
      if n' :| Has(EntriesOf(next, n', d'), k, e) { assert Has(EntriesOf(s, n', d'), k, e); }
    }
  }

  lemma WrittenConserves(w: World, s: Snapshot, n: NodeId, d: DocumentId, key: Key, blob: BlobHash,
                         d': DocumentId, k: Key, e: Entry)
    requires Written(w, s, n, d, key, blob).Ok? && Carries(Written(w, s, n, d, key, blob).value, d', k, e)
    ensures Carries(s, d', k, e)
            || (d == d' && key == k && e == Entry(n, SaturatingSucc(s.revision), blob) && HoldsWrite(s, n, d))
  {
    hide EntriesOf, CapabilityOf, Written;
    var next := Written(w, s, n, d, key, blob).value;
    WrittenObserved(w, s, n, d, key, blob);
    if n' :| Has(EntriesOf(next, n', d'), k, e) {
      assert Has(EntriesOf(s, n', d'), k, e) || (n' == n && d' == d && key == k);
    }
  }

  lemma AdvancesConserves(s: Snapshot, next: Snapshot)
    requires Advances(s, next)
    ensures Derives(s, next) && Grows(s, next) && BlobsGrow(s, next) && next.revision == s.revision
    ensures forall m | m in next.pending :: m in s.pending
    ensures forall n, d | HoldsWrite(next, n, d) :: HoldsWrite(s, n, d) || WriteOffered(s, n, d)
  {
    hide Derives, Grows, BlobsGrow, HoldsWrite, WriteOffered;
  }

  lemma UntouchedConserves(s: Snapshot, next: Snapshot, op: Operation)
    requires SameReplicas(s, next) && QueueFrom(s, next, op)
    ensures Derives(s, next) && Grows(s, next)
  {
    hide EntriesOf, CapabilityOf, Carries, Supersedes, AtLeast;
    forall m | m in next.pending ensures m in s.pending || exists n :: m.entries == EntriesOf(s, n, m.document) {
      if m !in s.pending { assert FreshMessage(s, op, m); }
    }
    SameReplicasDerive(s, next);
    SameReplicasGrow(s, next);
  }

  /** Conservation: an entry found anywhere was there before, or is exactly the one just written. */
  lemma EntriesConserved(w: World, s: Snapshot, op: Operation, d: DocumentId, k: Key, e: Entry)
    requires AllHashed(w, s.pending) && Applied(w, s, op).Ok?
    requires Carries(Applied(w, s, op).value, d, k, e)
    ensures Carries(s, d, k, e)
            || (op == WriteEntry(e.author, d, k, e.blob) && e.revision == SaturatingSucc(s.revision)
                && HoldsWrite(s, e.author, d))
  {
    hide Carries, Delivered, Created, Written, Grows, BlobsGrow, Advances, AllHashed, HoldsWrite, SameReplicas,
      QueueFrom;
    match op
    case DeliverAll =>
      DeliveredAdvances(w, s, |s.pending|);
      AdvancesConserves(s, Applied(w, s, op).value);
    case CreateDocument(n, d') => CreatedConserves(w, s, n, d');
    case WriteEntry(n, d', key, blob) => WrittenConserves(w, s, n, d', key, blob, d, k, e);
    case _ =>
      UntouchedReplicas(w, s, op);
      UntouchedConserves(s, Applied(w, s, op).value, op);
  }

  /** Every carried revision has been handed out already, and the counter is not exhausted. */
  ghost predicate RevisionsBelow(s: Snapshot) {
    s.revision < U64_MAX && forall d, k, e | Carries(s, d, k, e) :: e.revision <= s.revision
  }

  lemma WrittenGrows(w: World, s: Snapshot, n: NodeId, d: DocumentId, key: Key, blob: BlobHash)
    requires Written(w, s, n, d, key, blob).Ok? && RevisionsBelow(s)
    ensures Grows(s, Written(w, s, n, d, key, blob).value)
  {
    hide EntriesOf, CapabilityOf, Written;
    var next := Written(w, s, n, d, key, blob).value;
    WrittenObserved(w, s, n, d, key, blob);
    forall n', d' ensures Supersedes(EntriesOf(next, n', d'), EntriesOf(s, n', d')) {
      if n' == n && d' == d && key in EntriesOf(s, n, d) {
        var earlier := EntriesOf(s, n, d)[key];
        assert Has(EntriesOf(s, n, d), key, earlier);
        assert Carries(s, d, key, earlier);
      }
    }
  }

  /** Monotonicity: whatever the operation, faults and restarts included, replicas only grow. */
  lemma ReplicasGrow(w: World, s: Snapshot, op: Operation)
    requires AllHashed(w, s.pending) && Applied(w, s, op).Ok? && RevisionsBelow(s)
    ensures Grows(s, Applied(w, s, op).value)
  {
    hide Delivered, Created, Written, Grows, Derives, BlobsGrow, Advances, AllHashed, SameReplicas, QueueFrom,
      RevisionsBelow;
    match op
    case DeliverAll =>
      DeliveredAdvances(w, s, |s.pending|);
      AdvancesConserves(s, Applied(w, s, op).value);
    case CreateDocument(n, d) => CreatedConserves(w, s, n, d);
    case WriteEntry(n, d, key, blob) => WrittenGrows(w, s, n, d, key, blob);
    case _ =>
      UntouchedReplicas(w, s, op);
      UntouchedConserves(s, Applied(w, s, op).value, op);
  }

  /** Only garbage collection ever removes a blob. */
  lemma BlobsSurvive(w: World, s: Snapshot, op: Operation, n: NodeId)
    requires AllHashed(w, s.pending) && Applied(w, s, op).Ok? && !op.CollectGarbage?
    ensures BlobsOf(s, n).Keys <= BlobsOf(Applied(w, s, op).value, n).Keys
  {
    hide Derives, Grows, Delivered, Sent, MessageFrom, Synchronized, Written, Advances, QueueFrom, AllHashed,
      CapabilityOf;
    match op
    case DeliverAll =>
      DeliveredAdvances(w, s, |s.pending|);
      AdvancesConserves(s, Applied(w, s, op).value);
    case Share(from, to, d, c) => SharedKeepsNodes(w, s, op);
    case Synchronize(left, right, d) => SynchronizedIsFresh(w, s, op, left, right, d);
    case WriteEntry(n', d, key, blob) => WrittenKeepsBlobs(w, s, n', d, key, blob, n);
    case _ =>
  }

  lemma WrittenKeepsBlobs(w: World, s: Snapshot, n: NodeId, d: DocumentId, key: Key, blob: BlobHash, n': NodeId)
    requires Written(w, s, n, d, key, blob).Ok?
    ensures BlobsOf(Written(w, s, n, d, key, blob).value, n') == BlobsOf(s, n')
  {
  }

  lemma SharedKeepsNodes(w: World, s: Snapshot, op: Operation)
    requires op.Share? && Applied(w, s, op).Ok?
    ensures Applied(w, s, op).value.nodes == s.nodes
  {
    hide QueueFrom, Sent, MessageFrom;
    QueueFromSelf(s, s, op);
    SentIsFresh(w, s, s, op, op.from, op.to, op.document, Some(op.capability));
  }

  /** Collection keeps every blob that a local replica refers to. */
  lemma CollectedKeepsReferenced(s: Snapshot, n: NodeId, n': NodeId, h: BlobHash)
    requires Collected(s, n).Ok? && h in BlobsOf(s, n') && Refers(s, n', h)
    ensures h in BlobsOf(Collected(s, n).value, n')
  {
    var d :| References(EntriesOf(s, n', d), h);
  }

  /** A blob that is present and still referred to by a local replica stays present. */
  lemma ReferencedBlobsStay(w: World, s: Snapshot, op: Operation, n: NodeId, h: BlobHash)
    requires AllHashed(w, s.pending) && Applied(w, s, op).Ok?
    requires h in BlobsOf(s, n) && Refers(Applied(w, s, op).value, n, h)
    ensures h in BlobsOf(Applied(w, s, op).value, n)
  {
    if op.CollectGarbage? {
      UntouchedReplicas(w, s, op);
      var d :| References(EntriesOf(Applied(w, s, op).value, n, d), h);
      assert References(EntriesOf(s, n, d), h);
      hide EntriesOf, Collected, References;
      CollectedKeepsReferenced(s, op.node, n, h);
    } else {
      hide Applied, Refers;
      BlobsSurvive(w, s, op, n);
    }
  }

  /** Write is gained only by creating the document or by delivery of an offered Write grant. */
  lemma WriteGained(w: World, s: Snapshot, op: Operation, n: NodeId, d: DocumentId)
    requires AllHashed(w, s.pending) && Applied(w, s, op).Ok?
    requires HoldsWrite(Applied(w, s, op).value, n, d) && !HoldsWrite(s, n, d)
    ensures op == CreateDocument(n, d) || (op.DeliverAll? && WriteOffered(s, n, d))
  {
    hide Delivered, Created, Written, Advances, AllHashed, QueueFrom, CapabilityOf, EntriesOf, WriteOffered;
    match op
    case DeliverAll =>
      DeliveredAdvances(w, s, |s.pending|);
      AdvancesConserves(s, Applied(w, s, op).value);
    case CreateDocument(n', d') => CreatedObserved(w, s, n', d');
    case WriteEntry(n', d', key, blob) => WrittenObserved(w, s, n', d', key, blob);
    case _ => UntouchedReplicas(w, s, op);
  }

  /** The queue afterwards holds only old messages and fresh ones; only a write advances the counter. */
  lemma QueueAndRevisionStep(w: World, s: Snapshot, op: Operation)
    requires AllHashed(w, s.pending) && Applied(w, s, op).Ok?
    ensures QueueFrom(s, Applied(w, s, op).value, op)
    ensures Applied(w, s, op).value.revision == if op.WriteEntry? then SaturatingSucc(s.revision) else s.revision
  {
    hide Delivered, Created, Written, Advances, AllHashed, Derives, Grows, BlobsGrow, SameReplicas, FreshMessage,
      CapabilityOf, EntriesOf;
    match op
    case DeliverAll =>
      DeliveredAdvances(w, s, |s.pending|);
      AdvancesConserves(s, Applied(w, s, op).value);
    case CreateDocument(n', d') => CreatedObserved(w, s, n', d');
    case WriteEntry(n', d', key, blob) => WrittenObserved(w, s, n', d', key, blob);
    case _ => UntouchedReplicas(w, s, op);
  }

  /** Every unpartitioned Write grant among the messages attempted is in force afterwards. */
  lemma {:induction false} GrantsTakeEffect(w: World, s: Snapshot, attempts: nat, i: nat)
    requires i < attempts <= |s.pending| && AllHashed(w, s.pending) && Delivered(w, s, attempts).Ok?
    requires Offers(s, s.pending[i], s.pending[i].to, s.pending[i].document)
    ensures HoldsWrite(Delivered(w, s, attempts).value, s.pending[i].to, s.pending[i].document)
    decreases attempts
  {
    hide Hashed, EntriesOf, Received, Landed, Derives, Supersedes, BlobsGrow;
    var next := DeliveredOne(w, s).value;
    var m := s.pending[0];
    DeliveredOneAdvances(w, s);
    ReceivedClosed(w, s.(pending := s.pending[1..]), m);
    if i > 0 {
      assert next.pending[i - 1] == s.pending[i];
      GrantsTakeEffect(w, next, attempts - 1, i - 1);
    } else {
      LandedObserved(s.(pending := s.pending[1..]), m, m.to, m.document);
      DeliveredAdvances(w, next, attempts - 1);
      assert AtLeast(CapabilityOf(Delivered(w, next, attempts - 1).value, m.to, m.document),
                     CapabilityOf(next, m.to, m.document));
    }
  }
}
