/** Resource ceilings and content addressing hold in every reachable state. */
module ApplicationBounds {
  import opened Base
  import opened Application
  import opened ApplicationMerge

  predicate BlobsOk(w: World, blobs: Blobs) {
    forall h | h in blobs :: Matches(w, h, blobs[h]) && |blobs[h]| <= w.config.maxBlobBytes
  }

  predicate NodeOk(w: World, n: NodeId, node: NodeState) {
    && node.identity == w.identityFor(n)
    && |node.documents| <= w.config.maxDocumentsPerNode
    && |node.blobs| <= w.config.maxBlobsPerNode
    && BlobsOk(w, node.blobs)
    && forall d | d in node.documents :: |node.documents[d].entries| <= w.config.maxEntriesPerDocument
  }

  /** Every replica within its bounds, and every blob, stored or in flight, filed under its own hash. */
  predicate WellFormed(w: World, s: Snapshot) {
    && |s.nodes| <= w.config.maxNodes
    && |s.pending| <= w.config.maxPendingMessages
    && (forall n | n in s.nodes :: NodeOk(w, n, s.nodes[n]))
    && (forall m | m in s.pending :: BlobsOk(w, m.blobs))
  }

  lemma NodeIsOk(w: World, s: Snapshot, n: NodeId)
    requires WellFormed(w, s) && n in s.nodes
    ensures NodeOk(w, n, s.nodes[n])
  {
    hide NodeOk, BlobsOk;
  }

  lemma SetNodeKeeps(w: World, s: Snapshot, n: NodeId, node: NodeState)
    requires WellFormed(w, s) && n in s.nodes && NodeOk(w, n, node)
    ensures WellFormed(w, SetNode(s, n, node))
  {
    hide BlobsOk, NodeOk;
    assert SetNode(s, n, node).nodes.Keys == s.nodes.Keys;
  }

  lemma EnqueuedKeeps(w: World, s: Snapshot, m: Message)
    requires WellFormed(w, s) && BlobsOk(w, m.blobs) && Enqueued(w, s, m).Ok?
    ensures WellFormed(w, Enqueued(w, s, m).value)
  {
    hide BlobsOk, NodeOk;
  }

  lemma SentKeeps(w: World, s: Snapshot, source: NodeId, from: NodeId, to: NodeId, d: DocumentId,
                  grant: Option<Capability>)
    requires WellFormed(w, s) && source in s.nodes
    requires Sent(w, s, MessageFrom(s.nodes[source], from, to, d, grant)).Ok?
    ensures WellFormed(w, Sent(w, s, MessageFrom(s.nodes[source], from, to, d, grant)).value)
  {
    EnqueuedKeeps(w, s, MessageFrom(s.nodes[source], from, to, d, grant).value);
  }

  lemma LandedKeeps(w: World, n: NodeId, node: NodeState, m: Message)
    requires NodeOk(w, n, node) && BlobsOk(w, m.blobs)
    requires m.document in node.documents || (m.grant.Some? && |node.documents| < w.config.maxDocumentsPerNode)
    requires Fits(w.config.maxEntriesPerDocument, Landing(node, m).entries, m.entries.Keys)
    requires Fits(w.config.maxBlobsPerNode, node.blobs, m.blobs.Keys)
    ensures NodeOk(w, n, Landed(node, m))
  {
    hide BlobsOk, Fits, NodeOk, Newest, WithMissing;
    var r := Landing(node, m);
    NodeSizes(w, n, node, m);
    EntriesUnionSize(w, r.entries, m.entries);
    BlobsUnionSize(w, node.blobs, m.blobs);
    WithMissingOk(w, node.blobs, m.blobs);
    var documented := r.(entries := Newest(r.entries, m.entries));
    NodeWithReplicaOk(w, n, node, m.document, documented);
    NodeWithBlobsOk(w, n, node.(documents := node.documents[m.document := documented]),
                    WithMissing(node.blobs, m.blobs));
  }

  lemma NodeSizes(w: World, n: NodeId, node: NodeState, m: Message)
    requires NodeOk(w, n, node) && (m.document in node.documents || m.grant.Some?)
    ensures |Landing(node, m).entries| <= w.config.maxEntriesPerDocument
    ensures |node.blobs| <= w.config.maxBlobsPerNode && BlobsOk(w, node.blobs)
  {
    hide BlobsOk;
  }

  lemma EntriesUnionSize(w: World, have: Entries, incoming: Entries)
    requires |have| <= w.config.maxEntriesPerDocument && Fits(w.config.maxEntriesPerDocument, have, incoming.Keys)
    ensures |Newest(have, incoming)| <= w.config.maxEntriesPerDocument
  {
    hide Fits;
    UnionSize(w.config.maxEntriesPerDocument, have, incoming.Keys, Newest(have, incoming));
  }

  lemma BlobsUnionSize(w: World, have: Blobs, incoming: Blobs)
    requires |have| <= w.config.maxBlobsPerNode && Fits(w.config.maxBlobsPerNode, have, incoming.Keys)
    ensures |WithMissing(have, incoming)| <= w.config.maxBlobsPerNode
  {
    hide Fits;
    UnionSize(w.config.maxBlobsPerNode, have, incoming.Keys, WithMissing(have, incoming));
  }

  lemma WithMissingOk(w: World, have: Blobs, incoming: Blobs)
    requires BlobsOk(w, have) && BlobsOk(w, incoming)
    ensures BlobsOk(w, WithMissing(have, incoming))
  {
  }

  lemma NodeWithBlobsOk(w: World, n: NodeId, node: NodeState, blobs: Blobs)
    requires NodeOk(w, n, node) && BlobsOk(w, blobs) && |blobs| <= w.config.maxBlobsPerNode
    ensures NodeOk(w, n, node.(blobs := blobs))
  {
    hide BlobsOk;
  }

  lemma UnionSize<K, V>(limit: nat, have: map<K, V>, incoming: set<K>, union: map<K, V>)
    requires |have| <= limit && Fits(limit, have, incoming) && union.Keys == have.Keys + incoming
    ensures |union| <= limit
  {
    if incoming <= have.Keys { assert union.Keys == have.Keys; }
  }

  lemma BlobsAreHashed(w: World, blobs: Blobs)
    requires BlobsOk(w, blobs)
    ensures Hashed(w, blobs)
  {
  }

  lemma DeliveredOneKeeps(w: World, s: Snapshot)
    requires WellFormed(w, s) && s.pending != [] && DeliveredOne(w, s).Ok?
    ensures WellFormed(w, DeliveredOne(w, s).value)
  {
    hide WellFormed, BlobsOk, NodeOk, Landed, Landing, Received, Fits, Hashed;
    var m := s.pending[0];
    var popped := s.(pending := s.pending[1..]);
    HeadIsHashed(w, s);
    ReceivedClosed(w, popped, m);
    QueueKeeps(w, s, s.pending[1..]);
    QueueKeeps(w, s, s.pending[1..] + [m]);
    if Acceptable(w, popped, m) {
      NodeIsOk(w, s, m.to);
      LandedKeeps(w, m.to, s.nodes[m.to], m);
      SetNodeKeeps(w, popped, m.to, Landed(s.nodes[m.to], m));
    }
  }

  lemma HeadIsHashed(w: World, s: Snapshot)
    requires WellFormed(w, s) && s.pending != []
    ensures BlobsOk(w, s.pending[0].blobs) && Hashed(w, s.pending[0].blobs)
  {
    hide BlobsOk, NodeOk, Hashed;
    BlobsAreHashed(w, s.pending[0].blobs);
  }

  lemma QueueKeeps(w: World, s: Snapshot, queue: seq<Message>)
    requires WellFormed(w, s) && |queue| <= |s.pending| && forall m | m in queue :: m in s.pending
    ensures WellFormed(w, s.(pending := queue))
  {
    hide BlobsOk, NodeOk;
  }

  lemma {:induction false} DeliveredKeeps(w: World, s: Snapshot, attempts: nat)
    requires WellFormed(w, s) && attempts <= |s.pending|
    ensures Delivered(w, s, attempts).Ok? ==> WellFormed(w, Delivered(w, s, attempts).value)
    ensures Delivered(w, s, attempts).Err? ==> !Delivered(w, s, attempts).error.Invariant?
    decreases attempts
  {
    hide BlobsOk, NodeOk, Received, WellFormed, Hashed;
    if attempts > 0 {
      HeadIsHashed(w, s);
      ReceivedClosed(w, s.(pending := s.pending[1..]), s.pending[0]);
      if DeliveredOne(w, s).Ok? {
        DeliveredOneKeeps(w, s);
        DeliveredKeeps(w, DeliveredOne(w, s).value, attempts - 1);
      }
    }
  }

  lemma CollectedKeeps(w: World, s: Snapshot, n: NodeId)
    requires WellFormed(w, s) && Collected(s, n).Ok?
    ensures WellFormed(w, Collected(s, n).value)
  {
    hide WellFormed, NodeOk;
    var node := Collected(s, n).value.nodes[n];
    NodeIsOk(w, s, n);
    FewerBlobsOk(w, n, s.nodes[n], node.blobs);
    SetNodeKeeps(w, s, n, node);
  }

  lemma FewerBlobsOk(w: World, n: NodeId, node: NodeState, blobs: Blobs)
    requires NodeOk(w, n, node) && forall h | h in blobs :: h in node.blobs && blobs[h] == node.blobs[h]
    ensures NodeOk(w, n, node.(blobs := blobs))
  {
    SubsetSize(blobs.Keys, node.blobs.Keys);
  }

  lemma SynchronizedKeeps(w: World, s: Snapshot, left: NodeId, right: NodeId, d: DocumentId)
    requires WellFormed(w, s) && Synchronized(w, s, left, right, d).Ok?
    ensures WellFormed(w, Synchronized(w, s, left, right, d).value)
  {
    hide WellFormed;
    var first := s;
    if d in s.nodes[left].documents {
      SentKeeps(w, s, left, left, right, d, None);
      first := Sent(w, s, MessageFrom(s.nodes[left], left, right, d, None)).value;
    }
    if d in s.nodes[right].documents { SentKeeps(w, first, right, right, left, d, None); }
  }

  lemma StartedKeeps(w: World, s: Snapshot, n: NodeId)
    requires WellFormed(w, s) && Started(w, s, n).Ok?
    ensures WellFormed(w, Started(w, s, n).value)
  {
    hide NodeOk, BlobsOk;
    FreshNodeOk(w, n);
    var next := Started(w, s, n).value;
    assert next.nodes.Keys == s.nodes.Keys + {n};
    assert |next.nodes| == |next.nodes.Keys| && |s.nodes| == |s.nodes.Keys|;
  }

  lemma FreshNodeOk(w: World, n: NodeId)
    ensures NodeOk(w, n, NodeState(w.identityFor(n), true, false, CURRENT_STORAGE_SCHEMA, map[], map[]))
  {
  }

  lemma NodeWithBlobOk(w: World, n: NodeId, node: NodeState, h: BlobHash, bytes: Bytes)
    requires NodeOk(w, n, node) && Matches(w, h, bytes) && |bytes| <= w.config.maxBlobBytes
    requires h in node.blobs || |node.blobs| < w.config.maxBlobsPerNode
    ensures NodeOk(w, n, node.(blobs := node.blobs[h := bytes]))
  {
    assert node.blobs[h := bytes].Keys == node.blobs.Keys + {h};
  }

  lemma WithBlobKeeps(w: World, s: Snapshot, n: NodeId, h: BlobHash, bytes: Bytes)
    requires WellFormed(w, s) && WithBlob(w, s, n, h, bytes).Ok?
    requires Matches(w, h, bytes) && |bytes| <= w.config.maxBlobBytes
    ensures WellFormed(w, WithBlob(w, s, n, h, bytes).value)
  {
    hide WellFormed, NodeOk;
    NodeIsOk(w, s, n);
    NodeWithBlobOk(w, n, s.nodes[n], h, bytes);
    SetNodeKeeps(w, s, n, WithBlob(w, s, n, h, bytes).value.nodes[n]);
  }

  lemma NodeWithReplicaOk(w: World, n: NodeId, node: NodeState, d: DocumentId, r: Replica)
    requires NodeOk(w, n, node) && |r.entries| <= w.config.maxEntriesPerDocument
    requires d in node.documents || |node.documents| < w.config.maxDocumentsPerNode
    ensures NodeOk(w, n, node.(documents := node.documents[d := r]))
  {
    hide BlobsOk;
    assert node.documents[d := r].Keys == node.documents.Keys + {d};
    assert |node.documents[d := r]| == |node.documents[d := r].Keys| && |node.documents| == |node.documents.Keys|;
  }

  lemma SetReplicaKeeps(w: World, s: Snapshot, n: NodeId, d: DocumentId, r: Replica)
    requires WellFormed(w, s) && n in s.nodes && |r.entries| <= w.config.maxEntriesPerDocument
    requires d in s.nodes[n].documents || |s.nodes[n].documents| < w.config.maxDocumentsPerNode
    ensures WellFormed(w, SetReplica(s, n, d, r))
  {
    hide WellFormed, NodeOk;
    NodeIsOk(w, s, n);
    NodeWithReplicaOk(w, n, s.nodes[n], d, r);
    SetNodeKeeps(w, s, n, SetReplica(s, n, d, r).nodes[n]);
  }

  lemma WrittenKeeps(w: World, s: Snapshot, n: NodeId, d: DocumentId, key: Key, blob: BlobHash)
    requires WellFormed(w, s) && Written(w, s, n, d, key, blob).Ok?
    ensures WellFormed(w, Written(w, s, n, d, key, blob).value)
  {
    hide NodeOk, WellFormed;
    NodeIsOk(w, s, n);
    ReplicaIsOk(w, n, s.nodes[n], d);
    var have := s.nodes[n].documents[d].entries;
    var next := Written(w, s, n, d, key, blob).value;
    var r := next.nodes[n].documents[d];
    assert r.entries.Keys == have.Keys + {key};
    SetReplicaKeeps(w, s, n, d, r);
    RevisionIsFree(w, SetReplica(s, n, d, r), next.revision);
  }

  lemma ReplicaIsOk(w: World, n: NodeId, node: NodeState, d: DocumentId)
    requires NodeOk(w, n, node) && d in node.documents
    ensures |node.documents[d].entries| <= w.config.maxEntriesPerDocument
  {
    hide BlobsOk;
  }

  lemma RevisionIsFree(w: World, s: Snapshot, revision: nat)
    requires WellFormed(w, s)
    ensures WellFormed(w, s.(revision := revision))
  {
    hide NodeOk, BlobsOk;
  }

  lemma FetchedKeeps(w: World, s: Snapshot, from: NodeId, to: NodeId, h: BlobHash)
    requires WellFormed(w, s) && Fetched(w, s, from, to, h).Ok?
    ensures WellFormed(w, Fetched(w, s, from, to, h).value)
  {
    hide WellFormed;
    NodeIsOk(w, s, from);
    WithBlobKeeps(w, s, to, h, s.nodes[from].blobs[h]);
  }

  lemma NodeStatusOk(w: World, n: NodeId, node: NodeState, next: NodeState)
    requires NodeOk(w, n, node)
    requires next.identity == node.identity && next.documents == node.documents && next.blobs == node.blobs
    ensures NodeOk(w, n, next)
  {
    hide BlobsOk;
  }

  /** Operations that change only a node's status flags. */
  lemma StatusKeeps(w: World, s: Snapshot, op: Operation)
    requires WellFormed(w, s) && Applied(w, s, op).Ok?
    requires op.StopNode? || op.Shutdown? || op.RestartNode? || op.SetStorageFault? || op.Migrate?
    ensures WellFormed(w, Applied(w, s, op).value)
  {
    hide WellFormed, NodeOk;
    var next := Applied(w, s, op).value.nodes[op.node];
    NodeIsOk(w, s, op.node);
    NodeStatusOk(w, op.node, s.nodes[op.node], next);
    SetNodeKeeps(w, s, op.node, next);
  }

  /** Operations that change only the partitions or the pending faults. */
  lemma NetworkKeeps(w: World, s: Snapshot, partitions: set<(NodeId, NodeId)>, faults: set<DeliveryFault>)
    requires WellFormed(w, s)
    ensures WellFormed(w, s.(partitions := partitions, faults := faults))
  {
    hide NodeOk, BlobsOk;
  }

  /** Every operation keeps the bounds. */
  lemma AppliedKeeps(w: World, s: Snapshot, op: Operation)
    requires WellFormed(w, s)
    ensures Applied(w, s, op).Ok? ==> WellFormed(w, Applied(w, s, op).value)
  {
    hide WellFormed;
    if Applied(w, s, op).Ok? {
      match op
      case StartNode(n) => StartedKeeps(w, s, n);
      case CreateDocument(n, d) => SetReplicaKeeps(w, s, n, d, Replica(Write, map[]));
      case AddBlob(n, bytes) => WithBlobKeeps(w, s, n, w.hash(bytes), bytes);
      case WriteEntry(n, d, key, blob) => WrittenKeeps(w, s, n, d, key, blob);
      case Share(from, to, d, c) => SentKeeps(w, s, from, from, to, d, Some(c));
      case FetchBlob(from, to, h) => FetchedKeeps(w, s, from, to, h);
      case Synchronize(left, right, d) => SynchronizedKeeps(w, s, left, right, d);
      case CollectGarbage(n) => CollectedKeeps(w, s, n);
      case DeliverAll => DeliveredKeeps(w, s, |s.pending|);
      case StopNode(_) => StatusKeeps(w, s, op);
      case Shutdown(_) => StatusKeeps(w, s, op);
      case RestartNode(_) => StatusKeeps(w, s, op);
      case SetStorageFault(_, _) => StatusKeeps(w, s, op);
      case Migrate(_, _) => StatusKeeps(w, s, op);
      case _ =>
        var next := Applied(w, s, op).value;
        NetworkKeeps(w, s, next.partitions, next.faults);
    }
  }

  /** No operation ever reports that a delivered blob fails to match its hash. */
  lemma NoInvariantError(w: World, s: Snapshot, op: Operation)
    requires WellFormed(w, s)
    ensures Applied(w, s, op).Err? ==> !Applied(w, s, op).error.Invariant?
  {
    hide WellFormed, Delivered;
    if op.DeliverAll? { DeliveredKeeps(w, s, |s.pending|); }
  }
}
