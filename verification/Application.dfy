/**
 The local-first application model: nodes holding replicated documents and content-addressed
 blobs, and a queue of synchronization messages between them. Every operation is a function from
 snapshot to snapshot or error; nothing of a failed operation survives.
 */
module Application {
  import opened Base
  import opened Order

  const MAX_MODEL_NODES: nat := 256
  const MAX_MODEL_ITEMS: nat := 65_536
  const MAX_MODEL_BLOB_BYTES: nat := 16 * 1024 * 1024
  const CURRENT_STORAGE_SCHEMA: nat := 1
  const MAX_KEY_BYTES: nat := 1024

  // Identifiers are ASCII text, compared bytewise; a blob hash is its digest bytes.
  type NodeId = Bytes
  type DocumentId = Bytes
  type BlobHash = Bytes
  type Key = Bytes

  datatype Capability = Read | Write {

    predicate Permits(requested: Capability) {
      Write? || requested.Read?
    }
  }

  datatype DeliveryFault = Drop | Duplicate | Reorder

  datatype Config = Config(
    maxNodes: nat,
    maxDocumentsPerNode: nat,
    maxBlobsPerNode: nat,
    maxEntriesPerDocument: nat,
    maxPendingMessages: nat,
    maxTraceEvents: nat,
    maxBlobBytes: nat)
  {
    predicate Valid() {
      && 0 < maxNodes <= MAX_MODEL_NODES
      && 0 < maxDocumentsPerNode <= MAX_MODEL_ITEMS
      && 0 < maxBlobsPerNode <= MAX_MODEL_ITEMS
      && 0 < maxEntriesPerDocument <= MAX_MODEL_ITEMS
      && 0 < maxPendingMessages <= MAX_MODEL_ITEMS
      && 0 < maxTraceEvents <= MAX_MODEL_ITEMS
      && 0 < maxBlobBytes <= MAX_MODEL_BLOB_BYTES
    }
  }

  /** The configuration, with the content hash and the node identity as arbitrary functions. */
  datatype World = World(config: Config, hash: Bytes -> BlobHash, identityFor: NodeId -> Bytes)

  datatype Operation =
    | StartNode(node: NodeId)
    | StopNode(node: NodeId)
    | RestartNode(node: NodeId)
    | Shutdown(node: NodeId)
    | CreateDocument(node: NodeId, document: DocumentId)
    | AddBlob(node: NodeId, bytes: Bytes)
    | WriteEntry(node: NodeId, document: DocumentId, key: Key, blob: BlobHash)
    | Share(from: NodeId, to: NodeId, document: DocumentId, capability: Capability)
    | FetchBlob(from: NodeId, to: NodeId, blob: BlobHash)
    | Synchronize(left: NodeId, right: NodeId, document: DocumentId)
    | CollectGarbage(node: NodeId)
    | Partition(left: NodeId, right: NodeId)
    | Heal(left: NodeId, right: NodeId)
    | SetDeliveryFault(fault: DeliveryFault)
    | DuplicateNext
    | ReorderNext
    | DropNext
    | DeliverAll
    | SetStorageFault(node: NodeId, enabled: bool)
    | Migrate(node: NodeId, targetSchema: nat)

  datatype Error =
    | InvalidBounds
    | InvalidScenarioIdentity
    | TraceLimit
    | NodeLimit
    | NodeAlreadyExists
    | NodeNotFound
    | NodeNotRunning
    | NodeAlreadyRunning
    | DocumentNotFound
    | DocumentAlreadyExists
    | DocumentLimit
    | InvalidEntryKey
    | EntryLimit
    | WriteCapabilityRequired
    | CapabilityEscalation
    | BlobTooLarge
    | BlobLimit
    | BlobMissing
    | StorageUnavailable
    | Partitioned
    | PendingMessageLimit
    | UnsupportedStorageSchema
    | Invariant(what: string)

  datatype Entry = Entry(author: NodeId, revision: nat, blob: BlobHash)

  type Entries = map<Key, Entry>
  type Blobs = map<BlobHash, Bytes>

  datatype Replica = Replica(capability: Capability, entries: Entries)

  datatype NodeState = NodeState(
    identity: Bytes,
    running: bool,
    storageFault: bool,
    storageSchema: nat,
    documents: map<DocumentId, Replica>,
    blobs: Blobs)

  datatype Message = Message(
    from: NodeId,
    to: NodeId,
    document: DocumentId,
    grant: Option<Capability>,
    entries: Entries,
    blobs: Blobs)

  datatype Snapshot = Snapshot(
    nodes: map<NodeId, NodeState>,
    partitions: set<(NodeId, NodeId)>,
    pending: seq<Message>,
    faults: set<DeliveryFault>,
    revision: nat)

  const EMPTY: Snapshot := Snapshot(map[], {}, [], {}, 0)

  type Outcome = Result<Snapshot, Error>

  // ---------------------------------------------------------------- looking nodes up

  function RunningNode(s: Snapshot, n: NodeId): Result<NodeState, Error> {
    if n !in s.nodes then Err(NodeNotFound)
    else if !s.nodes[n].running then Err(NodeNotRunning)
    else Ok(s.nodes[n])
  }

  function WritableNode(s: Snapshot, n: NodeId): Result<NodeState, Error> {
    var node :- RunningNode(s, n);
    if node.storageFault then Err(StorageUnavailable) else Ok(node)
  }

  function Pair(left: NodeId, right: NodeId): (NodeId, NodeId) {
    if Leq(left, right) then (left, right) else (right, left)
  }

  predicate Separated(s: Snapshot, left: NodeId, right: NodeId) {
    Pair(left, right) in s.partitions
  }

  function RequireConnected(s: Snapshot, left: NodeId, right: NodeId): (r: Result<(), Error>)
    ensures r.Ok? ==> left in s.nodes && s.nodes[left].running && right in s.nodes && s.nodes[right].running
  {
    var _ :- RunningNode(s, left);
    var _ :- RunningNode(s, right);
    if Separated(s, left, right) then Err(Partitioned) else Ok(())
  }

  function SetNode(s: Snapshot, n: NodeId, node: NodeState): Snapshot {
    s.(nodes := s.nodes[n := node])
  }

  function SetReplica(s: Snapshot, n: NodeId, d: DocumentId, r: Replica): Snapshot
    requires n in s.nodes
  {
    SetNode(s, n, s.nodes[n].(documents := s.nodes[n].documents[d := r]))
  }

  // ---------------------------------------------------------------- messages and the queue

  predicate References(entries: Entries, h: BlobHash) {
    exists k | k in entries :: entries[k].blob == h
  }

  function MessageFrom(source: NodeState, from: NodeId, to: NodeId, d: DocumentId, grant: Option<Capability>)
    : Result<Message, Error>
  {
    if d !in source.documents then Err(DocumentNotFound) else
    var entries := source.documents[d].entries;
    var blobs := map h | h in source.blobs && References(entries, h) :: source.blobs[h];
    Ok(Message(from, to, d, grant, entries, blobs))
  }

  /** One-shot faults are consumed by the next message, whichever way it goes. */
  function Enqueued(w: World, s: Snapshot, m: Message): Outcome {
    var cleared := s.(faults := s.faults - {Drop, Duplicate, Reorder});
    var copies := if Duplicate in s.faults then [m, m] else [m];
    if Drop in s.faults then Ok(cleared)
    else if |s.pending| + |copies| > w.config.maxPendingMessages then Err(PendingMessageLimit)
    else if Reorder in s.faults then Ok(cleared.(pending := copies + s.pending))
    else Ok(cleared.(pending := s.pending + copies))
  }

  function Sent(w: World, s: Snapshot, message: Result<Message, Error>): Outcome {
    match message
    case Ok(m) => Enqueued(w, s, m)
    case Err(error) => Err(error)
  }

  // ---------------------------------------------------------------- delivery

  /** Last writer wins: the later revision, and on equal revisions the greater author. */
  predicate Newer(a: Entry, b: Entry) {
    a.revision > b.revision || (a.revision == b.revision && Less(b.author, a.author))
  }

  /** Merges the incoming entries under `keys`, in that order, stopping at the first that does not fit. */
  function MergeEntries(limit: nat, have: Entries, incoming: Entries, keys: seq<Key>): Result<Entries, Error>
    requires forall k | k in keys :: k in incoming
    decreases |keys|
  {
    if keys == [] then Ok(have) else
    var k := keys[0];
    if k !in have && |have| >= limit then Err(EntryLimit) else
    var next := if k !in have || Newer(incoming[k], have[k]) then have[k := incoming[k]] else have;
    MergeEntries(limit, next, incoming, keys[1..])
  }

  /** Adds the incoming blobs under `hashes`, in that order, keeping those already present. */
  function MergeBlobs(w: World, have: Blobs, incoming: Blobs, hashes: seq<BlobHash>): Result<Blobs, Error>
    requires forall h | h in hashes :: h in incoming
    decreases |hashes|
  {
    if hashes == [] then Ok(have) else
    var h := hashes[0];
    if h in have then MergeBlobs(w, have, incoming, hashes[1..])
    else if |have| >= w.config.maxBlobsPerNode then Err(BlobLimit)
    else if w.hash(incoming[h]) != h then Err(Invariant("delivered blob hash matches bytes"))
    else MergeBlobs(w, have[h := incoming[h]], incoming, hashes[1..])
  }

  /** The replica a message lands in: upgraded by a Write grant, or created by the grant. */
  function ReplicaFor(w: World, node: NodeState, m: Message): Result<Replica, Error> {
    if m.document in node.documents then
      var r := node.documents[m.document];
      if m.grant == Some(Write) && r.capability == Read then Ok(r.(capability := Write)) else Ok(r)
    else if |node.documents| >= w.config.maxDocumentsPerNode then Err(DocumentLimit)
    else if m.grant.None? then Err(DocumentNotFound)
    else Ok(Replica(m.grant.value, map[]))
  }

  function Received(w: World, s: Snapshot, m: Message): Outcome {
    var node :- WritableNode(s, m.to);
    var replica :- ReplicaFor(w, node, m);
    var entries :- MergeEntries(w.config.maxEntriesPerDocument, replica.entries, m.entries, Ascending(m.entries.Keys));
    var blobs :- MergeBlobs(w, node.blobs, m.blobs, Ascending(m.blobs.Keys));
    Ok(SetNode(s, m.to, node.(
               documents := node.documents[m.document := replica.(entries := entries)],
               blobs := blobs)))
  }

  /** Takes the message at the head of the queue: delivered, put back at the tail, or a failure. */
  function DeliveredOne(w: World, s: Snapshot): Outcome
    requires s.pending != []
  {
    var m := s.pending[0];
    var popped := s.(pending := s.pending[1..]);
    var requeued := s.(pending := s.pending[1..] + [m]);
    if Separated(s, m.from, m.to) then Ok(requeued)
    else if m.grant.None? then
      var node :- RunningNode(s, m.to);
      if m.document !in node.documents then Ok(requeued) else Received(w, popped, m)
    else Received(w, popped, m)
  }

  function Delivered(w: World, s: Snapshot, attempts: nat): Outcome
    requires attempts <= |s.pending|
    decreases attempts
  {
    if attempts == 0 then Ok(s) else
    var next :- DeliveredOne(w, s);
    Delivered(w, next, attempts - 1)
  }

  // ---------------------------------------------------------------- the operations

  function Started(w: World, s: Snapshot, n: NodeId): Outcome {
    if n in s.nodes then Err(NodeAlreadyExists)
    else if |s.nodes| >= w.config.maxNodes then Err(NodeLimit)
    else Ok(SetNode(s, n, NodeState(w.identityFor(n), true, false, CURRENT_STORAGE_SCHEMA, map[], map[])))
  }

  function Created(w: World, s: Snapshot, n: NodeId, d: DocumentId): Outcome {
    var node :- WritableNode(s, n);
    if d in node.documents then Err(DocumentAlreadyExists)
    else if |node.documents| >= w.config.maxDocumentsPerNode then Err(DocumentLimit)
    else Ok(SetReplica(s, n, d, Replica(Write, map[])))
  }

  function WithBlob(w: World, s: Snapshot, n: NodeId, h: BlobHash, bytes: Bytes): Outcome {
    var node :- WritableNode(s, n);
    if h !in node.blobs && |node.blobs| >= w.config.maxBlobsPerNode then Err(BlobLimit)
    else Ok(SetNode(s, n, node.(blobs := node.blobs[h := bytes])))
  }

  function Written(w: World, s: Snapshot, n: NodeId, d: DocumentId, key: Key, blob: BlobHash): Outcome {
    if key == [] || |key| > MAX_KEY_BYTES then Err(InvalidEntryKey) else
    var revision := SaturatingSucc(s.revision);
    var node :- WritableNode(s, n);
    if d !in node.documents then Err(DocumentNotFound) else
    var r := node.documents[d];
    if r.capability != Write then Err(WriteCapabilityRequired)
    else if key !in r.entries && |r.entries| >= w.config.maxEntriesPerDocument then Err(EntryLimit)
    else
      var entries := r.entries[key := Entry(n, revision, blob)];
      Ok(SetReplica(s, n, d, r.(entries := entries)).(revision := revision))
  }

  function Shared(w: World, s: Snapshot, from: NodeId, to: NodeId, d: DocumentId, c: Capability): Outcome {
    var _ :- RequireConnected(s, from, to);
    var source := s.nodes[from];
    if d !in source.documents then Err(DocumentNotFound)
    else if !source.documents[d].capability.Permits(c) then Err(CapabilityEscalation)
    else Sent(w, s, MessageFrom(source, from, to, d, Some(c)))
  }

  function Fetched(w: World, s: Snapshot, from: NodeId, to: NodeId, h: BlobHash): Outcome {
    var _ :- RequireConnected(s, from, to);
    var source := s.nodes[from];
    if h !in source.blobs then Err(BlobMissing)
    else WithBlob(w, s, to, h, source.blobs[h])
  }

  /** Each running holder sends its replica to the other side, the left side first. */
  function Synchronized(w: World, s: Snapshot, left: NodeId, right: NodeId, d: DocumentId): Outcome {
    var l :- RunningNode(s, left);
    var r :- RunningNode(s, right);
    if d !in l.documents && d !in r.documents then Err(DocumentNotFound) else
    var first :- if d in l.documents then Sent(w, s, MessageFrom(l, left, right, d, None)) else Ok(s);
    if d in r.documents then Sent(w, first, MessageFrom(r, right, left, d, None)) else Ok(first)
  }

  function Collected(s: Snapshot, n: NodeId): Outcome {
    var node :- WritableNode(s, n);
    var kept := map h | h in node.blobs && (exists d | d in node.documents :: References(node.documents[d].entries, h))
                  :: node.blobs[h];
    Ok(SetNode(s, n, node.(blobs := kept)))
  }

  function Repartitioned(s: Snapshot, left: NodeId, right: NodeId, cut: bool): Outcome {
    var _ :- RunningNode(s, left);
    var _ :- RunningNode(s, right);
    var p := {Pair(left, right)};
    Ok(s.(partitions := if cut then s.partitions + p else s.partitions - p))
  }

  function Migrated(s: Snapshot, n: NodeId, target: nat): Outcome {
    if target == 0 || target > CURRENT_STORAGE_SCHEMA then Err(UnsupportedStorageSchema) else
    var node :- WritableNode(s, n);
    if target < node.storageSchema then Err(UnsupportedStorageSchema)
    else Ok(SetNode(s, n, node.(storageSchema := target)))
  }

  function Applied(w: World, s: Snapshot, op: Operation): Outcome {
    match op
    case StartNode(n) => Started(w, s, n)
    case StopNode(n) => var node :- RunningNode(s, n); Ok(SetNode(s, n, node.(running := false)))
    case Shutdown(n) => var node :- RunningNode(s, n); Ok(SetNode(s, n, node.(running := false)))
    case RestartNode(n) =>
      if n !in s.nodes then Err(NodeNotFound)
      else if s.nodes[n].running then Err(NodeAlreadyRunning)
      else Ok(SetNode(s, n, s.nodes[n].(running := true)))
    case CreateDocument(n, d) => Created(w, s, n, d)
    case AddBlob(n, bytes) =>
      if |bytes| > w.config.maxBlobBytes then Err(BlobTooLarge) else WithBlob(w, s, n, w.hash(bytes), bytes)
    case WriteEntry(n, d, key, blob) => Written(w, s, n, d, key, blob)
    case Share(from, to, d, c) => Shared(w, s, from, to, d, c)
    case FetchBlob(from, to, h) => Fetched(w, s, from, to, h)
    case Synchronize(left, right, d) => Synchronized(w, s, left, right, d)
    case CollectGarbage(n) => Collected(s, n)
    case Partition(left, right) => Repartitioned(s, left, right, true)
    case Heal(left, right) => Repartitioned(s, left, right, false)
    case SetDeliveryFault(fault) => Ok(s.(faults := s.faults + {fault}))
    case DuplicateNext => Ok(s.(faults := s.faults + {Duplicate}))
    case ReorderNext => Ok(s.(faults := s.faults + {Reorder}))
    case DropNext => Ok(s.(faults := s.faults + {Drop}))
    case DeliverAll => Delivered(w, s, |s.pending|)
    case SetStorageFault(n, enabled) =>
      var node :- RunningNode(s, n); Ok(SetNode(s, n, node.(storageFault := enabled)))
    case Migrate(n, target) => Migrated(s, n, target)
  }

  // ---------------------------------------------------------------- the model and its runs

  datatype TraceEvent = TraceEvent(sequence: nat, operation: Operation)

  datatype Model = Model(snapshot: Snapshot, trace: seq<TraceEvent>)

  const FRESH: Model := Model(EMPTY, [])

  function Apply(w: World, m: Model, op: Operation): Result<Model, Error> {
    if |m.trace| >= w.config.maxTraceEvents then Err(TraceLimit) else
    var next :- Applied(w, m.snapshot, op);
    Ok(Model(next, m.trace + [TraceEvent(SaturatingSucc(|m.trace|), op)]))
  }

  /** What is left after trying one operation: the new model, or the old one if it failed. */
  function Attempt(w: World, m: Model, op: Operation): Model {
    match Apply(w, m, op)
    case Ok(next) => next
    case Err(_) => m
  }

  /** Every run of the model: any operations, attempted in order, failing or not. */
  function After(w: World, attempts: seq<Operation>): Model {
    if attempts == [] then FRESH
    else Attempt(w, After(w, attempts[..|attempts| - 1]), attempts[|attempts| - 1])
  }

  function Operations(trace: seq<TraceEvent>): seq<Operation> {
    seq(|trace|, i requires 0 <= i < |trace| => trace[i].operation)
  }
}
