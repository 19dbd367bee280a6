/** The model as the program keeps it: one object whose fields each operation replaces, or leaves alone. */
module ApplicationSimulator {
  import opened Base
  import opened Order
  import opened Application
  import opened ApplicationMerge
  import opened ApplicationBounds
  import opened ApplicationRuns

  datatype Scenario = Scenario(seed: nat, candidateSha: Bytes, artifactVersion: nat, operations: seq<Operation>) {

    predicate Identified(w: World) {
      artifactVersion != 0 && 0 < |candidateSha| <= 128 && |operations| <= w.config.maxTraceEvents
    }
  }

  datatype RunRecord = RunRecord(seed: nat, candidateSha: Bytes, artifactVersion: nat, trace: seq<TraceEvent>)

  /** The model after running operations up to the first failure, and that failure if there was one. */
  function Ran(w: World, m: Model, ops: seq<Operation>): (Model, Result<(), Error>)
    decreases |ops|
  {
    if ops == [] then (m, Ok(())) else
    match Apply(w, m, ops[0])
    case Err(e) => (m, Err(e))
    case Ok(next) => Ran(w, next, ops[1..])
  }

  /** Running `ops` after `attempts` is attempting them one by one up to the first failure, if there is one. */
  ghost predicate IsAttempts(w: World, attempts: seq<Operation>, ops: seq<Operation>, ran: (Model, Result<(), Error>)) {
    exists k :: && 0 <= k <= |ops| && ran.0 == After(w, attempts + ops[..k])
                && Operations(ran.0.trace) == Operations(After(w, attempts).trace) + ops[..k]
                && (if k == |ops| then ran.1.Ok? else ran.1.Err? && Apply(w, ran.0, ops[k]) == Err(ran.1.error))
  }

  lemma {:induction false} RanIsAttempts(w: World, attempts: seq<Operation>, ops: seq<Operation>)
    ensures IsAttempts(w, attempts, ops, Ran(w, After(w, attempts), ops))
    decreases |ops|
  {
    hide After, Applied, Operations;
    var m := After(w, attempts);
    assert attempts + ops[..0] == attempts && Operations(m.trace) + ops[..0] == Operations(m.trace);
    if ops != [] && Apply(w, m, ops[0]).Ok? {
      var more := attempts + [ops[0]];
      AfterStep(w, attempts, ops[0]);
      OperationsStep(m.trace, After(w, more).trace[|m.trace|]);
      RanIsAttempts(w, more, ops[1..]);
      var ran := Ran(w, After(w, more), ops[1..]);
      var k :| && 0 <= k <= |ops[1..]| && ran.0 == After(w, more + ops[1..][..k])
               && Operations(ran.0.trace) == Operations(After(w, more).trace) + ops[1..][..k]
               && (if k == |ops[1..]| then ran.1.Ok?
                   else ran.1.Err? && Apply(w, ran.0, ops[1..][k]) == Err(ran.1.error));
      assert [ops[0]] + ops[1..][..k] == ops[..k + 1];
      assert more + ops[1..][..k] == attempts + ops[..k + 1];
      assert Operations(m.trace) + [ops[0]] + ops[1..][..k] == Operations(m.trace) + ops[..k + 1];
    }
  }

  // ---------------------------------------------------------------- the loops

  method MergeEntriesInOrder(limit: nat, have: Entries, incoming: Entries) returns (r: Result<Entries, Error>)
    ensures r == MergeEntries(limit, have, incoming, Ascending(incoming.Keys))
    ensures forall keys | InOrder(keys, incoming.Keys) :: r == MergeEntries(limit, have, incoming, keys)
  {
    AscendingIsInOrder(incoming.Keys);
    forall keys | InOrder(keys, incoming.Keys) ensures keys == Ascending(incoming.Keys) {
      OrderIsUnique(keys, Ascending(incoming.Keys), incoming.Keys);
    }
    var entries := have;
    var keys := Ascending(incoming.Keys);
    var i := 0;
    while i < |keys|
      invariant i <= |keys|
      invariant MergeEntries(limit, have, incoming, keys) == MergeEntries(limit, entries, incoming, keys[i..])
    {
      var k := keys[i];
      if k !in entries && |entries| >= limit {
        return Err(EntryLimit);
      }
      if k !in entries || Newer(incoming[k], entries[k]) {
        entries := entries[k := incoming[k]];
      }
      i := i + 1;
    }
    r := Ok(entries);
  }

  method MergeBlobsInOrder(w: World, have: Blobs, incoming: Blobs) returns (r: Result<Blobs, Error>)
    ensures r == MergeBlobs(w, have, incoming, Ascending(incoming.Keys))
    ensures forall hashes | InOrder(hashes, incoming.Keys) :: r == MergeBlobs(w, have, incoming, hashes)
  {
    AscendingIsInOrder(incoming.Keys);
    forall hashes | InOrder(hashes, incoming.Keys) ensures hashes == Ascending(incoming.Keys) {
      OrderIsUnique(hashes, Ascending(incoming.Keys), incoming.Keys);
    }
    var blobs := have;
    var hashes := Ascending(incoming.Keys);
    var i := 0;
    while i < |hashes|
      invariant i <= |hashes|
      invariant MergeBlobs(w, have, incoming, hashes) == MergeBlobs(w, blobs, incoming, hashes[i..])
    {
      var h := hashes[i];
      i := i + 1;
      if h in blobs {
        continue;
      }
      if |blobs| >= w.config.maxBlobsPerNode {
        return Err(BlobLimit);
      }
      if w.hash(incoming[h]) != h {
        return Err(Invariant("delivered blob hash matches bytes"));
      }
      blobs := blobs[h := incoming[h]];
    }
    r := Ok(blobs);
  }

  method Receive(w: World, s: Snapshot, m: Message) returns (r: Outcome)
    ensures r == Received(w, s, m)
    ensures r.Ok? ==> r.value.pending == s.pending
  {
    hide MergeEntries, MergeBlobs, Ascending;
    var node :- WritableNode(s, m.to);
    var replica :- ReplicaFor(w, node, m);
    var entries :- MergeEntriesInOrder(w.config.maxEntriesPerDocument, replica.entries, m.entries);
    var blobs :- MergeBlobsInOrder(w, node.blobs, m.blobs);
    return Ok(SetNode(s, m.to, node.(
                      documents := node.documents[m.document := replica.(entries := entries)],
                      blobs := blobs)));
  }

  /** One pass over the queue as it stood: deliver, put back what cannot be delivered yet, stop at a failure. */
  method DeliverPending(w: World, s: Snapshot) returns (r: Outcome)
    ensures r == Delivered(w, s, |s.pending|)
  {
    hide Received, Separated;
    var next := s;
    var attempts := |s.pending|;
    for done := 0 to attempts
      invariant attempts - done <= |next.pending|
      invariant Delivered(w, s, attempts) == Delivered(w, next, attempts - done)
    {
      var m := next.pending[0];
      var before := next;
      next := next.(pending := next.pending[1..]);
      if Separated(before, m.from, m.to) {
        next := next.(pending := next.pending + [m]);
        continue;
      }
      if m.grant.None? {
        var node :- RunningNode(before, m.to);
        if m.document !in node.documents {
          next := next.(pending := next.pending + [m]);
          continue;
        }
      }
      next :- Receive(w, next, m);
    }
    return Ok(next);
  }

  function Copies(m: Message, count: nat): (copies: seq<Message>)
    ensures |copies| == count
  {
    if count == 0 then [] else Copies(m, count - 1) + [m]
  }

  lemma {:induction false} CopiesInFront(m: Message, count: nat)
    ensures [m] + Copies(m, count) == Copies(m, count + 1)
  {
    if count > 0 { CopiesInFront(m, count - 1); }
  }

  lemma OneMoreCopy(m: Message, count: nat, queue: seq<Message>)
    ensures [m] + (Copies(m, count) + queue) == Copies(m, count + 1) + queue
    ensures (queue + Copies(m, count)) + [m] == queue + Copies(m, count + 1)
  {
    CopiesInFront(m, count);
  }

  lemma NoCopies(m: Message, queue: seq<Message>)
    ensures Copies(m, 0) + queue == queue == queue + Copies(m, 0)
  {
  }

  lemma EnqueuedCopies(w: World, s: Snapshot, m: Message)
    ensures var cleared := s.(faults := s.faults - {Drop} - {Duplicate} - {Reorder});
            var count := if Duplicate in s.faults then 2 else 1;
            Enqueued(w, s, m) == if Drop in s.faults then Ok(cleared)
            else if |s.pending| + count > w.config.maxPendingMessages then Err(PendingMessageLimit)
            else if Reorder in s.faults then Ok(cleared.(pending := Copies(m, count) + s.pending))
            else Ok(cleared.(pending := s.pending + Copies(m, count)))
  {
    assert s.faults - {Drop} - {Duplicate} - {Reorder} == s.faults - {Drop, Duplicate, Reorder};
    assert Copies(m, 1) == [m] && Copies(m, 2) == [m, m];
  }

  method Enqueue(w: World, s: Snapshot, m: Message) returns (r: Outcome)
    ensures r == Enqueued(w, s, m)
  {
    hide Enqueued, Copies;
    EnqueuedCopies(w, s, m);
    NoCopies(m, s.pending);
    var dropped, duplicate, reorder := Drop in s.faults, Duplicate in s.faults, Reorder in s.faults;
    var next := s.(faults := s.faults - {Drop} - {Duplicate} - {Reorder});
    if dropped {
      return Ok(next);
    }
    var count := if duplicate then 2 else 1;
    if |next.pending| + count > w.config.maxPendingMessages {
      return Err(PendingMessageLimit);
    }
    var cleared := next;
    for i := 0 to count
      invariant next == cleared.(pending := if reorder then Copies(m, i) + s.pending else s.pending + Copies(m, i))
    {
      OneMoreCopy(m, i, s.pending);
      next := next.(pending := if reorder then [m] + next.pending else next.pending + [m]);
    }
    return Ok(next);
  }

  method Send(w: World, s: Snapshot, message: Result<Message, Error>) returns (r: Outcome)
    ensures r == Sent(w, s, message)
  {
    match message
    case Ok(m) => r := Enqueue(w, s, m);
    case Err(error) => r := Err(error);
  }

  /** The blobs that entries refer to and the source has, collected entry by entry. */
  method ReferencedBlobs(source: Blobs, entries: Entries) returns (blobs: Blobs)
    ensures blobs == map h | h in source && References(entries, h) :: source[h]
  {
    blobs := map[];
    var keys := Ascending(entries.Keys);
    for i := 0 to |keys|
      invariant forall h | h in blobs :: h in source && References(entries, h) && blobs[h] == source[h]
      invariant forall j | 0 <= j < i && entries[keys[j]].blob in source :: entries[keys[j]].blob in blobs
    {
      var h := entries[keys[i]].blob;
      if h in source {
        blobs := blobs[h := source[h]];
      }
    }
    forall h | h in source && References(entries, h) ensures h in blobs {
      var k :| k in entries && entries[k].blob == h;
      var j :| 0 <= j < |keys| && keys[j] == k;
    }
  }

  method MakeMessage(source: NodeState, from: NodeId, to: NodeId, d: DocumentId, grant: Option<Capability>)
    returns (r: Result<Message, Error>)
    ensures r == MessageFrom(source, from, to, d, grant)
  {
    if d !in source.documents {
      return Err(DocumentNotFound);
    }
    var entries := source.documents[d].entries;
    var blobs := ReferencedBlobs(source.blobs, entries);
    return Ok(Message(from, to, d, grant, entries, blobs));
  }

  /** Every blob some entry of some document refers to. */
  method ReachableBlobs(node: NodeState) returns (reachable: set<BlobHash>)
    ensures forall h :: h in reachable <==> exists d | d in node.documents :: References(node.documents[d].entries, h)
  {
    reachable := {};
    var documents := Ascending(node.documents.Keys);
    for i := 0 to |documents|
      invariant forall h | h in reachable :: exists d | d in node.documents :: References(node.documents[d].entries, h)
      invariant forall j, h | 0 <= j < i && References(node.documents[documents[j]].entries, h) :: h in reachable
    {
      var entries := node.documents[documents[i]].entries;
      var blobs := EntryBlobs(entries);
      assert forall h | h in blobs :: References(node.documents[documents[i]].entries, h);
      reachable := reachable + blobs;
    }
    forall h | exists d | d in node.documents :: References(node.documents[d].entries, h) ensures h in reachable {
      var d :| d in node.documents && References(node.documents[d].entries, h);
      var j :| 0 <= j < |documents| && documents[j] == d;
    }
  }

  method EntryBlobs(entries: Entries) returns (blobs: set<BlobHash>)
    ensures forall h :: h in blobs <==> References(entries, h)
  {
    blobs := {};
    var keys := Ascending(entries.Keys);
    for i := 0 to |keys|
      invariant forall h | h in blobs :: References(entries, h)
      invariant forall j | 0 <= j < i :: entries[keys[j]].blob in blobs
    {
      blobs := blobs + {entries[keys[i]].blob};
    }
    forall h | References(entries, h) ensures h in blobs {
      var k :| k in entries && entries[k].blob == h;
      var j :| 0 <= j < |keys| && keys[j] == k;
    }
  }

  method RetainBlobs(blobs: Blobs, reachable: set<BlobHash>) returns (kept: Blobs)
    ensures kept == map h | h in blobs && h in reachable :: blobs[h]
  {
    kept := blobs;
    var hashes := Ascending(blobs.Keys);
    for i := 0 to |hashes|
      invariant forall h | h in kept :: h in blobs && kept[h] == blobs[h]
      invariant forall h | h in blobs && h in reachable :: h in kept
      invariant forall j | 0 <= j < i && hashes[j] !in reachable :: hashes[j] !in kept
    {
      if hashes[i] !in reachable {
        kept := kept - {hashes[i]};
      }
    }
    forall h | h in kept ensures h in reachable {
      var j :| 0 <= j < |hashes| && hashes[j] == h;
    }
  }

  method CollectGarbage(s: Snapshot, n: NodeId) returns (r: Outcome)
    ensures r == Collected(s, n)
  {
    hide References;
    var node :- WritableNode(s, n);
    var reachable := ReachableBlobs(node);
    var kept := RetainBlobs(node.blobs, reachable);
    assert kept == map h | h in node.blobs
                           && (exists d | d in node.documents :: References(node.documents[d].entries, h))
                     :: node.blobs[h];
    return Ok(SetNode(s, n, node.(blobs := kept)));
  }

  method StoreBlob(w: World, s: Snapshot, n: NodeId, h: BlobHash, bytes: Bytes) returns (r: Outcome)
    ensures r == WithBlob(w, s, n, h, bytes)
  {
    var node :- WritableNode(s, n);
    if h !in node.blobs && |node.blobs| >= w.config.maxBlobsPerNode {
      return Err(BlobLimit);
    }
    node := node.(blobs := node.blobs[h := bytes]);
    return Ok(SetNode(s, n, node));
  }

  /** Operations on one node: each looks its node up, checks, and puts the changed node back. */
  method ApplyToNode(w: World, s: Snapshot, op: Operation) returns (r: Outcome)
    requires op.StartNode? || op.StopNode? || op.Shutdown? || op.RestartNode? || op.CreateDocument? || op.AddBlob?
             || op.WriteEntry? || op.CollectGarbage? || op.SetStorageFault? || op.Migrate?
    ensures r == Applied(w, s, op)
  {
    match op
    case StartNode(n) =>
      if n in s.nodes {
        return Err(NodeAlreadyExists);
      }
      if |s.nodes| >= w.config.maxNodes {
        return Err(NodeLimit);
      }
      var node := NodeState(w.identityFor(n), true, false, CURRENT_STORAGE_SCHEMA, map[], map[]);
      return Ok(SetNode(s, n, node));
    case StopNode(n) =>
      var node :- RunningNode(s, n);
      return Ok(SetNode(s, n, node.(running := false)));
    case Shutdown(n) =>
      var node :- RunningNode(s, n);
      return Ok(SetNode(s, n, node.(running := false)));
    case RestartNode(n) =>
      if n !in s.nodes {
        return Err(NodeNotFound);
      }
      var node := s.nodes[n];
      if node.running {
        return Err(NodeAlreadyRunning);
      }
      return Ok(SetNode(s, n, node.(running := true)));
    case CreateDocument(n, d) =>
      var node :- WritableNode(s, n);
      if d in node.documents {
        return Err(DocumentAlreadyExists);
      }
      if |node.documents| >= w.config.maxDocumentsPerNode {
        return Err(DocumentLimit);
      }
      var documents := node.documents[d := Replica(Write, map[])];
      return Ok(SetNode(s, n, node.(documents := documents)));
    case AddBlob(n, bytes) =>
      if |bytes| > w.config.maxBlobBytes {
        return Err(BlobTooLarge);
      }
      r := StoreBlob(w, s, n, w.hash(bytes), bytes);
    case WriteEntry(n, d, key, blob) =>
      r := WriteInPlace(w, s, n, d, key, blob);
    case CollectGarbage(n) =>
      r := CollectGarbage(s, n);
    case SetStorageFault(n, enabled) =>
      var node :- RunningNode(s, n);
      return Ok(SetNode(s, n, node.(storageFault := enabled)));
    case Migrate(n, target) =>
      if target == 0 || target > CURRENT_STORAGE_SCHEMA {
        return Err(UnsupportedStorageSchema);
      }
      var node :- WritableNode(s, n);
      if target < node.storageSchema {
        return Err(UnsupportedStorageSchema);
      }
      return Ok(SetNode(s, n, node.(storageSchema := target)));
  }

  method WriteInPlace(w: World, s: Snapshot, n: NodeId, d: DocumentId, key: Key, blob: BlobHash) returns (r: Outcome)
    ensures r == Written(w, s, n, d, key, blob)
  {
    if key == [] || |key| > MAX_KEY_BYTES {
      return Err(InvalidEntryKey);
    }
    var revision := SaturatingSucc(s.revision);
    var node :- WritableNode(s, n);
    if d !in node.documents {
      return Err(DocumentNotFound);
    }
    var replica := node.documents[d];
    if replica.capability != Write {
      return Err(WriteCapabilityRequired);
    }
    if key !in replica.entries && |replica.entries| >= w.config.maxEntriesPerDocument {
      return Err(EntryLimit);
    }
    replica := replica.(entries := replica.entries[key := Entry(n, revision, blob)]);
    node := node.(documents := node.documents[d := replica]);
    var next := SetNode(s, n, node);
    return Ok(next.(revision := revision));
  }

  /** Operations that involve two nodes or the network between them. */
  method ApplyToNetwork(w: World, s: Snapshot, op: Operation) returns (r: Outcome)
    requires op.FetchBlob? || op.Partition? || op.Heal? || op.SetDeliveryFault? || op.DuplicateNext? || op.ReorderNext?
             || op.DropNext?
    ensures r == Applied(w, s, op)
  {
    match op
    case FetchBlob(from, to, h) =>
      var _ :- RequireConnected(s, from, to);
      var source := s.nodes[from];
      if h !in source.blobs {
        return Err(BlobMissing);
      }
      r := StoreBlob(w, s, to, h, source.blobs[h]);
    case Partition(left, right) =>
      var _ :- RunningNode(s, left);
      var _ :- RunningNode(s, right);
      return Ok(s.(partitions := s.partitions + {Pair(left, right)}));
    case Heal(left, right) =>
      var _ :- RunningNode(s, left);
      var _ :- RunningNode(s, right);
      return Ok(s.(partitions := s.partitions - {Pair(left, right)}));
    case SetDeliveryFault(fault) =>
      return Ok(s.(faults := s.faults + {fault}));
    case DuplicateNext =>
      return Ok(s.(faults := s.faults + {Duplicate}));
    case ReorderNext =>
      return Ok(s.(faults := s.faults + {Reorder}));
    case DropNext =>
      return Ok(s.(faults := s.faults + {Drop}));
  }

  method ShareDocument(w: World, s: Snapshot, from: NodeId, to: NodeId, d: DocumentId, c: Capability)
    returns (r: Outcome)
    ensures r == Shared(w, s, from, to, d, c)
  {
    hide Enqueued, MessageFrom;
    var _ :- RequireConnected(s, from, to);
    var source := s.nodes[from];
    if d !in source.documents {
      return Err(DocumentNotFound);
    }
    if !source.documents[d].capability.Permits(c) {
      return Err(CapabilityEscalation);
    }
    var message := MakeMessage(source, from, to, d, Some(c));
    r := Send(w, s, message);
  }

  method SynchronizeNodes(w: World, s: Snapshot, left: NodeId, right: NodeId, d: DocumentId) returns (r: Outcome)
    ensures r == Synchronized(w, s, left, right, d)
  {
    hide Enqueued, MessageFrom;
    var l :- RunningNode(s, left);
    var rt :- RunningNode(s, right);
    var messages := [];
    if d in l.documents {
      var message := MakeMessage(l, left, right, d, None);
      messages := messages + [message];
    }
    if d in rt.documents {
      var message := MakeMessage(rt, right, left, d, None);
      messages := messages + [message];
    }
    if messages == [] {
      return Err(DocumentNotFound);
    }
    SentOneOrTwo(w, s, MessageFrom(l, left, right, d, None), MessageFrom(rt, right, left, d, None));
    SentOneOrTwo(w, s, MessageFrom(rt, right, left, d, None), MessageFrom(rt, right, left, d, None));
    r := SendInOrder(w, s, messages);
  }

  method ApplyToSnapshot(w: World, s: Snapshot, op: Operation) returns (r: Outcome)
    ensures r == Applied(w, s, op)
  {
    hide Delivered, Shared, Synchronized;
    if op.DeliverAll? {
      r := DeliverPending(w, s);
    } else if op.Share? {
      r := ShareDocument(w, s, op.from, op.to, op.document, op.capability);
    } else if op.Synchronize? {
      r := SynchronizeNodes(w, s, op.left, op.right, op.document);
    } else if op.FetchBlob? || op.Partition? || op.Heal? || op.SetDeliveryFault? || op.DuplicateNext?
              || op.ReorderNext? || op.DropNext? {
      r := ApplyToNetwork(w, s, op);
    } else {
      r := ApplyToNode(w, s, op);
    }
  }

  function SentInOrder(w: World, s: Snapshot, messages: seq<Result<Message, Error>>): Outcome
    decreases |messages|
  {
    if messages == [] then Ok(s) else
    var next :- Sent(w, s, messages[0]);
    SentInOrder(w, next, messages[1..])
  }

  lemma SentOneOrTwo(w: World, s: Snapshot, a: Result<Message, Error>, b: Result<Message, Error>)
    ensures SentInOrder(w, s, [a]) == Sent(w, s, a)
    ensures SentInOrder(w, s, [a, b]) == if Sent(w, s, a).Err? then Sent(w, s, a) else Sent(w, Sent(w, s, a).value, b)
  {
    hide Sent;
    assert [a, b][1..] == [b];
    assert [b][1..] == [];
    assert [a][1..] == [];
    if Sent(w, s, a).Ok? {
      var next := Sent(w, s, a).value;
      assert SentInOrder(w, next, [b]) == Sent(w, next, b);
    }
  }

  method SendInOrder(w: World, s: Snapshot, messages: seq<Result<Message, Error>>) returns (r: Outcome)
    ensures r == SentInOrder(w, s, messages)
  {
    hide Sent;
    var next := s;
    for i := 0 to |messages|
      invariant SentInOrder(w, s, messages) == SentInOrder(w, next, messages[i..])
    {
      next :- Send(w, next, messages[i]);
    }
    return Ok(next);
  }

  // ---------------------------------------------------------------- the model object

  class ApplicationModel {
    const w: World
    var nodes: map<NodeId, NodeState>
    var partitions: set<(NodeId, NodeId)>
    var pending: seq<Message>
    var faults: set<DeliveryFault>
    var trace: seq<TraceEvent>
    var revision: nat

    constructor (w: World)
      ensures this.w == w && State() == FRESH
    {
      this.w := w;
      nodes, partitions, pending, faults, trace, revision := map[], {}, [], {}, [], 0;
    }

    /** Creates an empty model after validating every resource ceiling. */
    static method New(w: World) returns (r: Result<ApplicationModel, Error>)
      ensures r.Ok? <==> w.config.Valid()
      ensures r.Ok? ==> fresh(r.value) && r.value.w == w && r.value.Valid() && r.value.State() == FRESH
      ensures r.Err? ==> r.error == InvalidBounds
    {
      if !w.config.Valid() {
        return Err(InvalidBounds);
      }
      var m := new ApplicationModel(w);
      FreshInv(w);
      return Ok(m);
    }

    function TakeSnapshot(): Snapshot
      reads this
    {
      Snapshot(nodes, partitions, pending, faults, revision)
    }

    function State(): Model
      reads this
    {
      Model(TakeSnapshot(), trace)
    }

    ghost predicate Valid()
      reads this
    {
      w.config.Valid() && Inv(w, State())
    }

    /** Applies one operation atomically, or leaves state and trace unchanged. */
    method Apply(op: Operation) returns (r: Result<(), Error>)
      requires Valid()
      modifies this
      ensures Valid()
      ensures match Application.Apply(w, old(State()), op)
              case Ok(next) => r == Ok(()) && State() == next
              case Err(e) => r == Err(e) && State() == old(State())
    {
      hide Inv, Applied;
      if |trace| >= w.config.maxTraceEvents {
        return Err(TraceLimit);
      }
      ghost var before := State();
      var next :- ApplyToSnapshot(w, TakeSnapshot(), op);
      nodes, partitions, pending := next.nodes, next.partitions, next.pending;
      faults, revision := next.faults, next.revision;
      trace := trace + [TraceEvent(SaturatingSucc(|trace|), op)];
      assert Application.Apply(w, before, op) == Ok(State());
      ApplyKeepsInv(w, before, op);
      return Ok(());
    }

    /** Runs a scenario up to its first failure; the record holds exactly the events it added. */
    method Run(scenario: Scenario) returns (r: Result<RunRecord, Error>)
      requires Valid()
      modifies this
      ensures Valid()
      ensures !scenario.Identified(w) ==> r == Err(InvalidScenarioIdentity) && State() == old(State())
      ensures scenario.Identified(w) ==>
                var ran := Ran(w, old(State()), scenario.operations);
                && State() == ran.0
                && (ran.1.Err? ==> r == Err(ran.1.error))
                && (ran.1.Ok? ==> old(trace) <= trace
                                  && r == Ok(RunRecord(scenario.seed, scenario.candidateSha, scenario.artifactVersion,
                                                       trace[|old(trace)|..])))
      ensures scenario.Identified(w) ==>
                forall attempts | After(w, attempts) == old(State()) ::
                  IsAttempts(w, attempts, scenario.operations, (State(), if r.Ok? then Ok(()) else Err(r.error)))
    {
      hide Inv, Applied, IsAttempts;
      if !scenario.Identified(w) {
        return Err(InvalidScenarioIdentity);
      }
      var start := |trace|;
      ghost var before := State();
      forall attempts | After(w, attempts) == before
        ensures IsAttempts(w, attempts, scenario.operations, Ran(w, before, scenario.operations))
      {
        RanIsAttempts(w, attempts, scenario.operations);
      }
      var i := 0;
      while i < |scenario.operations|
        invariant 0 <= i <= |scenario.operations|
        invariant Valid() && before.trace <= trace
        invariant Ran(w, before, scenario.operations) == Ran(w, State(), scenario.operations[i..])
      {
        var _ :- Apply(scenario.operations[i]);
        i := i + 1;
      }
      var checked := AssertInvariants();
      assert checked.Ok?;
      return Ok(RunRecord(scenario.seed, scenario.candidateSha, scenario.artifactVersion, trace[start..]));
    }

    /** The run-time self-check, node by node. */
    method AssertInvariants() returns (r: Result<(), Error>)
      ensures r.Ok? <==> SelfCheck(w, State())
      ensures Valid() ==> r.Ok?
      ensures r.Err? ==> r.error.Invariant?
    {
      if Valid() { SelfCheckHolds(w, State()); }
      if |nodes| > w.config.maxNodes || |pending| > w.config.maxPendingMessages || |trace| > w.config.maxTraceEvents {
        return Err(Invariant("resource bound"));
      }
      var rest := nodes.Keys;
      while rest != {}
        invariant rest <= nodes.Keys
        invariant forall n | n in nodes && n !in rest :: NodeOk(w, n, nodes[n])
        decreases |rest|
      {
        var n := Least(rest);
        var checked := CheckNode(w, n, nodes[n]);
        if checked.Err? {
          return checked;
        }
        rest := rest - {n};
      }
      return Ok(());
    }
  }

  lemma SelfCheckHolds(w: World, m: Model)
    requires Inv(w, m)
    ensures SelfCheck(w, m)
  {
    hide NodeOk, BlobsOk, Authority, Provenance;
  }

  method CheckNode(w: World, n: NodeId, node: NodeState) returns (r: Result<(), Error>)
    ensures r.Ok? <==> NodeOk(w, n, node)
    ensures r.Err? ==> r.error.Invariant?
  {
    if node.identity != w.identityFor(n) {
      return Err(Invariant("stable identity"));
    }
    if |node.documents| > w.config.maxDocumentsPerNode || |node.blobs| > w.config.maxBlobsPerNode {
      return Err(Invariant("per-node resource bound"));
    }
    var hashes := node.blobs.Keys;
    while hashes != {}
      invariant hashes <= node.blobs.Keys
      invariant forall h | h in node.blobs && h !in hashes ::
                  Matches(w, h, node.blobs[h]) && |node.blobs[h]| <= w.config.maxBlobBytes
      decreases |hashes|
    {
      var h := Least(hashes);
      if h != w.hash(node.blobs[h]) || |node.blobs[h]| > w.config.maxBlobBytes {
        assert !BlobsOk(w, node.blobs);
        return Err(Invariant("blob hash matches bytes"));
      }
      hashes := hashes - {h};
    }
    if exists d | d in node.documents :: |node.documents[d].entries| > w.config.maxEntriesPerDocument {
      return Err(Invariant("document entry bound"));
    }
    return Ok(());
  }
}
