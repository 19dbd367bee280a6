/** Exactly which operations succeed in a reachable state, and that every error reported is true of it. */
module ApplicationOutcomes {
  import opened Base
  import opened Application
  import opened ApplicationMerge
  import opened ApplicationBounds
  import opened ApplicationHistory
  import opened ApplicationRuns
  import opened ApplicationConvergence
  import opened ApplicationDelivery
  import opened ApplicationMessages
  import opened ApplicationStatus

  /** Node `n` has or may get one more of what it holds `size` of. */
  predicate HasRoom(has: bool, size: nat, limit: nat) {
    has || size < limit
  }

  predicate BlobFits(w: World, s: Snapshot, n: NodeId, h: BlobHash) {
    CanStore(s, n) && HasRoom(h in BlobsOf(s, n), |BlobsOf(s, n)|, w.config.maxBlobsPerNode)
  }

  /** How many messages a Synchronize queues: pending faults concern the first of them only. */
  function Exchanging(s: Snapshot, left: NodeId, right: NodeId, d: DocumentId): nat {
    Repetitions(s) + (if CapabilityOf(s, left, d).Some? && CapabilityOf(s, right, d).Some? then 1 else 0)
  }

  /** What an operation asks of the state. */
  ghost predicate Permitted(w: World, s: Snapshot, op: Operation) {
    match op
    case StartNode(n) => n !in s.nodes && |s.nodes| < w.config.maxNodes
    case StopNode(n) => Up(s, n)
    case Shutdown(n) => Up(s, n)
    case RestartNode(n) => n in s.nodes && !Up(s, n)
    case CreateDocument(n, d) =>
      CanStore(s, n) && CapabilityOf(s, n, d).None? && |DocumentsOf(s, n)| < w.config.maxDocumentsPerNode
    case AddBlob(n, bytes) => |bytes| <= w.config.maxBlobBytes && BlobFits(w, s, n, w.hash(bytes))
    case WriteEntry(n, d, key, _) =>
      && 0 < |key| <= MAX_KEY_BYTES && CanStore(s, n) && HoldsWrite(s, n, d)
      && HasRoom(key in EntriesOf(s, n, d), |EntriesOf(s, n, d)|, w.config.maxEntriesPerDocument)
    case Share(from, to, d, c) =>
      && Up(s, from) && Up(s, to) && !Separated(s, from, to)
      && CapabilityOf(s, from, d).Some? && (c == Write ==> HoldsWrite(s, from, d))
      && |s.pending| + Repetitions(s) <= w.config.maxPendingMessages
    case FetchBlob(from, to, h) =>
      Up(s, from) && !Separated(s, from, to) && h in BlobsOf(s, from) && BlobFits(w, s, to, h)
    case Synchronize(left, right, d) =>
      && Up(s, left) && Up(s, right) && (CapabilityOf(s, left, d).Some? || CapabilityOf(s, right, d).Some?)
      && |s.pending| + Exchanging(s, left, right, d) <= w.config.maxPendingMessages
    case CollectGarbage(n) => CanStore(s, n)
    case Partition(left, right) => Up(s, left) && Up(s, right)
    case Heal(left, right) => Up(s, left) && Up(s, right)
    case SetDeliveryFault(_) => true
    case DuplicateNext => true
    case ReorderNext => true
    case DropNext => true
    case DeliverAll => AllReceivable(s, 0) && PassFits(w, s, |s.pending|)
    case SetStorageFault(n, _) => Up(s, n)
    case Migrate(n, target) => target == CURRENT_STORAGE_SCHEMA && CanStore(s, n)
  }

  // ---------------------------------------------------------------- storage schemas

  predicate CurrentSchemas(s: Snapshot) {
    forall n | n in s.nodes :: s.nodes[n].storageSchema == CURRENT_STORAGE_SCHEMA
  }

  lemma SchemaStep(w: World, s: Snapshot, op: Operation)
    requires AllHashed(w, s.pending) && CurrentSchemas(s) && Applied(w, s, op).Ok?
    ensures CurrentSchemas(Applied(w, s, op).value)
  {
    hide Applied, AllHashed;
    if op.DeliverAll? {
      DeliveryKeepsSchemas(w, s);
    } else if op.Share? || op.Synchronize? {
      SendingClears(w, s, op);
    } else {
      OthersKeepSchemas(w, s, op);
    }
  }

  lemma DeliveryKeepsSchemas(w: World, s: Snapshot)
    requires AllHashed(w, s.pending) && CurrentSchemas(s) && Applied(w, s, DeliverAll).Ok?
    ensures CurrentSchemas(Applied(w, s, DeliverAll).value)
  {
    hide AllHashed, Delivered;
    DeliveredStatus(w, s, |s.pending|);
  }

  lemma OthersKeepSchemas(w: World, s: Snapshot, op: Operation)
    requires CurrentSchemas(s) && Applied(w, s, op).Ok? && !op.DeliverAll? && !op.Share? && !op.Synchronize?
    ensures CurrentSchemas(Applied(w, s, op).value)
  {
    hide References;
  }

  /** No node ever leaves the one schema there is. */
  lemma {:induction false} SchemasStayCurrent(w: World, attempts: seq<Operation>)
    requires w.config.Valid()
    ensures CurrentSchemas(After(w, attempts).snapshot)
  {
    hide Inv, Applied, AllHashed, RevisionsBelow, CurrentSchemas;
    if attempts == [] {
      assert CurrentSchemas(EMPTY) by { NoSchemas(); }
    } else {
      var init, op := attempts[..|attempts| - 1], attempts[|attempts| - 1];
      SchemasStayCurrent(w, init);
      if Apply(w, After(w, init), op).Ok? {
        RunsKeepInv(w, init);
        InvSupportsStep(w, After(w, init));
        SchemaStep(w, After(w, init).snapshot, op);
      }
    }
  }

  lemma NoSchemas()
    ensures CurrentSchemas(EMPTY)
  {
  }

  // ---------------------------------------------------------------- exactly when operations succeed

  lemma EnqueuedIff(w: World, s: Snapshot, m: Message)
    requires |s.pending| <= w.config.maxPendingMessages
    ensures Enqueued(w, s, m).Ok? <==> |s.pending| + Repetitions(s) <= w.config.maxPendingMessages
    ensures Enqueued(w, s, m).Ok? ==>
              && |Enqueued(w, s, m).value.pending| == |s.pending| + Repetitions(s)
              && Repetitions(Enqueued(w, s, m).value) == 1
    ensures Enqueued(w, s, m).Err? ==> Enqueued(w, s, m).error == PendingMessageLimit
  {
  }

  lemma MessageMade(s: Snapshot, from: NodeId, to: NodeId, d: DocumentId, grant: Option<Capability>)
    requires from in s.nodes
    ensures MessageFrom(s.nodes[from], from, to, d, grant).Ok? <==> CapabilityOf(s, from, d).Some?
  {
  }

  lemma SharePermitted(w: World, s: Snapshot, from: NodeId, to: NodeId, d: DocumentId, c: Capability)
    requires |s.pending| <= w.config.maxPendingMessages
    ensures Applied(w, s, Share(from, to, d, c)).Ok? <==> Permitted(w, s, Share(from, to, d, c))
  {
    hide MessageFrom, Enqueued, Repetitions, Separated;
    if Up(s, from) && Up(s, to) {
      MessageMade(s, from, to, d, Some(c));
      var message := MessageFrom(s.nodes[from], from, to, d, Some(c));
      if message.Ok? { EnqueuedIff(w, s, message.value); }
    }
  }

  lemma SynchronizePermitted(w: World, s: Snapshot, left: NodeId, right: NodeId, d: DocumentId)
    requires |s.pending| <= w.config.maxPendingMessages
    ensures Applied(w, s, Synchronize(left, right, d)).Ok? <==> Permitted(w, s, Synchronize(left, right, d))
  {
    hide MessageFrom, Enqueued, Repetitions, Separated;
    if Up(s, left) && Up(s, right) {
      MessageMade(s, left, right, d, None);
      MessageMade(s, right, left, d, None);
      var there := MessageFrom(s.nodes[left], left, right, d, None);
      var back := MessageFrom(s.nodes[right], right, left, d, None);
      if there.Ok? {
        EnqueuedIff(w, s, there.value);
        var first := Enqueued(w, s, there.value);
        if first.Ok? && back.Ok? { EnqueuedIff(w, first.value, back.value); }
      } else if back.Ok? {
        EnqueuedIff(w, s, back.value);
      }
    }
  }

  lemma StatusPermitted(w: World, s: Snapshot, op: Operation)
    requires !ChangesContents(op) && !op.DeliverAll? && !op.Share? && !op.Synchronize?
    ensures Applied(w, s, op).Ok? <==> Permitted(w, s, op)
  {
    hide Pair;
  }

  lemma ContentsPermitted(w: World, s: Snapshot, op: Operation)
    requires CurrentSchemas(s) && ChangesContents(op)
    ensures Applied(w, s, op).Ok? <==> Permitted(w, s, op)
  {
    hide Pair, References;
  }

  /** In every reachable state an operation succeeds exactly if the state permits it and the trace has room. */
  lemma SucceedsIffPermitted(w: World, attempts: seq<Operation>, op: Operation)
    requires w.config.Valid()
    ensures var m := After(w, attempts);
            Apply(w, m, op).Ok? <==> |m.trace| < w.config.maxTraceEvents && Permitted(w, m.snapshot, op)
  {
    hide After, Inv, WellFormed, Applied, Permitted, CurrentSchemas;
    var m := After(w, attempts);
    RunsKeepInv(w, attempts);
    InvIsWellFormed(w, m);
    QueueWithin(w, m.snapshot);
    SchemasStayCurrent(w, attempts);
    match op
    case DeliverAll => DeliveryPermitted(w, attempts);
    case Share(from, to, d, c) => SharePermitted(w, m.snapshot, from, to, d, c);
    case Synchronize(left, right, d) => SynchronizePermitted(w, m.snapshot, left, right, d);
    case _ =>
      if ChangesContents(op) { ContentsPermitted(w, m.snapshot, op); } else { StatusPermitted(w, m.snapshot, op); }
  }

  lemma DeliveryPermitted(w: World, attempts: seq<Operation>)
    requires w.config.Valid()
    ensures var s := After(w, attempts).snapshot; Applied(w, s, DeliverAll).Ok? <==> Permitted(w, s, DeliverAll)
  {
    hide Applied, After;
    DeliverySucceedsIff(w, attempts);
  }

  lemma QueueWithin(w: World, s: Snapshot)
    requires WellFormed(w, s)
    ensures |s.pending| <= w.config.maxPendingMessages
  {
    hide NodeOk, BlobsOk;
  }

  // ---------------------------------------------------------------- every error is true

  /** The nodes an operation asks about. */
  function Asks(s: Snapshot, op: Operation): set<NodeId> {
    match op
    case Share(from, to, _, _) => {from, to}
    case FetchBlob(from, to, _) => {from, to}
    case Synchronize(left, right, _) => {left, right}
    case Partition(left, right) => {left, right}
    case Heal(left, right) => {left, right}
    case DeliverAll => set m | m in s.pending :: m.to
    case SetDeliveryFault(_) => {}
    case DuplicateNext => {}
    case ReorderNext => {}
    case DropNext => {}
    case _ => {op.node}
  }

  /** What an error says of the state and the operation. */
  ghost predicate Reason(w: World, s: Snapshot, op: Operation, e: Error) {
    match e
    case NodeLimit => op.StartNode? && |s.nodes| >= w.config.maxNodes
    case NodeAlreadyExists => op.StartNode? && op.node in s.nodes
    case NodeNotFound => exists n :: n in Asks(s, op) && n !in s.nodes
    case NodeNotRunning => exists n :: n in Asks(s, op) && n in s.nodes && !s.nodes[n].running
    case NodeAlreadyRunning => op.RestartNode? && Up(s, op.node)
    case StorageUnavailable => exists n :: n in Asks(s, op) && n in s.nodes && s.nodes[n].storageFault
    case DocumentNotFound =>
      || (op.WriteEntry? && CapabilityOf(s, op.node, op.document).None?)
      || (op.Share? && CapabilityOf(s, op.from, op.document).None?)
      || (op.Synchronize? && CapabilityOf(s, op.left, op.document).None?
          && CapabilityOf(s, op.right, op.document).None?)
    case DocumentAlreadyExists => op.CreateDocument? && CapabilityOf(s, op.node, op.document).Some?
    case DocumentLimit =>
      || (op.CreateDocument? && |DocumentsOf(s, op.node)| >= w.config.maxDocumentsPerNode)
      || (op.DeliverAll? && exists n :: |DocumentsAfter(s, |s.pending|, n)| > w.config.maxDocumentsPerNode)
    case InvalidEntryKey => op.WriteEntry? && (op.key == [] || |op.key| > MAX_KEY_BYTES)
    case EntryLimit =>
      || (op.WriteEntry? && |EntriesOf(s, op.node, op.document)| >= w.config.maxEntriesPerDocument)
      || (op.DeliverAll? && exists n, d :: |KeysAfter(s, |s.pending|, n, d)| > w.config.maxEntriesPerDocument)
    case WriteCapabilityRequired => op.WriteEntry? && CapabilityOf(s, op.node, op.document) == Some(Read)
    case CapabilityEscalation =>
      op.Share? && op.capability == Write && CapabilityOf(s, op.from, op.document) == Some(Read)
    case BlobTooLarge => op.AddBlob? && |op.bytes| > w.config.maxBlobBytes
    case BlobLimit =>
      || (op.AddBlob? && |BlobsOf(s, op.node)| >= w.config.maxBlobsPerNode)
      || (op.FetchBlob? && |BlobsOf(s, op.to)| >= w.config.maxBlobsPerNode)
      || (op.DeliverAll? && exists n :: |HashesAfter(s, |s.pending|, n)| > w.config.maxBlobsPerNode)
    case BlobMissing => op.FetchBlob? && op.blob !in BlobsOf(s, op.from)
    case Partitioned =>
      (op.Share? && Separated(s, op.from, op.to)) || (op.FetchBlob? && Separated(s, op.from, op.to))
    case PendingMessageLimit =>
      || (op.Share? && |s.pending| + Repetitions(s) > w.config.maxPendingMessages)
      || (op.Synchronize?
          && |s.pending| + Exchanging(s, op.left, op.right, op.document) > w.config.maxPendingMessages)
    case UnsupportedStorageSchema => op.Migrate? && op.targetSchema != CURRENT_STORAGE_SCHEMA
    case _ => false
  }

  /** A node that is missing, stopped or faulty is reason enough, if the operation asks about it. */
  lemma NodeReasons(w: World, s: Snapshot, op: Operation, n: NodeId)
    requires n in Asks(s, op)
    ensures RunningNode(s, n).Err? ==> Reason(w, s, op, RunningNode(s, n).error)
    ensures WritableNode(s, n).Err? ==> Reason(w, s, op, WritableNode(s, n).error)
  {
    hide Asks;
  }

  lemma StatusReasons(w: World, s: Snapshot, op: Operation)
    requires !ChangesContents(op) && !op.DeliverAll? && !op.Share? && !op.Synchronize? && Applied(w, s, op).Err?
    ensures Reason(w, s, op, Applied(w, s, op).error)
  {
    hide Pair;
    if op.Partition? || op.Heal? {
      NodeReasons(w, s, op, op.left);
      NodeReasons(w, s, op, op.right);
    } else {
      assert Asks(s, op) == {op.node};
      NodeReasons(w, s, op, op.node);
    }
  }

  lemma AddReasons(w: World, s: Snapshot, n: NodeId, bytes: Bytes)
    requires Applied(w, s, AddBlob(n, bytes)).Err?
    ensures Reason(w, s, AddBlob(n, bytes), Applied(w, s, AddBlob(n, bytes)).error)
  {
    NodeReasons(w, s, AddBlob(n, bytes), n);
  }

  lemma FetchReasons(w: World, s: Snapshot, from: NodeId, to: NodeId, h: BlobHash)
    requires Applied(w, s, FetchBlob(from, to, h)).Err?
    ensures Reason(w, s, FetchBlob(from, to, h), Applied(w, s, FetchBlob(from, to, h)).error)
  {
    hide Separated;
    NodeReasons(w, s, FetchBlob(from, to, h), from);
    NodeReasons(w, s, FetchBlob(from, to, h), to);
  }

  lemma WriteReasons(w: World, s: Snapshot, n: NodeId, d: DocumentId, key: Key, blob: BlobHash)
    requires Applied(w, s, WriteEntry(n, d, key, blob)).Err?
    ensures Reason(w, s, WriteEntry(n, d, key, blob), Applied(w, s, WriteEntry(n, d, key, blob)).error)
  {
    NodeReasons(w, s, WriteEntry(n, d, key, blob), n);
  }

  lemma DocumentReasons(w: World, s: Snapshot, op: Operation)
    requires CurrentSchemas(s) && (op.CreateDocument? || op.CollectGarbage? || op.Migrate?) && Applied(w, s, op).Err?
    ensures Reason(w, s, op, Applied(w, s, op).error)
  {
    hide References;
    NodeReasons(w, s, op, op.node);
  }

  lemma ShareReasons(w: World, s: Snapshot, from: NodeId, to: NodeId, d: DocumentId, c: Capability)
    requires |s.pending| <= w.config.maxPendingMessages && Applied(w, s, Share(from, to, d, c)).Err?
    ensures Reason(w, s, Share(from, to, d, c), Applied(w, s, Share(from, to, d, c)).error)
  {
    hide MessageFrom, Enqueued, Repetitions, Separated;
    NodeReasons(w, s, Share(from, to, d, c), from);
    NodeReasons(w, s, Share(from, to, d, c), to);
    if Up(s, from) && Up(s, to) {
      MessageMade(s, from, to, d, Some(c));
      var message := MessageFrom(s.nodes[from], from, to, d, Some(c));
      if message.Ok? { EnqueuedIff(w, s, message.value); }
    }
  }

  lemma SynchronizeReasons(w: World, s: Snapshot, left: NodeId, right: NodeId, d: DocumentId)
    requires |s.pending| <= w.config.maxPendingMessages && Applied(w, s, Synchronize(left, right, d)).Err?
    ensures Reason(w, s, Synchronize(left, right, d), Applied(w, s, Synchronize(left, right, d)).error)
  {
    hide MessageFrom, Enqueued, Repetitions, Separated;
    NodeReasons(w, s, Synchronize(left, right, d), left);
    NodeReasons(w, s, Synchronize(left, right, d), right);
    if Up(s, left) && Up(s, right) {
      MessageMade(s, left, right, d, None);
      MessageMade(s, right, left, d, None);
      var there := MessageFrom(s.nodes[left], left, right, d, None);
      var back := MessageFrom(s.nodes[right], right, left, d, None);
      if there.Ok? {
        EnqueuedIff(w, s, there.value);
        var first := Enqueued(w, s, there.value);
        if first.Ok? && back.Ok? { EnqueuedIff(w, first.value, back.value); }
      } else if back.Ok? {
        EnqueuedIff(w, s, back.value);
      }
    }
  }

  // ---------------------------------------------------------------- errors of a delivery

  /** What the error of one step of a pass says. */
  lemma HeadErrors(w: World, t: Snapshot)
    requires t.pending != [] && Hashed(w, t.pending[0].blobs) && DeliveredOne(w, t).Err?
    ensures var e, m := DeliveredOne(w, t).error, t.pending[0];
            || RunningNode(t, m.to) == Err(e)
            || WritableNode(t, m.to) == Err(e)
            || (e == DocumentLimit && |DocumentsOf(t, m.to) + {m.document}| > w.config.maxDocumentsPerNode)
            || (e == EntryLimit
                && |EntriesOf(t, m.to, m.document).Keys + m.entries.Keys| > w.config.maxEntriesPerDocument)
            || (e == BlobLimit && |BlobsOf(t, m.to).Keys + m.blobs.Keys| > w.config.maxBlobsPerNode)
    ensures HeadStuck(t) ==> RunningNode(t, t.pending[0].to) == Err(DeliveredOne(w, t).error)
  {
    hide Hashed, Received, Fits, EntriesOf, BlobsOf, DocumentsOf;
    var m := t.pending[0];
    var popped := t.(pending := t.pending[1..]);
    if Received(w, popped, m).Err? {
      ReceivedErrors(w, popped, m);
      if m.to in t.nodes { LimitErrors(w, t, m); }
    }
  }

  /** The limits that a message breaks at its destination, in terms of what is observed there. */
  lemma LimitErrors(w: World, t: Snapshot, m: Message)
    requires m.to in t.nodes
    ensures var node := t.nodes[m.to];
            && (m.document !in node.documents && |node.documents| >= w.config.maxDocumentsPerNode
                ==> |DocumentsOf(t, m.to) + {m.document}| > w.config.maxDocumentsPerNode)
            && ((m.document in node.documents || m.grant.Some?)
                && !Fits(w.config.maxEntriesPerDocument, Landing(node, m).entries, m.entries.Keys)
                ==> |EntriesOf(t, m.to, m.document).Keys + m.entries.Keys| > w.config.maxEntriesPerDocument)
            && (!Fits(w.config.maxBlobsPerNode, node.blobs, m.blobs.Keys)
                ==> |BlobsOf(t, m.to).Keys + m.blobs.Keys| > w.config.maxBlobsPerNode)
  {
    var node := t.nodes[m.to];
    assert m.document in node.documents || m.grant.Some?
      ==> Landing(node, m).entries == EntriesOf(t, m.to, m.document);
    assert BlobsOf(t, m.to) == node.blobs && DocumentsOf(t, m.to) == node.documents.Keys;
    hide Fits, Landing, EntriesOf, BlobsOf, DocumentsOf;
    DoesNotFit(w.config.maxEntriesPerDocument, EntriesOf(t, m.to, m.document), m.entries.Keys);
    DoesNotFit(w.config.maxBlobsPerNode, BlobsOf(t, m.to), m.blobs.Keys);
    OneDocumentMore(node.documents, m.document);
  }

  lemma OneDocumentMore(documents: map<DocumentId, Replica>, d: DocumentId)
    ensures d !in documents ==> |documents.Keys + {d}| == |documents| + 1
  {
  }

  lemma DoesNotFit<K, V>(limit: nat, have: map<K, V>, incoming: set<K>)
    ensures !Fits(limit, have, incoming) ==> |have.Keys + incoming| > limit
  {
  }

  lemma {:induction false} AfterGrows(s: Snapshot, k: nat, k': nat, n: NodeId, d: DocumentId)
    requires k <= k' <= |s.pending|
    ensures KeysAfter(s, k, n, d) <= KeysAfter(s, k', n, d)
    ensures HashesAfter(s, k, n) <= HashesAfter(s, k', n) && DocumentsAfter(s, k, n) <= DocumentsAfter(s, k', n)
    decreases k'
  {
    hide KeysAfter, HashesAfter, DocumentsAfter, Through;
    if k < k' {
      AfterGrows(s, k, k' - 1, n, d);
      OneMore(s, k' - 1, n, d);
    }
  }

  /** What does not fit now is part of what does not fit in the end. */
  lemma TooMuchInTheEnd(w: World, s: Snapshot, k: nat)
    requires k < |s.pending| && !Stuck(s, k)
    ensures var m, end := s.pending[k], |s.pending|;
            && |KeysAfter(s, k, m.to, m.document) + m.entries.Keys| <= |KeysAfter(s, end, m.to, m.document)|
            && |HashesAfter(s, k, m.to) + m.blobs.Keys| <= |HashesAfter(s, end, m.to)|
            && |DocumentsAfter(s, k, m.to) + {m.document}| <= |DocumentsAfter(s, end, m.to)|
  {
    hide KeysAfter, HashesAfter, DocumentsAfter, Stuck;
    var m, end := s.pending[k], |s.pending|;
    OneMore(s, k, m.to, m.document);
    AfterGrows(s, k + 1, end, m.to, m.document);
    SubsetSize(KeysAfter(s, k + 1, m.to, m.document), KeysAfter(s, end, m.to, m.document));
    SubsetSize(HashesAfter(s, k + 1, m.to), HashesAfter(s, end, m.to));
    SubsetSize(DocumentsAfter(s, k + 1, m.to), DocumentsAfter(s, end, m.to));
  }

  lemma SameNodeErrors(s: Snapshot, t: Snapshot, n: NodeId)
    requires SameStatus(s, t)
    ensures RunningNode(t, n).Err? ==> RunningNode(s, n) == RunningNode(t, n)
    ensures WritableNode(t, n).Err? ==> WritableNode(s, n) == WritableNode(t, n)
  {
  }

  /** A limit that the head of the queue breaks is one that the whole pass breaks. */
  lemma LimitReasons(w: World, s: Snapshot, k: nat, e: Error)
    requires k < |s.pending| && !Stuck(s, k)
    requires var m := s.pending[k];
             || (e == DocumentLimit && |DocumentsAfter(s, k, m.to) + {m.document}| > w.config.maxDocumentsPerNode)
             || (e == EntryLimit
                 && |KeysAfter(s, k, m.to, m.document) + m.entries.Keys| > w.config.maxEntriesPerDocument)
             || (e == BlobLimit && |HashesAfter(s, k, m.to) + m.blobs.Keys| > w.config.maxBlobsPerNode)
    ensures Reason(w, s, DeliverAll, e)
  {
    hide KeysAfter, HashesAfter, DocumentsAfter, Stuck;
    TooMuchInTheEnd(w, s, k);
  }

  lemma HeadReasons(w: World, s: Snapshot, t: Snapshot, k: nat)
    requires k < |s.pending| && AllHashed(w, s.pending) && Passed(s, t, k) && Counted(s, t, k)
    requires t.pending != [] && DeliveredOne(w, t).Err?
    ensures Reason(w, s, DeliverAll, DeliveredOne(w, t).error)
  {
    hide Hashed, DeliveredOne, HeadStuck, Stuck, HoldersAfter, EntriesAfter, BlobsAfter, ArrivedAfter, EntriesOf,
      BlobsOf,
      DocumentsOf, KeysAfter, HashesAfter, DocumentsAfter, RunningNode, WritableNode, StuckOnes, Reason;
    var m, e := s.pending[k], DeliveredOne(w, t).error;
    assert m in s.pending && m.to in Asks(s, DeliverAll);
    HeadStuckIff(s, t, k);
    HeadErrors(w, t);
    SameNodeErrors(s, t, m.to);
    NodeReasons(w, s, DeliverAll, m.to);
    assert EntriesOf(t, m.to, m.document).Keys == KeysAfter(s, k, m.to, m.document);
    assert BlobsOf(t, m.to).Keys == HashesAfter(s, k, m.to) && DocumentsOf(t, m.to) == DocumentsAfter(s, k, m.to);
    if RunningNode(t, m.to) != Err(e) && WritableNode(t, m.to) != Err(e) { LimitReasons(w, s, k, e); }
  }

  lemma {:induction false} PassReasons(w: World, s: Snapshot, t: Snapshot, k: nat)
    requires k <= |s.pending| && AllHashed(w, s.pending) && Unambiguous(t) && Passed(s, t, k) && Counted(s, t, k)
    requires |s.pending| - k <= |t.pending| && Delivered(w, t, |s.pending| - k).Err?
    ensures Reason(w, s, DeliverAll, Delivered(w, t, |s.pending| - k).error)
    decreases |s.pending| - k
  {
    hide Passed, Counted, Unambiguous, AllHashed, DeliveredOne, Reason;
    if DeliveredOne(w, t).Ok? {
      CountedStep(w, s, t, k);
      PassedStep(w, s, t, k);
      PassReasons(w, s, DeliveredOne(w, t).value, k + 1);
    } else {
      HeadReasons(w, s, t, k);
    }
  }

  lemma DeliveryReasons(w: World, attempts: seq<Operation>)
    requires w.config.Valid() && Applied(w, After(w, attempts).snapshot, DeliverAll).Err?
    ensures var s := After(w, attempts).snapshot; Reason(w, s, DeliverAll, Applied(w, s, DeliverAll).error)
  {
    hide Inv, After, Passed, Counted, Unambiguous, AllHashed, Delivered, RevisionsBelow, Reason;
    var m := After(w, attempts);
    RunsKeepInv(w, attempts);
    InvSupportsStep(w, m);
    InvIsUnambiguous(w, m);
    NothingPassed(m.snapshot);
    NothingCounted(m.snapshot);
    PassReasons(w, m.snapshot, m.snapshot, 0);
  }

  /** Whatever fails in a reachable state fails for the reason it reports. */
  lemma ErrorsAreTrue(w: World, attempts: seq<Operation>, op: Operation)
    requires w.config.Valid() && Apply(w, After(w, attempts), op).Err?
    ensures var m := After(w, attempts);
            var e := Apply(w, m, op).error;
            if |m.trace| >= w.config.maxTraceEvents then e == TraceLimit else Reason(w, m.snapshot, op, e)
  {
    hide After, Inv, WellFormed, Applied, Reason, CurrentSchemas;
    var m := After(w, attempts);
    RunsKeepInv(w, attempts);
    InvIsWellFormed(w, m);
    QueueWithin(w, m.snapshot);
    SchemasStayCurrent(w, attempts);
    if |m.trace| < w.config.maxTraceEvents {
      match op
      case DeliverAll => DeliveryReasons(w, attempts);
      case Share(from, to, d, c) => ShareReasons(w, m.snapshot, from, to, d, c);
      case Synchronize(left, right, d) => SynchronizeReasons(w, m.snapshot, left, right, d);
      case AddBlob(n, bytes) => AddReasons(w, m.snapshot, n, bytes);
      case FetchBlob(from, to, h) => FetchReasons(w, m.snapshot, from, to, h);
      case WriteEntry(n, d, key, blob) => WriteReasons(w, m.snapshot, n, d, key, blob);
      case _ =>
        if ChangesContents(op) { DocumentReasons(w, m.snapshot, op); } else { StatusReasons(w, m.snapshot, op); }
    }
  }
}
