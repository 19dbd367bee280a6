/**
 Every state of the model read off its history: which nodes run and can store, which are cut off, which faults are
 pending, who holds which document and which blobs; and exactly which operations then succeed.
 */
module ApplicationStatus {
  import opened Base
  import opened Application
  import opened ApplicationMerge
  import opened ApplicationHistory
  import opened ApplicationRuns
  import opened ApplicationConvergence
  import opened ApplicationDelivery
  import opened ApplicationMessages

  // ---------------------------------------------------------------- switches

  /** What operations switch on and off. */
  datatype Switch =
    | Known(n: NodeId)
    | Running(n: NodeId)
    | FaultyStorage(n: NodeId)
    | Cut(a: NodeId, b: NodeId)
    | FaultPending(fault: DeliveryFault)

  predicate TurnsOn(op: Operation, x: Switch) {
    match x
    case Known(n) => op == StartNode(n)
    case Running(n) => op == StartNode(n) || op == RestartNode(n)
    case FaultyStorage(n) => op == SetStorageFault(n, true)
    case Cut(a, b) => op == Partition(a, b) || op == Partition(b, a)
    case FaultPending(fault) =>
      || op == SetDeliveryFault(fault)
      || (fault == Drop && op == DropNext)
      || (fault == Duplicate && op == DuplicateNext)
      || (fault == Reorder && op == ReorderNext)
  }

  predicate TurnsOff(op: Operation, x: Switch) {
    match x
    case Known(_) => false
    case Running(n) => op == StopNode(n) || op == Shutdown(n)
    case FaultyStorage(n) => op == SetStorageFault(n, false)
    case Cut(a, b) => op == Heal(a, b) || op == Heal(b, a)
    case FaultPending(_) => op.Share? || op.Synchronize?
  }

  predicate IsOn(s: Snapshot, x: Switch) {
    match x
    case Known(n) => n in s.nodes
    case Running(n) => Up(s, n)
    case FaultyStorage(n) => n in s.nodes && s.nodes[n].storageFault
    case Cut(a, b) => Separated(s, a, b)
    case FaultPending(fault) => fault in s.faults
  }

  /** Some operation of the trace switched `x` on, and none after it switched it off. */
  ghost predicate LastTurnedOn(ops: seq<Operation>, x: Switch) {
    exists i :: 0 <= i < |ops| && TurnsOn(ops[i], x) && forall j | i < j < |ops| :: !TurnsOff(ops[j], x)
  }

  lemma LastTurnedOnStep(ops: seq<Operation>, op: Operation, x: Switch)
    ensures LastTurnedOn(ops + [op], x) <==> TurnsOn(op, x) || (LastTurnedOn(ops, x) && !TurnsOff(op, x))
  {
    hide TurnsOn, TurnsOff;
    var more := ops + [op];
    if TurnsOn(op, x) { assert TurnsOn(more[|ops|], x); }
    if LastTurnedOn(ops, x) && !TurnsOff(op, x) {
      var i :| 0 <= i < |ops| && TurnsOn(ops[i], x) && forall j | i < j < |ops| :: !TurnsOff(ops[j], x);
      assert TurnsOn(more[i], x);
    }
    if LastTurnedOn(more, x) && !TurnsOn(op, x) {
      var i :| 0 <= i < |more| && TurnsOn(more[i], x) && forall j | i < j < |more| :: !TurnsOff(more[j], x);
      assert TurnsOn(ops[i], x) && !TurnsOff(more[|ops|], x);
      forall j | i < j < |ops| ensures !TurnsOff(ops[j], x) { assert !TurnsOff(more[j], x); }
    }
  }

  lemma SameStatusTransitive(a: Snapshot, b: Snapshot, c: Snapshot)
    requires SameStatus(a, b) && SameStatus(b, c)
    ensures SameStatus(a, c)
  {
  }

  lemma {:induction false} DeliveredStatus(w: World, s: Snapshot, attempts: nat)
    requires attempts <= |s.pending| && AllHashed(w, s.pending) && Delivered(w, s, attempts).Ok?
    ensures SameStatus(s, Delivered(w, s, attempts).value)
    decreases attempts
  {
    hide Hashed, DeliveredOne, SameStatus, HeadStuck;
    if attempts == 0 {
      SameStatusAs(s, s);
    } else {
      var next := DeliveredOne(w, s).value;
      HeadStatus(w, s);
      DeliveredStatus(w, next, attempts - 1);
      SameStatusTransitive(s, next, Delivered(w, s, attempts).value);
    }
  }

  lemma SameStatusAs(s: Snapshot, t: Snapshot)
    requires t == s.(pending := t.pending)
    ensures SameStatus(s, t)
  {
  }

  lemma HeadStatus(w: World, s: Snapshot)
    requires s.pending != [] && AllHashed(w, s.pending) && DeliveredOne(w, s).Ok?
    ensures var next := DeliveredOne(w, s).value;
            SameStatus(s, next) && |s.pending| - 1 <= |next.pending| && forall m | m in next.pending :: m in s.pending
  {
    hide Hashed, DeliveredOne, HeadStuck, LandsAt, SameStatus;
    assert s.pending[0] in s.pending;
    HeadGoes(w, s);
    if HeadStuck(s) { SameStatusAs(s, DeliveredOne(w, s).value); }
  }

  lemma SameStatusSwitches(s: Snapshot, t: Snapshot, x: Switch)
    requires SameStatus(s, t)
    ensures IsOn(t, x) == IsOn(s, x)
  {
  }

  lemma SendingClears(w: World, s: Snapshot, op: Operation)
    requires Applied(w, s, op).Ok? && (op.Share? || op.Synchronize?)
    ensures var next := Applied(w, s, op).value; next == s.(pending := next.pending, faults := {})
  {
    hide CopyFor, MessageFrom, Enqueued;
    var next := Applied(w, s, op).value;
    if op.Share? {
      ShareSends(w, s, op.from, op.to, op.document, op.capability);
    } else {
      SynchronizeSends(w, s, op.left, op.right, op.document);
      assert CapabilityOf(s, op.left, op.document).Some? || CapabilityOf(s, op.right, op.document).Some?;
    }
  }

  lemma PairsAreUnordered(a: NodeId, b: NodeId, c: NodeId, d: NodeId)
    ensures Pair(a, b) == Pair(c, d) <==> (a == c && b == d) || (a == d && b == c)
  {
    PairIsSymmetric(a, b);
    PairIsSymmetric(c, d);
  }

  lemma CutStep(w: World, s: Snapshot, op: Operation, a: NodeId, b: NodeId)
    requires (op.Partition? || op.Heal?) && Applied(w, s, op).Ok?
    ensures Separated(Applied(w, s, op).value, a, b)
       <==> TurnsOn(op, Cut(a, b)) || (Separated(s, a, b) && !TurnsOff(op, Cut(a, b)))
  {
    hide Pair;
    PairsAreUnordered(op.left, op.right, a, b);
  }

  /** One node's contents change, and nothing that a switch is about. */
  lemma ContentsKeepSwitches(s: Snapshot, n: NodeId, node: NodeState, x: Switch)
    requires n in s.nodes && node.running == s.nodes[n].running && node.storageFault == s.nodes[n].storageFault
    ensures IsOn(SetNode(s, n, node), x) == IsOn(s, x)
  {
  }

  predicate ChangesContents(op: Operation) {
    || op.CreateDocument? || op.AddBlob? || op.WriteEntry? || op.FetchBlob? || op.CollectGarbage? || op.Migrate?
  }

  lemma ContentStep(w: World, s: Snapshot, op: Operation, x: Switch)
    requires ChangesContents(op) && Applied(w, s, op).Ok?
    ensures IsOn(Applied(w, s, op).value, x) == IsOn(s, x)
  {
    hide IsOn, References;
    var next := Applied(w, s, op).value;
    var n := if op.FetchBlob? then op.to else op.node;
    ContentsKeepSwitches(s, n, next.nodes[n], x);
    if op.WriteEntry? { RevisionKeepsSwitches(SetNode(s, n, next.nodes[n]), next.revision, x); }
  }

  lemma ContentsTurnNothing(op: Operation, x: Switch)
    requires ChangesContents(op)
    ensures !TurnsOn(op, x) && !TurnsOff(op, x)
  {
  }

  lemma RevisionKeepsSwitches(s: Snapshot, revision: nat, x: Switch)
    ensures IsOn(s.(revision := revision), x) == IsOn(s, x)
  {
  }

  lemma StatusStep(w: World, s: Snapshot, op: Operation, x: Switch)
    requires op.StartNode? || op.StopNode? || op.Shutdown? || op.RestartNode? || op.SetStorageFault?
    requires Applied(w, s, op).Ok?
    ensures IsOn(Applied(w, s, op).value, x) <==> TurnsOn(op, x) || (IsOn(s, x) && !TurnsOff(op, x))
  {
  }

  lemma NetworkStep(w: World, s: Snapshot, op: Operation, x: Switch)
    requires op.SetDeliveryFault? || op.DuplicateNext? || op.ReorderNext? || op.DropNext? || op.Partition? || op.Heal?
    requires Applied(w, s, op).Ok?
    ensures IsOn(Applied(w, s, op).value, x) <==> TurnsOn(op, x) || (IsOn(s, x) && !TurnsOff(op, x))
  {
    hide Pair;
    if (op.Partition? || op.Heal?) && x.Cut? { CutStep(w, s, op, x.a, x.b); }
  }

  /** Each operation moves exactly its own switches. */
  lemma SwitchStep(w: World, s: Snapshot, op: Operation, x: Switch)
    requires AllHashed(w, s.pending) && Applied(w, s, op).Ok?
    ensures IsOn(Applied(w, s, op).value, x) <==> TurnsOn(op, x) || (IsOn(s, x) && !TurnsOff(op, x))
  {
    hide Applied, IsOn, TurnsOn, TurnsOff, AllHashed;
    if ChangesContents(op) {
      ContentStep(w, s, op, x);
      ContentsTurnNothing(op, x);
    } else if op.DeliverAll? {
      DeliveryStep(w, s, x);
    } else if op.Share? || op.Synchronize? {
      SendingStep(w, s, op, x);
    } else {
      SimpleStep(w, s, op, x);
    }
  }

  lemma DeliveryStep(w: World, s: Snapshot, x: Switch)
    requires AllHashed(w, s.pending) && Applied(w, s, DeliverAll).Ok?
    ensures IsOn(Applied(w, s, DeliverAll).value, x) == IsOn(s, x)
    ensures !TurnsOn(DeliverAll, x) && !TurnsOff(DeliverAll, x)
  {
    hide Delivered, AllHashed, SameStatus, IsOn;
    DeliveredStatus(w, s, |s.pending|);
    SameStatusSwitches(s, Applied(w, s, DeliverAll).value, x);
  }

  lemma SendingStep(w: World, s: Snapshot, op: Operation, x: Switch)
    requires (op.Share? || op.Synchronize?) && Applied(w, s, op).Ok?
    ensures IsOn(Applied(w, s, op).value, x) <==> TurnsOn(op, x) || (IsOn(s, x) && !TurnsOff(op, x))
  {
    hide Applied;
    SendingClears(w, s, op);
  }

  lemma SimpleStep(w: World, s: Snapshot, op: Operation, x: Switch)
    requires !ChangesContents(op) && !op.DeliverAll? && !op.Share? && !op.Synchronize? && Applied(w, s, op).Ok?
    ensures IsOn(Applied(w, s, op).value, x) <==> TurnsOn(op, x) || (IsOn(s, x) && !TurnsOff(op, x))
  {
    hide Applied, IsOn, TurnsOn, TurnsOff;
    match op
    case StartNode(_) => StatusStep(w, s, op, x);
    case StopNode(_) => StatusStep(w, s, op, x);
    case Shutdown(_) => StatusStep(w, s, op, x);
    case RestartNode(_) => StatusStep(w, s, op, x);
    case SetStorageFault(_, _) => StatusStep(w, s, op, x);
    case _ => NetworkStep(w, s, op, x);
  }

  /** In every reachable state a switch is on exactly if the last operation of the trace about it turned it on. */
  lemma {:induction false} SwitchesAreAsLastSet(w: World, attempts: seq<Operation>, x: Switch)
    requires w.config.Valid()
    ensures IsOn(After(w, attempts).snapshot, x) <==> LastTurnedOn(Operations(After(w, attempts).trace), x)
  {
    hide Inv, Applied, AllHashed, RevisionsBelow, IsOn, TurnsOn, TurnsOff, LastTurnedOn;
    if attempts == [] {
      AllOffAtFirst(x);
    } else {
      var init, op := attempts[..|attempts| - 1], attempts[|attempts| - 1];
      var before := After(w, init);
      SwitchesAreAsLastSet(w, init, x);
      if Apply(w, before, op).Ok? {
        RunsKeepInv(w, init);
        InvSupportsStep(w, before);
        SwitchStep(w, before.snapshot, op, x);
        OperationsStep(before.trace, After(w, attempts).trace[|before.trace|]);
        LastTurnedOnStep(Operations(before.trace), op, x);
      }
    }
  }

  lemma AllOffAtFirst(x: Switch)
    ensures !IsOn(FRESH.snapshot, x) && !LastTurnedOn(Operations(FRESH.trace), x)
  {
  }

  // ---------------------------------------------------------------- holders and blobs

  /** The successful operation `op` gives `n` a replica of `d`. */
  predicate GivesReplica(s: Snapshot, op: Operation, n: NodeId, d: DocumentId) {
    op == CreateDocument(n, d) || (op.DeliverAll? && Granted(s, |s.pending|, n, d, false))
  }

  /** Some successful attempt created `d` on `n` or delivered a grant of it to `n`. */
  ghost predicate WasGiven(w: World, attempts: seq<Operation>, n: NodeId, d: DocumentId) {
    attempts != [] &&
    var init, op := attempts[..|attempts| - 1], attempts[|attempts| - 1];
    || WasGiven(w, init, n, d)
    || (Apply(w, After(w, init), op).Ok? && GivesReplica(After(w, init).snapshot, op, n, d))
  }

  lemma PassedHolders(s: Snapshot, t: Snapshot, n: NodeId, d: DocumentId)
    requires Passed(s, t, |s.pending|)
    ensures CapabilityOf(t, n, d).Some? <==> CapabilityOf(s, n, d).Some? || Granted(s, |s.pending|, n, d, false)
  {
    hide EntriesAfter, BlobsAfter, ArrivedAfter, CapabilityOf, Granted;
  }

  lemma HolderStep(w: World, at: seq<Operation>, op: Operation, n: NodeId, d: DocumentId)
    requires w.config.Valid() && Apply(w, After(w, at), op).Ok?
    ensures var s := After(w, at).snapshot;
            CapabilityOf(After(w, at + [op]).snapshot, n, d).Some?
            <==> CapabilityOf(s, n, d).Some? || GivesReplica(s, op, n, d)
  {
    hide After, Passed, CapabilityOf, Granted, Created, Written, Delivered, QueueFrom, EntriesOf;
    var s := After(w, at).snapshot;
    AfterStep(w, at, op);
    if op.DeliverAll? {
      DeliveryIsExact(w, at);
      PassedHolders(s, After(w, at + [op]).snapshot, n, d);
    } else if op.CreateDocument? {
      CreatedObserved(w, s, op.node, op.document);
    } else if op.WriteEntry? {
      WrittenObserved(w, s, op.node, op.document, op.key, op.blob);
    } else {
      UntouchedReplicas(w, s, op);
    }
  }

  /** A node holds a document exactly if it created it or was delivered a grant of it. */
  lemma {:induction false} HoldersWereGiven(w: World, attempts: seq<Operation>, n: NodeId, d: DocumentId)
    requires w.config.Valid()
    ensures CapabilityOf(After(w, attempts).snapshot, n, d).Some? <==> WasGiven(w, attempts, n, d)
  {
    hide Apply, GivesReplica;
    if attempts != [] {
      var init, op := attempts[..|attempts| - 1], attempts[|attempts| - 1];
      assert attempts == init + [op];
      HoldersWereGiven(w, init, n, d);
      if Apply(w, After(w, init), op).Ok? { HolderStep(w, init, op, n, d); }
    }
  }

  /** The successful operation `op` stores blob `h` at `n`. */
  ghost predicate StoresBlob(w: World, s: Snapshot, op: Operation, n: NodeId, h: BlobHash) {
    || (op.AddBlob? && op.node == n && w.hash(op.bytes) == h)
    || (op.FetchBlob? && op.to == n && op.blob == h)
    || (op.DeliverAll? && BroughtBlob(s, |s.pending|, n, h))
  }

  /** Blob `h` was stored at `n`, and no collection since found it unreferred to there. */
  ghost predicate IsStored(w: World, attempts: seq<Operation>, n: NodeId, h: BlobHash) {
    attempts != [] &&
    var init, op := attempts[..|attempts| - 1], attempts[|attempts| - 1];
    var s := After(w, init).snapshot;
    if Apply(w, After(w, init), op).Err? then IsStored(w, init, n, h)
    else if op == CollectGarbage(n) then IsStored(w, init, n, h) && Refers(s, n, h)
    else IsStored(w, init, n, h) || StoresBlob(w, s, op, n, h)
  }

  lemma WithBlobStores(w: World, s: Snapshot, to: NodeId, hash: BlobHash, bytes: Bytes, n: NodeId)
    requires WithBlob(w, s, to, hash, bytes).Ok?
    ensures BlobsOf(WithBlob(w, s, to, hash, bytes).value, n)
         == if n == to then BlobsOf(s, n)[hash := bytes] else BlobsOf(s, n)
  {
  }

  /** A collection keeps exactly the blobs that some local replica refers to. */
  lemma CollectedExactly(s: Snapshot, n: NodeId, n': NodeId, h: BlobHash)
    requires Collected(s, n).Ok?
    ensures h in BlobsOf(Collected(s, n).value, n') <==> h in BlobsOf(s, n') && (n' == n ==> Refers(s, n, h))
  {
    hide References;
    var node := s.nodes[n];
    if d :| d in node.documents && References(node.documents[d].entries, h) {
      assert References(EntriesOf(s, n, d), h);
    }
    if Refers(s, n, h) {
      var d :| References(EntriesOf(s, n, d), h);
      NothingReferred(h);
      assert d in node.documents && References(node.documents[d].entries, h);
    }
  }

  lemma NothingReferred(h: BlobHash)
    ensures !References(map[], h)
  {
  }

  lemma PassedBlobs(s: Snapshot, t: Snapshot, n: NodeId, h: BlobHash)
    requires Passed(s, t, |s.pending|)
    ensures h in BlobsOf(t, n) <==> h in BlobsOf(s, n) || BroughtBlob(s, |s.pending|, n, h)
  {
    hide HoldersAfter, EntriesAfter, ArrivedAfter, BlobsOf, BroughtBlob;
  }

  /** Operations that neither store nor collect leave every blob store as it is. */
  lemma OthersKeepBlobs(w: World, s: Snapshot, op: Operation, n: NodeId)
    requires Applied(w, s, op).Ok?
    requires !op.AddBlob? && !op.FetchBlob? && !op.DeliverAll? && !op.CollectGarbage?
    ensures BlobsOf(Applied(w, s, op).value, n) == BlobsOf(s, n)
  {
    if op.Share? || op.Synchronize? {
      hide Applied;
      SendingClears(w, s, op);
    } else if op.WriteEntry? {
      hide Written;
      WrittenKeepsBlobs(w, s, op.node, op.document, op.key, op.blob, n);
    }
  }

  lemma BlobStep(w: World, at: seq<Operation>, op: Operation, n: NodeId, h: BlobHash)
    requires w.config.Valid() && Apply(w, After(w, at), op).Ok?
    ensures var s := After(w, at).snapshot;
            var before, after := h in BlobsOf(s, n), h in BlobsOf(After(w, at + [op]).snapshot, n);
            && (op == CollectGarbage(n) ==> (after <==> before && Refers(s, n, h)))
            && (op != CollectGarbage(n) ==> (after <==> before || StoresBlob(w, s, op, n, h)))
  {
    hide After, Passed, BlobsOf, Refers, BroughtBlob, Delivered, WithBlob, Collected;
    var s := After(w, at).snapshot;
    AfterStep(w, at, op);
    match op
    case DeliverAll =>
      DeliveryIsExact(w, at);
      PassedBlobs(s, After(w, at + [op]).snapshot, n, h);
    case AddBlob(to, bytes) => WithBlobStores(w, s, to, w.hash(bytes), bytes, n);
    case FetchBlob(from, to, blob) => WithBlobStores(w, s, to, blob, s.nodes[from].blobs[blob], n);
    case CollectGarbage(n') => CollectedExactly(s, n', n, h);
    case _ =>
      hide Applied;
      OthersKeepBlobs(w, s, op, n);
  }

  /** Every blob store is exactly what was added, fetched and delivered, less what was collected. */
  lemma {:induction false} BlobsAreAccounted(w: World, attempts: seq<Operation>, n: NodeId, h: BlobHash)
    requires w.config.Valid()
    ensures h in BlobsOf(After(w, attempts).snapshot, n) <==> IsStored(w, attempts, n, h)
  {
    hide Apply, StoresBlob, Refers;
    if attempts != [] {
      var init, op := attempts[..|attempts| - 1], attempts[|attempts| - 1];
      assert attempts == init + [op];
      BlobsAreAccounted(w, init, n, h);
      if Apply(w, After(w, init), op).Ok? { BlobStep(w, init, op, n, h); } else { AfterStep(w, init, op); }
    }
  }
}
