/** Safety over whole runs: what holds after any operations, attempted in any order, failing or not. */
module ApplicationRuns {
  import opened Base
  import opened Application
  import opened ApplicationMerge
  import opened ApplicationBounds
  import opened ApplicationHistory

  // ---------------------------------------------------------------- reading a trace

  /** The successful writes of a trace, in order; the r-th of them carries revision r. */
  function Writes(ops: seq<Operation>): seq<Operation> {
    if ops == [] then [] else
    var last := ops[|ops| - 1];
    Writes(ops[..|ops| - 1]) + (if last.WriteEntry? then [last] else [])
  }

  /** Entry `e` at `(d, k)` is exactly what the write numbered `e.revision` put there. */
  predicate ByWrite(ops: seq<Operation>, d: DocumentId, k: Key, e: Entry) {
    1 <= e.revision <= |Writes(ops)| && Writes(ops)[e.revision - 1] == WriteEntry(e.author, d, k, e.blob)
  }

  /** `n` created `d`, or was offered Write by somebody so authorized earlier in the trace. */
  predicate Authorized(ops: seq<Operation>, n: NodeId, d: DocumentId) {
    ops != [] &&
    var before := ops[..|ops| - 1];
    var last := ops[|ops| - 1];
    || Authorized(before, n, d)
    || last == CreateDocument(n, d)
    || (last.Share? && last.to == n && last.document == d && last.capability == Write
        && Authorized(before, last.from, d))
  }

  // ---------------------------------------------------------------- the inductive invariant

  /** The counter is the number of writes, and every entry anywhere names the write it came from. */
  ghost predicate Provenance(ops: seq<Operation>, s: Snapshot) {
    && s.revision == |Writes(ops)|
    && forall d, k, e | Carries(s, d, k, e) :: ByWrite(ops, d, k, e)
  }

  predicate GrantWithin(s: Snapshot, m: Message) {
    m.grant.Some? ==>
      CapabilityOf(s, m.from, m.document).Some? && CapabilityOf(s, m.from, m.document).value.Permits(m.grant.value)
  }

  /** Authors hold Write now, grants stay within the sender's capability, and Write traces back to a creator. */
  ghost predicate Authority(ops: seq<Operation>, s: Snapshot) {
    && (forall d, k, e | Carries(s, d, k, e) :: HoldsWrite(s, e.author, d))
    && (forall m | m in s.pending :: GrantWithin(s, m))
    && (forall n, d | HoldsWrite(s, n, d) :: Authorized(ops, n, d))
    && (forall m | m in s.pending && m.grant == Some(Write) :: Authorized(ops, m.to, m.document))
  }

  ghost predicate Inv(w: World, m: Model) {
    && WellFormed(w, m.snapshot)
    && |m.trace| <= w.config.maxTraceEvents
    && Provenance(Operations(m.trace), m.snapshot)
    && Authority(Operations(m.trace), m.snapshot)
  }

  lemma {:induction false} WritesBounded(ops: seq<Operation>)
    ensures |Writes(ops)| <= |ops|
  {
    if ops != [] { WritesBounded(ops[..|ops| - 1]); }
  }

  lemma WritesStep(ops: seq<Operation>, op: Operation)
    ensures Writes(ops + [op]) == Writes(ops) + (if op.WriteEntry? then [op] else [])
  {
    assert (ops + [op])[..|ops|] == ops;
  }

  lemma AuthorizedStep(ops: seq<Operation>, op: Operation, n: NodeId, d: DocumentId)
    ensures Authorized(ops, n, d) ==> Authorized(ops + [op], n, d)
    ensures op == CreateDocument(n, d) ==> Authorized(ops + [op], n, d)
    ensures op.Share? && op.to == n && op.document == d && op.capability == Write && Authorized(ops, op.from, d)
            ==> Authorized(ops + [op], n, d)
  {
    assert (ops + [op])[..|ops|] == ops;
  }

  lemma PendingHashed(w: World, s: Snapshot)
    requires WellFormed(w, s)
    ensures AllHashed(w, s.pending)
  {
    hide NodeOk, Hashed, BlobsOk;
    forall m | m in s.pending ensures Hashed(w, m.blobs) { BlobsAreHashed(w, m.blobs); }
  }

  lemma ProvenanceStep(w: World, ops: seq<Operation>, s: Snapshot, op: Operation)
    requires AllHashed(w, s.pending) && Provenance(ops, s) && s.revision < U64_MAX && Applied(w, s, op).Ok?
    ensures Provenance(ops + [op], Applied(w, s, op).value)
  {
    hide Carries, Writes, Applied, AllHashed, QueueFrom;
    var next := Applied(w, s, op).value;
    WritesStep(ops, op);
    QueueAndRevisionStep(w, s, op);
    forall d, k, e | Carries(next, d, k, e) ensures ByWrite(ops + [op], d, k, e) {
      EntriesConserved(w, s, op, d, k, e);
      if Carries(s, d, k, e) { assert ByWrite(ops, d, k, e); }
    }
  }

  lemma ProvenanceBoundsRevisions(ops: seq<Operation>, s: Snapshot)
    requires Provenance(ops, s) && |ops| < U64_MAX
    ensures RevisionsBelow(s)
  {
    hide Carries, Writes;
    WritesBounded(ops);
    forall d, k, e | Carries(s, d, k, e) ensures e.revision <= s.revision { assert ByWrite(ops, d, k, e); }
  }

  lemma AuthorityStep(w: World, ops: seq<Operation>, s: Snapshot, op: Operation)
    requires AllHashed(w, s.pending) && RevisionsBelow(s) && Authority(ops, s) && Applied(w, s, op).Ok?
    ensures Authority(ops + [op], Applied(w, s, op).value)
  {
    hide Carries, Applied, AllHashed, RevisionsBelow, Supersedes, CapabilityOf, EntriesOf, Authorized;
    var next := Applied(w, s, op).value;
    ReplicasGrow(w, s, op);
    QueueAndRevisionStep(w, s, op);
    forall d, k, e | Carries(next, d, k, e) ensures HoldsWrite(next, e.author, d) {
      EntriesConserved(w, s, op, d, k, e);
      assert HoldsWrite(s, e.author, d);
      assert AtLeast(CapabilityOf(next, e.author, d), CapabilityOf(s, e.author, d));
    }
    forall m | m in next.pending ensures GrantWithin(next, m) {
      assert AtLeast(CapabilityOf(next, m.from, m.document), CapabilityOf(s, m.from, m.document));
      assert m in s.pending ==> GrantWithin(s, m);
    }
    forall n, d | HoldsWrite(next, n, d) ensures Authorized(ops + [op], n, d) {
      AuthorizedStep(ops, op, n, d);
      if !HoldsWrite(s, n, d) { WriteGained(w, s, op, n, d); }
    }
    forall m | m in next.pending && m.grant == Some(Write) ensures Authorized(ops + [op], m.to, m.document) {
      AuthorizedStep(ops, op, m.to, m.document);
      assert m !in s.pending ==> HoldsWrite(s, m.from, m.document);
    }
  }

  lemma OperationsStep(trace: seq<TraceEvent>, event: TraceEvent)
    ensures Operations(trace + [event]) == Operations(trace) + [event.operation]
  {
  }

  lemma ApplyKeepsInv(w: World, m: Model, op: Operation)
    requires w.config.Valid() && Inv(w, m) && Apply(w, m, op).Ok?
    ensures Inv(w, Apply(w, m, op).value)
  {
    hide WellFormed, AllHashed, Authority, Provenance, RevisionsBelow, Applied;
    var next := Apply(w, m, op).value;
    var ops := Operations(m.trace);
    AppliedKeeps(w, m.snapshot, op);
    PendingHashed(w, m.snapshot);
    OperationsStep(m.trace, next.trace[|m.trace|]);
    ProvenanceBoundsRevisions(ops, m.snapshot);
    ProvenanceStep(w, ops, m.snapshot, op) by { RevisionIsBelowMax(m.snapshot); }
    AuthorityStep(w, ops, m.snapshot, op);
  }

  lemma RevisionIsBelowMax(s: Snapshot)
    requires RevisionsBelow(s)
    ensures s.revision < U64_MAX
  {
  }

  lemma FreshInv(w: World)
    ensures Inv(w, FRESH)
  {
  }

  lemma AfterStep(w: World, attempts: seq<Operation>, op: Operation)
    ensures After(w, attempts + [op]) == Attempt(w, After(w, attempts), op)
  {
    assert (attempts + [op])[..|attempts|] == attempts;
  }

  /** The invariant holds in every reachable state. */
  lemma {:induction false} RunsKeepInv(w: World, attempts: seq<Operation>)
    requires w.config.Valid()
    ensures Inv(w, After(w, attempts))
  {
    hide Inv, Apply;
    if attempts == [] {
      FreshInv(w);
    } else {
      var before := After(w, attempts[..|attempts| - 1]);
      RunsKeepInv(w, attempts[..|attempts| - 1]);
      if Apply(w, before, attempts[|attempts| - 1]).Ok? { ApplyKeepsInv(w, before, attempts[|attempts| - 1]); }
    }
  }

  // ---------------------------------------------------------------- what the invariant means

  /** The revision counter counts the successful writes, so its saturating increment never saturates. */
  lemma RevisionCountsWrites(w: World, attempts: seq<Operation>)
    requires w.config.Valid()
    ensures var m := After(w, attempts);
            && m.snapshot.revision == |Writes(Operations(m.trace))| <= |m.trace| <= MAX_MODEL_ITEMS
            && SaturatingSucc(m.snapshot.revision) == m.snapshot.revision + 1
  {
    hide WellFormed, Carries, Authority, After, Writes;
    RunsKeepInv(w, attempts);
    WritesBounded(Operations(After(w, attempts).trace));
  }

  /** Every entry anywhere is exactly what the write with its revision number put there. */
  lemma EveryEntryWasWritten(w: World, attempts: seq<Operation>, d: DocumentId, k: Key, e: Entry)
    requires w.config.Valid() && Carries(After(w, attempts).snapshot, d, k, e)
    ensures ByWrite(Operations(After(w, attempts).trace), d, k, e)
  {
    hide WellFormed, Carries, Authority, After, Writes;
    RunsKeepInv(w, attempts);
  }

  lemma {:induction false} TracesExtend(w: World, attempts: seq<Operation>, more: seq<Operation>)
    ensures After(w, attempts).trace <= After(w, attempts + more).trace
    decreases |more|
  {
    hide After, Applied;
    if more == [] {
      assert attempts + more == attempts;
    } else {
      var init := more[..|more| - 1];
      TracesExtend(w, attempts, init);
      assert attempts + more == (attempts + init) + [more[|more| - 1]];
      AfterStep(w, attempts + init, more[|more| - 1]);
    }
  }

  lemma {:induction false} WritesExtend(ops: seq<Operation>, later: seq<Operation>)
    requires ops <= later
    ensures Writes(ops) <= Writes(later)
    decreases |later|
  {
    if |ops| == |later| {
      assert ops == later;
    } else {
      WritesExtend(ops, later[..|later| - 1]);
    }
  }

  /** Writes are globally unique: one revision number, at any two moments of a run, is one entry in one place. */
  lemma WritesAreUnique(w: World, attempts: seq<Operation>, more: seq<Operation>,
                        d: DocumentId, k: Key, e: Entry, d': DocumentId, k': Key, e': Entry)
    requires w.config.Valid()
    requires Carries(After(w, attempts).snapshot, d, k, e) && Carries(After(w, attempts + more).snapshot, d', k', e')
    requires e.revision == e'.revision
    ensures d == d' && k == k' && e == e'
  {
    hide Carries, After, Writes;
    EveryEntryWasWritten(w, attempts, d, k, e);
    EveryEntryWasWritten(w, attempts + more, d', k', e');
    TracesExtend(w, attempts, more);
    var ops, later := Operations(After(w, attempts).trace), Operations(After(w, attempts + more).trace);
    assert ops <= later;
    WritesExtend(ops, later);
  }

  /** The run-time self-check: resource ceilings, stable identities and blob hashes. */
  predicate SelfCheck(w: World, m: Model) {
    && |m.snapshot.nodes| <= w.config.maxNodes
    && |m.snapshot.pending| <= w.config.maxPendingMessages
    && |m.trace| <= w.config.maxTraceEvents
    && forall n | n in m.snapshot.nodes :: NodeOk(w, n, m.snapshot.nodes[n])
  }

  /** The self-check can never fail, and no operation ever reports a broken invariant. */
  lemma SelfCheckNeverFails(w: World, attempts: seq<Operation>, op: Operation)
    requires w.config.Valid()
    ensures SelfCheck(w, After(w, attempts))
    ensures var r := Apply(w, After(w, attempts), op); r.Err? ==> !r.error.Invariant?
  {
    hide NodeOk, BlobsOk, Carries, After, Applied;
    RunsKeepInv(w, attempts);
    NoInvariantError(w, After(w, attempts).snapshot, op);
  }

  /** Authors hold Write on the document now, and Write always leads back to the document's creator. */
  lemma AuthorsAreAuthorized(w: World, attempts: seq<Operation>, d: DocumentId, k: Key, e: Entry)
    requires w.config.Valid() && Carries(After(w, attempts).snapshot, d, k, e)
    ensures HoldsWrite(After(w, attempts).snapshot, e.author, d)
    ensures Authorized(Operations(After(w, attempts).trace), e.author, d)
  {
    hide WellFormed, Carries, Provenance, After, Authorized, HoldsWrite;
    RunsKeepInv(w, attempts);
  }

  /** No escalation in flight: a pending grant never exceeds what its sender holds now. */
  lemma GrantsStayWithin(w: World, attempts: seq<Operation>, m: Message)
    requires w.config.Valid() && m in After(w, attempts).snapshot.pending && m.grant.Some?
    ensures var c := CapabilityOf(After(w, attempts).snapshot, m.from, m.document);
            c.Some? && c.value.Permits(m.grant.value)
  {
    hide WellFormed, Carries, Provenance, After, Authorized, HoldsWrite;
    RunsKeepInv(w, attempts);
    assert GrantWithin(After(w, attempts).snapshot, m);
  }

  /** Some successful attempt created `d` on `n`, or delivered a Write grant for it to `n`. */
  ghost predicate Acquired(w: World, attempts: seq<Operation>, n: NodeId, d: DocumentId) {
    attempts != [] &&
    var before := After(w, attempts[..|attempts| - 1]);
    var op := attempts[|attempts| - 1];
    || Acquired(w, attempts[..|attempts| - 1], n, d)
    || (Apply(w, before, op).Ok?
        && (op == CreateDocument(n, d) || (op.DeliverAll? && WriteOffered(before.snapshot, n, d))))
  }

  /** Holding Write is exactly having created the document or having been delivered a Write grant. */
  lemma {:induction false} WriteIsAcquired(w: World, attempts: seq<Operation>, n: NodeId, d: DocumentId)
    requires w.config.Valid()
    ensures HoldsWrite(After(w, attempts).snapshot, n, d) <==> Acquired(w, attempts, n, d)
  {
    hide Inv, CapabilityOf, Applied;
    if attempts == [] {
      EmptyHoldsNothing(n, d);
    } else {
      var init, op := attempts[..|attempts| - 1], attempts[|attempts| - 1];
      var before := After(w, init);
      WriteIsAcquired(w, init, n, d);
      if Apply(w, before, op).Ok? {
        RunsKeepInv(w, init);
        InvSupportsStep(w, before);
        AcquiredStep(w, before.snapshot, op, n, d);
      }
    }
  }

  lemma EmptyHoldsNothing(n: NodeId, d: DocumentId)
    ensures !HoldsWrite(FRESH.snapshot, n, d)
  {
  }

  lemma InvSupportsStep(w: World, m: Model)
    requires w.config.Valid() && Inv(w, m)
    ensures AllHashed(w, m.snapshot.pending) && RevisionsBelow(m.snapshot)
  {
    hide WellFormed, AllHashed, RevisionsBelow, Provenance, Authority;
    PendingHashed(w, m.snapshot);
    ProvenanceBoundsRevisions(Operations(m.trace), m.snapshot);
  }

  lemma AcquiredStep(w: World, s: Snapshot, op: Operation, n: NodeId, d: DocumentId)
    requires AllHashed(w, s.pending) && RevisionsBelow(s) && Applied(w, s, op).Ok?
    ensures HoldsWrite(Applied(w, s, op).value, n, d)
       <==> HoldsWrite(s, n, d) || op == CreateDocument(n, d) || (op.DeliverAll? && WriteOffered(s, n, d))
  {
    hide AllHashed, RevisionsBelow, CapabilityOf, Supersedes;
    var next := Applied(w, s, op).value;
    ReplicasGrow(w, s, op);
    assert AtLeast(CapabilityOf(next, n, d), CapabilityOf(s, n, d));
    if HoldsWrite(next, n, d) && !HoldsWrite(s, n, d) { WriteGained(w, s, op, n, d); }
    if op == CreateDocument(n, d) {
      CreatedObserved(w, s, n, d);
    } else if op.DeliverAll? && WriteOffered(s, n, d) {
      var m :| m in s.pending && Offers(s, m, n, d);
      var i :| 0 <= i < |s.pending| && s.pending[i] == m;
      GrantsTakeEffect(w, s, |s.pending|, i);
    }
  }

  /** A node that neither created a document nor was delivered Write on it never wrote to it. */
  lemma {:induction false} WritersAcquired(w: World, attempts: seq<Operation>, op: Operation)
    requires w.config.Valid() && op.WriteEntry? && op in Operations(After(w, attempts).trace)
    ensures Acquired(w, attempts, op.node, op.document)
  {
    if attempts == [] {
    } else {
      var init, last := attempts[..|attempts| - 1], attempts[|attempts| - 1];
      var before := After(w, init);
      if op in Operations(before.trace) {
        WritersAcquired(w, init, op);
      } else {
        assert Apply(w, before, last).Ok?;
        OperationsStep(before.trace, After(w, attempts).trace[|before.trace|]);
        assert last == op;
        WrittenObserved(w, before.snapshot, op.node, op.document, op.key, op.blob);
        WriteIsAcquired(w, init, op.node, op.document);
      }
    }
  }

  // ---------------------------------------------------------------- nothing is lost

  /** Across any continuation no node, document, entry or capability is lost or goes back. */
  lemma {:induction false} RunsGrow(w: World, attempts: seq<Operation>, more: seq<Operation>)
    requires w.config.Valid()
    ensures Grows(After(w, attempts).snapshot, After(w, attempts + more).snapshot)
    decreases |more|
  {
    hide CapabilityOf, EntriesOf, After, Applied, Inv;
    if more == [] {
      assert attempts + more == attempts;
    } else {
      var init, op := more[..|more| - 1], more[|more| - 1];
      RunsGrow(w, attempts, init);
      assert attempts + more == (attempts + init) + [op];
      AfterStep(w, attempts + init, op);
      var before := After(w, attempts + init);
      if Apply(w, before, op).Ok? {
        RunsKeepInv(w, attempts + init);
        InvSupportsStep(w, before);
        ReplicasGrow(w, before.snapshot, op);
        GrowsTransitive(After(w, attempts).snapshot, before.snapshot, After(w, attempts + more).snapshot);
      }
    }
  }

  /** A blob present at some moment stays as long as the node keeps referring to it. */
  lemma {:induction false} ReferencedBlobsOutlast(w: World, attempts: seq<Operation>, more: seq<Operation>, n: NodeId,
                                                  h: BlobHash)
    requires w.config.Valid() && h in BlobsOf(After(w, attempts).snapshot, n)
    requires forall i | 0 <= i <= |more| :: Refers(After(w, attempts + more[..i]).snapshot, n, h)
    ensures h in BlobsOf(After(w, attempts + more).snapshot, n)
    decreases |more|
  {
    hide BlobsOf, Refers, After, Applied, Inv;
    if more == [] {
      assert attempts + more == attempts;
    } else {
      var init, op := more[..|more| - 1], more[|more| - 1];
      forall i | 0 <= i <= |init| ensures Refers(After(w, attempts + init[..i]).snapshot, n, h) {
        assert init[..i] == more[..i];
      }
      ReferencedBlobsOutlast(w, attempts, init, n, h);
      assert attempts + more == (attempts + init) + [op];
      assert more[..|more|] == more;
      assert Refers(After(w, attempts + more[..|more|]).snapshot, n, h);
      AfterStep(w, attempts + init, op);
      var before := After(w, attempts + init);
      if Apply(w, before, op).Ok? {
        RunsKeepInv(w, attempts + init);
        InvSupportsStep(w, before);
        ReferencedBlobsStay(w, before.snapshot, op, n, h);
      }
    }
  }

  // ---------------------------------------------------------------- replay

  /** Replaying the recorded trace rebuilds the same model, whatever failed attempts were interleaved. */
  lemma {:induction false} ReplayRebuilds(w: World, attempts: seq<Operation>)
    ensures After(w, Operations(After(w, attempts).trace)) == After(w, attempts)
  {
    if attempts == [] {
    } else {
      var init, op := attempts[..|attempts| - 1], attempts[|attempts| - 1];
      var before := After(w, init);
      ReplayRebuilds(w, init);
      if Apply(w, before, op).Ok? {
        OperationsStep(before.trace, After(w, attempts).trace[|before.trace|]);
        AfterStep(w, Operations(before.trace), op);
      }
    }
  }

  /** Trace events are numbered 1, 2, 3, and so on without gaps. */
  lemma {:induction false} TraceIsNumbered(w: World, attempts: seq<Operation>, i: nat)
    requires w.config.Valid() && i < |After(w, attempts).trace|
    ensures After(w, attempts).trace[i].sequence == i + 1
  {
    hide WellFormed, Provenance, Authority, Applied;
    var before := After(w, attempts[..|attempts| - 1]);
    RunsKeepInv(w, attempts);
    if i < |before.trace| { TraceIsNumbered(w, attempts[..|attempts| - 1], i); }
  }
}
