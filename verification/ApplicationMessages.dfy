/**
 The life of a message over a whole run: what sending puts into the queue, that nothing is lost from it, and that
 what was sent arrives whole.
 */
module ApplicationMessages {
  import opened Base
  import opened Application
  import opened ApplicationHistory
  import opened ApplicationRuns
  import opened ApplicationConvergence
  import opened ApplicationDelivery

  // ---------------------------------------------------------------- sending

  /** How often a message is queued under the pending faults: not at all, twice, or once. */
  function Repetitions(s: Snapshot): nat {
    if Drop in s.faults then 0 else if Duplicate in s.faults then 2 else 1
  }

  /** `m` was queued, at the front if it overtakes the others, and used the faults up; nothing else changed. */
  predicate Queued(s: Snapshot, next: Snapshot, m: Message) {
    var copies := seq(Repetitions(s), i => m);
    next == s.(faults := {}, pending := if Reorder in s.faults then copies + s.pending else s.pending + copies)
  }

  predicate CopyFor(s: Snapshot, m: Message, from: NodeId, to: NodeId, d: DocumentId, grant: Option<Capability>) {
    m.from == from && m.to == to && m.document == d && m.grant == grant && Copies(s, m)
  }

  lemma EnqueuedIsQueued(w: World, s: Snapshot, m: Message)
    requires Enqueued(w, s, m).Ok?
    ensures Queued(s, Enqueued(w, s, m).value, m)
  {
    forall f | f in s.faults ensures f in {Drop, Duplicate, Reorder} {
      match f
      case Drop =>
      case Duplicate =>
      case Reorder =>
    }
    assert s.faults - {Drop, Duplicate, Reorder} == {};
    assert seq(0, i => m) == [] && seq(1, i => m) == [m] && seq(2, i => m) == [m, m];
    assert [] + s.pending == s.pending && s.pending + [] == s.pending;
  }

  lemma MessageCopies(s: Snapshot, from: NodeId, to: NodeId, d: DocumentId, grant: Option<Capability>)
    requires from in s.nodes && MessageFrom(s.nodes[from], from, to, d, grant).Ok?
    ensures CopyFor(s, MessageFrom(s.nodes[from], from, to, d, grant).value, from, to, d, grant)
  {
  }

  /** A Share queues a copy of the sender's replica, with the grant. */
  lemma ShareSends(w: World, s: Snapshot, from: NodeId, to: NodeId, d: DocumentId, c: Capability)
    requires Shared(w, s, from, to, d, c).Ok?
    ensures exists m :: CopyFor(s, m, from, to, d, Some(c)) && Queued(s, Shared(w, s, from, to, d, c).value, m)
  {
    hide MessageFrom, CopyFor, Queued, Enqueued;
    var m := MessageFrom(s.nodes[from], from, to, d, Some(c)).value;
    MessageCopies(s, from, to, d, Some(c));
    EnqueuedIsQueued(w, s, m);
    assert CopyFor(s, m, from, to, d, Some(c)) && Queued(s, Shared(w, s, from, to, d, c).value, m);
  }

  /** `next` is `s` after `from` sent its replica of `d` to `to` without a grant, if it has one. */
  ghost predicate SendsReplica(base: Snapshot, s: Snapshot, next: Snapshot, from: NodeId, to: NodeId, d: DocumentId) {
    if CapabilityOf(base, from, d).None? then next == s
    else exists m :: CopyFor(base, m, from, to, d, None) && Queued(s, next, m)
  }

  lemma SentReplica(w: World, base: Snapshot, s: Snapshot, from: NodeId, to: NodeId, d: DocumentId)
    requires from in base.nodes && d in base.nodes[from].documents
    requires Sent(w, s, MessageFrom(base.nodes[from], from, to, d, None)).Ok?
    ensures SendsReplica(base, s, Sent(w, s, MessageFrom(base.nodes[from], from, to, d, None)).value, from, to, d)
  {
    hide MessageFrom, CopyFor, Queued, Enqueued;
    var m := MessageFrom(base.nodes[from], from, to, d, None).value;
    var next := Sent(w, s, MessageFrom(base.nodes[from], from, to, d, None)).value;
    MessageCopies(base, from, to, d, None);
    EnqueuedIsQueued(w, s, m);
    assert CopyFor(base, m, from, to, d, None) && Queued(s, next, m);
  }

  /** A Synchronize queues what the left side holds for the right side, and then the other way round. */
  lemma SynchronizeSends(w: World, s: Snapshot, left: NodeId, right: NodeId, d: DocumentId)
    requires Synchronized(w, s, left, right, d).Ok?
    ensures exists first :: SendsReplica(s, s, first, left, right, d)
                            && SendsReplica(s, first, Synchronized(w, s, left, right, d).value, right, left, d)
  {
    hide MessageFrom, Queued, CopyFor, Enqueued;
    var next := Synchronized(w, s, left, right, d).value;
    var first := s;
    if d in s.nodes[left].documents {
      SentReplica(w, s, s, left, right, d);
      first := Sent(w, s, MessageFrom(s.nodes[left], left, right, d, None)).value;
    }
    if d in s.nodes[right].documents { SentReplica(w, s, first, right, left, d); }
    assert SendsReplica(s, s, first, left, right, d) && SendsReplica(s, first, next, right, left, d);
  }

  /** The operation sends `from`'s replica of `d` to `to`. */
  predicate Sends(op: Operation, from: NodeId, to: NodeId, d: DocumentId, grant: Option<Capability>) {
    if grant.Some? then op == Share(from, to, d, grant.value)
    else op == Synchronize(from, to, d) || op == Synchronize(to, from, d)
  }

  lemma QueuedHolds(s: Snapshot, next: Snapshot, m: Message)
    requires Queued(s, next, m)
    ensures forall m' | m' in s.pending :: m' in next.pending
    ensures Drop !in s.faults ==> m in next.pending && Drop !in next.faults
  {
    var copies := seq(Repetitions(s), i => m);
    if Drop !in s.faults { assert m == copies[0] && m in copies; }
  }

  lemma ReplicaQueued(base: Snapshot, s: Snapshot, next: Snapshot, from: NodeId, to: NodeId, d: DocumentId)
    requires SendsReplica(base, s, next, from, to, d)
    ensures forall m | m in s.pending :: m in next.pending
    ensures Drop !in s.faults ==> Drop !in next.faults
    ensures Drop !in s.faults && CapabilityOf(base, from, d).Some?
            ==> exists m :: CopyFor(base, m, from, to, d, None) && m in next.pending
  {
    hide Queued, CopyFor, CapabilityOf;
    if CapabilityOf(base, from, d).Some? {
      var m :| CopyFor(base, m, from, to, d, None) && Queued(s, next, m);
      QueuedHolds(s, next, m);
    }
  }

  /** What a holder sends, when no drop is pending, is then in the queue. */
  lemma SendingQueues(w: World, s: Snapshot, op: Operation, from: NodeId, to: NodeId, d: DocumentId,
                      grant: Option<Capability>)
    requires Applied(w, s, op).Ok? && Sends(op, from, to, d, grant) && CapabilityOf(s, from, d).Some?
    requires Drop !in s.faults
    ensures exists m :: CopyFor(s, m, from, to, d, grant) && m in Applied(w, s, op).value.pending
  {
    hide Queued, CopyFor, CapabilityOf, Shared, Synchronized, SendsReplica;
    var next := Applied(w, s, op).value;
    if grant.Some? {
      ShareSends(w, s, from, to, d, grant.value);
      var m :| CopyFor(s, m, from, to, d, grant) && Queued(s, next, m);
      QueuedHolds(s, next, m);
    } else {
      SynchronizeSends(w, s, op.left, op.right, d);
      var first :| SendsReplica(s, s, first, op.left, op.right, d)
                   && SendsReplica(s, first, next, op.right, op.left, d);
      ReplicaQueued(s, s, first, op.left, op.right, d);
      ReplicaQueued(s, first, next, op.right, op.left, d);
      if op.left == from && op.right == to {
        var m :| CopyFor(s, m, from, to, d, None) && m in first.pending;
        assert m in next.pending;
      }
    }
  }

  // ---------------------------------------------------------------- nothing is lost

  /** Only a delivery takes messages out of the queue. */
  lemma QueueKeepsAll(w: World, s: Snapshot, op: Operation, m: Message)
    requires Applied(w, s, op).Ok? && !op.DeliverAll? && m in s.pending
    ensures m in Applied(w, s, op).value.pending
  {
    hide Queued, CopyFor, CapabilityOf, Shared, Synchronized, SendsReplica, Delivered, References;
    var next := Applied(w, s, op).value;
    if op.Share? {
      ShareSends(w, s, op.from, op.to, op.document, op.capability);
      var m' :| CopyFor(s, m', op.from, op.to, op.document, Some(op.capability)) && Queued(s, next, m');
      QueuedHolds(s, next, m');
    } else if op.Synchronize? {
      SynchronizeSends(w, s, op.left, op.right, op.document);
      var first :| SendsReplica(s, s, first, op.left, op.right, op.document)
                   && SendsReplica(s, first, next, op.right, op.left, op.document);
      ReplicaQueued(s, s, first, op.left, op.right, op.document);
      ReplicaQueued(s, first, next, op.right, op.left, op.document);
    }
  }

  lemma {:induction false} StuckStays(s: Snapshot, k: nat, i: nat)
    requires i < k <= |s.pending| && Stuck(s, i)
    ensures s.pending[i] in StuckOnes(s, k)
  {
    hide Stuck;
    if i < k - 1 { StuckStays(s, k - 1, i); }
  }

  /** A successful delivery attempted right after `at` took `m` out of the queue, and all of it arrived. */
  ghost predicate DeliveredAt(w: World, at: seq<Operation>, op: Operation, m: Message) {
    && op == DeliverAll && m in After(w, at).snapshot.pending && Apply(w, After(w, at), DeliverAll).Ok?
    && Arrived(After(w, at + [DeliverAll]).snapshot, m)
  }

  /** A queued message is still queued after one more attempt, or was delivered by it. */
  lemma MessageStep(w: World, at: seq<Operation>, op: Operation, m: Message)
    requires w.config.Valid() && m in After(w, at).snapshot.pending
    ensures m in After(w, at + [op]).snapshot.pending || DeliveredAt(w, at, op, m)
  {
    hide After, Applied, Arrived, Stuck, Passed;
    var s := After(w, at).snapshot;
    AfterStep(w, at, op);
    if Apply(w, After(w, at), op).Ok? {
      if op == DeliverAll {
        DeliveryIsExact(w, at);
        var i :| 0 <= i < |s.pending| && s.pending[i] == m;
        if Stuck(s, i) {
          StuckStays(s, |s.pending|, i);
        } else {
          PassedArrives(s, After(w, at + [op]).snapshot, i);
        }
      } else {
        QueueKeepsAll(w, s, op, m);
      }
    }
  }

  lemma PassedArrives(s: Snapshot, t: Snapshot, i: nat)
    requires i < |s.pending| && Passed(s, t, |s.pending|) && !Stuck(s, i)
    ensures Arrived(t, s.pending[i])
  {
    hide Stuck, Arrived, HoldersAfter, EntriesAfter, BlobsAfter;
  }

  /** No message is ever lost: whatever happens, it is still queued or was delivered whole. */
  lemma {:induction false} NoMessageIsLost(w: World, attempts: seq<Operation>, more: seq<Operation>, m: Message)
    requires w.config.Valid() && m in After(w, attempts).snapshot.pending
    ensures m in After(w, attempts + more).snapshot.pending
            || exists j :: 0 <= j < |more| && DeliveredAt(w, attempts + more[..j], more[j], m)
    decreases |more|
  {
    hide After, DeliveredAt;
    if more == [] {
      assert attempts + more == attempts;
    } else {
      var n := |more| - 1;
      var init := more[..n];
      NoMessageIsLost(w, attempts, init, m);
      assert attempts + more == (attempts + init) + [more[n]];
      if m in After(w, attempts + init).snapshot.pending {
        MessageStep(w, attempts + init, more[n], m);
      } else {
        var j :| 0 <= j < n && DeliveredAt(w, attempts + init[..j], init[j], m);
        assert init[..j] == more[..j];
        assert DeliveredAt(w, attempts + more[..j], more[j], m);
      }
    }
  }

  // ---------------------------------------------------------------- what was sent arrives

  /** `to` has all of `from`'s replica as it was in `s`: its entries or newer ones, and its blobs. */
  predicate HasAll(s: Snapshot, from: NodeId, t: Snapshot, to: NodeId, d: DocumentId) {
    && CapabilityOf(t, to, d).Some?
    && Supersedes(EntriesOf(t, to, d), EntriesOf(s, from, d))
    && ReferredBlobs(s, from, d) <= BlobsOf(t, to).Keys
  }

  lemma ArrivedIsAll(s: Snapshot, t: Snapshot, m: Message, from: NodeId, to: NodeId, d: DocumentId,
                     grant: Option<Capability>)
    requires CopyFor(s, m, from, to, d, grant) && Arrived(t, m)
    ensures HasAll(s, from, t, to, d) && AtLeast(CapabilityOf(t, to, d), grant)
  {
    hide EntriesOf, CapabilityOf, BlobsOf, Supersedes, ReferredBlobs;
  }

  /** A delivery attempted right after `at` brought `to` all of `from`'s replica as it was in `s`. */
  ghost predicate Brings(w: World, at: seq<Operation>, op: Operation, s: Snapshot, from: NodeId, to: NodeId,
                         d: DocumentId, grant: Option<Capability>) {
    && op == DeliverAll && Apply(w, After(w, at), DeliverAll).Ok?
    && HasAll(s, from, After(w, at + [DeliverAll]).snapshot, to, d)
    && AtLeast(CapabilityOf(After(w, at + [DeliverAll]).snapshot, to, d), grant)
  }

  /**
   What a holder sends with no drop pending arrives: at every later moment a copy of its replica is still queued, or
   some delivery since then has brought the receiver all of it, entries, blobs and grant.
   */
  lemma SentReplicasArrive(w: World, attempts: seq<Operation>, op: Operation, more: seq<Operation>, from: NodeId,
                           to: NodeId, d: DocumentId, grant: Option<Capability>)
    requires w.config.Valid() && Apply(w, After(w, attempts), op).Ok? && Sends(op, from, to, d, grant)
    requires CapabilityOf(After(w, attempts).snapshot, from, d).Some? && Drop !in After(w, attempts).snapshot.faults
    ensures var s, start := After(w, attempts).snapshot, attempts + [op];
            || (exists m :: CopyFor(s, m, from, to, d, grant) && m in After(w, start + more).snapshot.pending)
            || (exists j :: 0 <= j < |more| && Brings(w, start + more[..j], more[j], s, from, to, d, grant))
  {
    hide After, Applied, CapabilityOf, CopyFor, Arrived, HasAll, AtLeast;
    var s, start := After(w, attempts).snapshot, attempts + [op];
    AfterStep(w, attempts, op);
    SendingQueues(w, s, op, from, to, d, grant);
    var m :| CopyFor(s, m, from, to, d, grant) && m in After(w, start).snapshot.pending;
    NoMessageIsLost(w, start, more, m);
    if m !in After(w, start + more).snapshot.pending {
      var j :| 0 <= j < |more| && DeliveredAt(w, start + more[..j], more[j], m);
      ArrivedIsAll(s, After(w, start + more[..j] + [DeliverAll]).snapshot, m, from, to, d, grant);
      assert Brings(w, start + more[..j], more[j], s, from, to, d, grant);
    }
  }

  /** A granted message is stuck only by a partition, a plain one also by a receiver without the document. */
  lemma NextDeliveryBrings(w: World, attempts: seq<Operation>, m: Message)
    requires w.config.Valid() && Apply(w, After(w, attempts), DeliverAll).Ok?
    requires var s := After(w, attempts).snapshot;
             && m in s.pending && !Separated(s, m.from, m.to)
             && (m.grant.Some? || CapabilityOf(s, m.to, m.document).Some?)
    ensures Arrived(After(w, attempts + [DeliverAll]).snapshot, m)
  {
    hide After, Arrived, Passed;
    var s := After(w, attempts).snapshot;
    DeliveryIsExact(w, attempts);
    var i :| 0 <= i < |s.pending| && s.pending[i] == m;
    PassedArrives(s, After(w, attempts + [DeliverAll]).snapshot, i);
  }

  /** Shared, and delivered before the two are separated: the receiver has all of the sender's replica. */
  lemma ShareThenDeliver(w: World, attempts: seq<Operation>, from: NodeId, to: NodeId, d: DocumentId, c: Capability)
    requires w.config.Valid() && Drop !in After(w, attempts).snapshot.faults
    requires var start := attempts + [Share(from, to, d, c)];
             && Apply(w, After(w, attempts), Share(from, to, d, c)).Ok? && Apply(w, After(w, start), DeliverAll).Ok?
    ensures var s := After(w, attempts).snapshot;
            var final := After(w, attempts + [Share(from, to, d, c)] + [DeliverAll]).snapshot;
            HasAll(s, from, final, to, d) && AtLeast(CapabilityOf(final, to, d), Some(c))
  {
    var s := After(w, attempts).snapshot;
    ShareConnects(w, s, from, to, d, c);
    hide After, Applied, CapabilityOf, CopyFor, Arrived, HasAll, AtLeast, Separated;
    AfterStep(w, attempts, Share(from, to, d, c));
    var start := attempts + [Share(from, to, d, c)];
    SendingQueues(w, s, Share(from, to, d, c), from, to, d, Some(c));
    var m :| CopyFor(s, m, from, to, d, Some(c)) && m in After(w, start).snapshot.pending;
    CopyIsAddressed(s, m, from, to, d, Some(c));
    NextDeliveryBrings(w, start, m);
    ArrivedIsAll(s, After(w, start + [DeliverAll]).snapshot, m, from, to, d, Some(c));
  }

  lemma ShareConnects(w: World, s: Snapshot, from: NodeId, to: NodeId, d: DocumentId, c: Capability)
    requires Applied(w, s, Share(from, to, d, c)).Ok?
    ensures CapabilityOf(s, from, d).Some? && !Separated(Applied(w, s, Share(from, to, d, c)).value, from, to)
  {
    hide MessageFrom, Queued, CopyFor;
    ShareSends(w, s, from, to, d, c);
  }

  lemma CopyIsAddressed(s: Snapshot, m: Message, from: NodeId, to: NodeId, d: DocumentId, grant: Option<Capability>)
    requires CopyFor(s, m, from, to, d, grant)
    ensures m.from == from && m.to == to && m.document == d && m.grant == grant
  {
    hide Copies;
  }
}
