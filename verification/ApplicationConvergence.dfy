/** Delivery converges: its result depends on which messages are queued, not on their order or repetition. */
module ApplicationConvergence {
  import opened Base
  import opened Order
  import opened Application
  import opened ApplicationMerge
  import opened ApplicationBounds
  import opened ApplicationHistory
  import opened ApplicationRuns

  // ---------------------------------------------------------------- the order-free description

  predicate AddressedTo(m: Message, n: NodeId, d: DocumentId) {
    m.to == n && m.document == d
  }

  /** The keys the queue would bring to one replica. */
  function IncomingKeys(pending: seq<Message>, n: NodeId, d: DocumentId): set<Key> {
    set m, k | m in pending && AddressedTo(m, n, d) && k in m.entries :: k
  }

  function IncomingBlobs(pending: seq<Message>, n: NodeId): set<BlobHash> {
    set m, h | m in pending && m.to == n && h in m.blobs :: h
  }

  /** The keys one replica would end up with. */
  function TotalKeys(s: Snapshot, n: NodeId, d: DocumentId): set<Key> {
    EntriesOf(s, n, d).Keys + IncomingKeys(s.pending, n, d)
  }

  function TotalBlobs(s: Snapshot, n: NodeId): set<BlobHash> {
    BlobsOf(s, n).Keys + IncomingBlobs(s.pending, n)
  }

  /** Everything the queue brings fits within the configured limits. */
  ghost predicate AllFit(w: World, s: Snapshot) {
    && (forall n, d :: |TotalKeys(s, n, d)| <= w.config.maxEntriesPerDocument)
    && (forall n :: |TotalBlobs(s, n)| <= w.config.maxBlobsPerNode)
  }

  /** Nothing stands in the way of `m`: its destination runs, can store, is reachable and holds the document. */
  predicate Deliverable(s: Snapshot, m: Message) {
    && m.to in s.nodes && s.nodes[m.to].running && !s.nodes[m.to].storageFault
    && !Separated(s, m.from, m.to)
    && m.document in s.nodes[m.to].documents
  }

  /** Some version of the entry at `(n, d, k)` after delivery: already there, or in a queued message. */
  ghost predicate Candidate(s: Snapshot, n: NodeId, d: DocumentId, k: Key, e: Entry) {
    Has(EntriesOf(s, n, d), k, e) || exists m :: m in s.pending && AddressedTo(m, n, d) && Has(m.entries, k, e)
  }

  /** `e` is a candidate that no other candidate beats. */
  ghost predicate Winner(s: Snapshot, n: NodeId, d: DocumentId, k: Key, e: Entry) {
    Candidate(s, n, d, k, e) && forall e' | Candidate(s, n, d, k, e') :: NotOlder(e, e')
  }

  /** One revision number stands for one entry. */
  ghost predicate Unambiguous(s: Snapshot) {
    forall d, k, e, e' | Carries(s, d, k, e) && Carries(s, d, k, e') && e.revision == e'.revision :: e == e'
  }

  /** The state delivery must reach, described without mentioning any order. */
  ghost predicate Settled(s: Snapshot, final: Snapshot) {
    && final.pending == []
    && (forall n, d :: EntriesOf(final, n, d).Keys == TotalKeys(s, n, d))
    && (forall n, d, k | k in EntriesOf(final, n, d) :: Winner(s, n, d, k, EntriesOf(final, n, d)[k]))
    && (forall n, d :: HoldsWrite(final, n, d) <==> HoldsWrite(s, n, d) || WriteOffered(s, n, d))
    && (forall n, d :: CapabilityOf(final, n, d).Some? <==> CapabilityOf(s, n, d).Some?)
    && (forall n :: BlobsOf(final, n).Keys == TotalBlobs(s, n))
  }

  ghost predicate WithinLimits(w: World, s: Snapshot) {
    && (forall n, d :: |EntriesOf(s, n, d)| <= w.config.maxEntriesPerDocument)
    && (forall n :: |BlobsOf(s, n)| <= w.config.maxBlobsPerNode)
  }

  // ---------------------------------------------------------------- one message

  lemma IncomingSplit(p: seq<Message>, n: NodeId, d: DocumentId)
    requires p != []
    ensures IncomingKeys(p, n, d)
         == (if AddressedTo(p[0], n, d) then p[0].entries.Keys else {}) + IncomingKeys(p[1..], n, d)
    ensures IncomingBlobs(p, n) == (if p[0].to == n then p[0].blobs.Keys else {}) + IncomingBlobs(p[1..], n)
  {
    assert p == [p[0]] + p[1..];
    hide AddressedTo;
  }

  ghost predicate Ready(w: World, s: Snapshot) {
    AllHashed(w, s.pending) && WithinLimits(w, s) && forall m | m in s.pending :: Deliverable(s, m)
  }

  /** The state after landing the head of the queue. */
  function LandHead(s: Snapshot): Snapshot
    requires s.pending != [] && Deliverable(s, s.pending[0])
  {
    SetNode(s.(pending := s.pending[1..]), s.pending[0].to, Landed(s.nodes[s.pending[0].to], s.pending[0]))
  }

  predicate HeadFits(w: World, s: Snapshot)
    requires s.pending != []
  {
    var m := s.pending[0];
    && |EntriesOf(s, m.to, m.document).Keys + m.entries.Keys| <= w.config.maxEntriesPerDocument
    && |BlobsOf(s, m.to).Keys + m.blobs.Keys| <= w.config.maxBlobsPerNode
  }

  lemma FitsIsSize<K, V>(limit: nat, have: map<K, V>, incoming: set<K>)
    requires |have| <= limit
    ensures Fits(limit, have, incoming) <==> |have.Keys + incoming| <= limit
  {
    if incoming <= have.Keys { assert have.Keys + incoming == have.Keys; }
  }

  /** A ready head message is delivered exactly when its own contents fit. */
  lemma HeadDelivered(w: World, s: Snapshot)
    requires Ready(w, s) && s.pending != []
    ensures Deliverable(s, s.pending[0])
    ensures DeliveredOne(w, s).Ok? <==> HeadFits(w, s)
    ensures HeadFits(w, s) ==> DeliveredOne(w, s) == Ok(LandHead(s))
  {
    var m := s.pending[0];
    var popped := s.(pending := s.pending[1..]);
    assert Deliverable(s, m) && Hashed(w, m.blobs);
    FitsIsSize(w.config.maxEntriesPerDocument, EntriesOf(s, m.to, m.document), m.entries.Keys);
    FitsIsSize(w.config.maxBlobsPerNode, BlobsOf(s, m.to), m.blobs.Keys);
    ReceivedClosed(w, popped, m);
    hide Fits, Landed, Hashed, Received, WithinLimits, AllHashed;
  }

  lemma DeliverableStep(s: Snapshot, m: Message)
    requires s.pending != [] && Deliverable(s, s.pending[0]) && Deliverable(s, m)
    ensures Deliverable(LandHead(s), m)
  {
  }

  lemma LimitsStep(w: World, s: Snapshot)
    requires s.pending != [] && Deliverable(s, s.pending[0]) && HeadFits(w, s) && WithinLimits(w, s)
    ensures WithinLimits(w, LandHead(s))
  {
    var next := LandHead(s);
    hide EntriesOf, BlobsOf, Landed, Deliverable, HeadFits;
    forall n, d ensures |EntriesOf(next, n, d)| <= w.config.maxEntriesPerDocument { SizesStep(w, s, n, d); }
    forall n ensures |BlobsOf(next, n)| <= w.config.maxBlobsPerNode { SizesStep(w, s, n, []); }
  }

  lemma SizesStep(w: World, s: Snapshot, n: NodeId, d: DocumentId)
    requires s.pending != [] && Deliverable(s, s.pending[0]) && HeadFits(w, s)
    requires |EntriesOf(s, n, d)| <= w.config.maxEntriesPerDocument && |BlobsOf(s, n)| <= w.config.maxBlobsPerNode
    ensures |EntriesOf(LandHead(s), n, d)| <= w.config.maxEntriesPerDocument
    ensures |BlobsOf(LandHead(s), n)| <= w.config.maxBlobsPerNode
  {
    var m := s.pending[0];
    var popped := s.(pending := s.pending[1..]);
    LandedObserved(popped, m, n, d);
    assert EntriesOf(popped, n, d) == EntriesOf(s, n, d) && BlobsOf(popped, n) == BlobsOf(s, n);
    hide EntriesOf, BlobsOf, Landed, Pick;
    assert n == m.to && d == m.document
      ==> EntriesOf(LandHead(s), n, d).Keys == EntriesOf(s, n, d).Keys + m.entries.Keys;
    assert n == m.to ==> BlobsOf(LandHead(s), n).Keys == BlobsOf(s, n).Keys + m.blobs.Keys;
  }

  lemma ReadyStep(w: World, s: Snapshot)
    requires Ready(w, s) && s.pending != [] && Deliverable(s, s.pending[0]) && HeadFits(w, s)
    ensures Ready(w, LandHead(s))
  {
    hide Deliverable, Landed, Hashed, WithinLimits, HeadFits;
    LimitsStep(w, s);
    forall m | m in LandHead(s).pending ensures m in s.pending && Deliverable(LandHead(s), m) {
      assert m in s.pending;
      DeliverableStep(s, m);
    }
  }

  /** Landing the head of the queue leaves the totals as they were. */
  lemma TotalsStep(s: Snapshot, n: NodeId, d: DocumentId)
    requires s.pending != [] && Deliverable(s, s.pending[0])
    ensures TotalKeys(LandHead(s), n, d) == TotalKeys(s, n, d)
    ensures TotalBlobs(LandHead(s), n) == TotalBlobs(s, n)
  {
    var m := s.pending[0];
    var popped := s.(pending := s.pending[1..]);
    IncomingSplit(s.pending, n, d);
    LandedObserved(popped, m, n, d);
    assert EntriesOf(popped, n, d) == EntriesOf(s, n, d) && BlobsOf(popped, n) == BlobsOf(s, n);
    hide EntriesOf, BlobsOf, IncomingKeys, IncomingBlobs, Landed;
  }

  lemma AllFitStep(w: World, s: Snapshot)
    requires s.pending != [] && Deliverable(s, s.pending[0])
    ensures AllFit(w, LandHead(s)) <==> AllFit(w, s)
  {
    hide TotalKeys, TotalBlobs, LandHead;
    forall n, d ensures TotalKeys(LandHead(s), n, d) == TotalKeys(s, n, d) { TotalsStep(s, n, d); }
    forall n ensures TotalBlobs(LandHead(s), n) == TotalBlobs(s, n) { TotalsStep(s, n, []); }
  }

  lemma HeadIsPart(w: World, s: Snapshot)
    requires s.pending != [] && AllFit(w, s)
    ensures HeadFits(w, s)
  {
    var m := s.pending[0];
    IncomingSplit(s.pending, m.to, m.document);
    SubsetSize(EntriesOf(s, m.to, m.document).Keys + m.entries.Keys, TotalKeys(s, m.to, m.document));
    SubsetSize(BlobsOf(s, m.to).Keys + m.blobs.Keys, TotalBlobs(s, m.to));
    hide EntriesOf, BlobsOf, IncomingKeys, IncomingBlobs;
  }

  /** Delivery of a ready queue succeeds exactly when everything it brings fits. */
  lemma {:induction false} DeliveredIffFit(w: World, s: Snapshot)
    requires Ready(w, s)
    ensures Delivered(w, s, |s.pending|).Ok? <==> AllFit(w, s)
    decreases |s.pending|
  {
    hide Ready, AllFit, HeadFits, DeliveredOne, LandHead, Deliverable;
    if s.pending == [] {
      NothingIncoming(w, s);
    } else {
      HeadDelivered(w, s);
      if HeadFits(w, s) {
        AllFitStep(w, s);
        ReadyStep(w, s);
        LandHeadShortens(s);
        DeliveredIffFit(w, LandHead(s));
      } else if AllFit(w, s) {
        HeadIsPart(w, s);
      }
    }
  }

  lemma LandHeadShortens(s: Snapshot)
    requires s.pending != [] && Deliverable(s, s.pending[0])
    ensures LandHead(s).pending == s.pending[1..]
  {
  }

  lemma NothingIncoming(w: World, s: Snapshot)
    requires Ready(w, s) && s.pending == []
    ensures AllFit(w, s)
  {
    hide EntriesOf, BlobsOf;
    forall n, d ensures TotalKeys(s, n, d) == EntriesOf(s, n, d).Keys {}
    forall n ensures TotalBlobs(s, n) == BlobsOf(s, n).Keys {}
  }

  // ---------------------------------------------------------------- the outcome

  lemma CandidateIsCarried(s: Snapshot, n: NodeId, d: DocumentId, k: Key, e: Entry)
    requires Candidate(s, n, d, k, e)
    ensures Carries(s, d, k, e)
  {
    hide EntriesOf;
    if m :| m in s.pending && AddressedTo(m, n, d) && Has(m.entries, k, e) {
      assert m.document == d;
    }
  }

  /** Revision-then-author orders any two entries with a different revision or author. */
  lemma NewerIsTotal(a: Entry, b: Entry)
    ensures Newer(a, b) || Newer(b, a) || (a.revision == b.revision && a.author == b.author)
    ensures !(Newer(a, b) && Newer(b, a))
  {
    Trichotomy(a.author, b.author);
    if Less(a.author, b.author) { Asymmetric(a.author, b.author); }
  }

  /** Candidates after landing were candidates before, and beat every candidate of before. */
  lemma CandidatesStep(s: Snapshot, n: NodeId, d: DocumentId, k: Key, e: Entry)
    requires s.pending != [] && Deliverable(s, s.pending[0]) && Unambiguous(s)
    ensures Candidate(LandHead(s), n, d, k, e) ==> Candidate(s, n, d, k, e)
    ensures Candidate(s, n, d, k, e) ==> exists e' :: Candidate(LandHead(s), n, d, k, e') && NotOlder(e', e)
  {
    var m := s.pending[0];
    var popped := s.(pending := s.pending[1..]);
    var next := LandHead(s);
    LandedObserved(popped, m, n, d);
    assert EntriesOf(popped, n, d) == EntriesOf(s, n, d);
    assert m in s.pending;
    var have := EntriesOf(s, n, d);
    hide EntriesOf, Landed;
    if Candidate(next, n, d, k, e) {
      if Has(EntriesOf(next, n, d), k, e) {
        assert Has(have, k, e) || (AddressedTo(m, n, d) && Has(m.entries, k, e));
      } else {
        var m' :| m' in next.pending && AddressedTo(m', n, d) && Has(m'.entries, k, e);
        assert m' in s.pending;
      }
    }
    if Candidate(s, n, d, k, e) {
      if m' :| m' in s.pending[1..] && AddressedTo(m', n, d) && Has(m'.entries, k, e) {
        assert m' in next.pending;
        assert Candidate(next, n, d, k, e);
      } else {
        assert Has(have, k, e) || (AddressedTo(m, n, d) && Has(m.entries, k, e));
        var e' := EntriesOf(next, n, d)[k];
        assert Has(EntriesOf(next, n, d), k, e');
        if AddressedTo(m, n, d) && k in have && k in m.entries {
          assert Has(have, k, have[k]) && Has(m.entries, k, m.entries[k]);
          CandidateIsCarried(s, n, d, k, have[k]);
          CandidateIsCarried(s, n, d, k, m.entries[k]);
          NewerIsTotal(m.entries[k], have[k]);
        }
        assert NotOlder(e', e);
      }
    }
  }

  lemma WinnerStep(s: Snapshot, n: NodeId, d: DocumentId, k: Key, e: Entry)
    requires s.pending != [] && Deliverable(s, s.pending[0]) && Unambiguous(s)
    requires Winner(LandHead(s), n, d, k, e)
    ensures Winner(s, n, d, k, e)
  {
    hide Candidate, Landed;
    CandidatesStep(s, n, d, k, e);
    forall e' | Candidate(s, n, d, k, e') ensures NotOlder(e, e') {
      CandidatesStep(s, n, d, k, e');
      var better :| Candidate(LandHead(s), n, d, k, better) && NotOlder(better, e');
      NotOlderTransitive(e, better, e');
    }
  }

  lemma CapabilityStep(s: Snapshot, n: NodeId, d: DocumentId)
    requires s.pending != [] && Deliverable(s, s.pending[0])
    ensures var next := LandHead(s);
            && (HoldsWrite(next, n, d) || WriteOffered(next, n, d) <==> HoldsWrite(s, n, d) || WriteOffered(s, n, d))
            && (CapabilityOf(next, n, d).Some? <==> CapabilityOf(s, n, d).Some?)
  {
    var m := s.pending[0];
    var popped := s.(pending := s.pending[1..]);
    var next := LandHead(s);
    LandedObserved(popped, m, n, d);
    assert CapabilityOf(popped, n, d) == CapabilityOf(s, n, d);
    assert m.document in s.nodes[m.to].documents ==> CapabilityOf(s, m.to, m.document).Some?;
    hide CapabilityOf, Landed;
    assert m in s.pending;
    if WriteOffered(s, n, d) {
      var m' :| m' in s.pending && Offers(s, m', n, d);
      if m' != m { assert m' in next.pending && Offers(next, m', n, d); }
    }
    if WriteOffered(next, n, d) {
      var m' :| m' in next.pending && Offers(next, m', n, d);
      assert m' in s.pending && Offers(s, m', n, d);
    }
    if HoldsWrite(next, n, d) && !HoldsWrite(s, n, d) { assert Offers(s, m, n, d); }
  }

  lemma SettledStep(s: Snapshot, final: Snapshot)
    requires s.pending != [] && Deliverable(s, s.pending[0]) && Unambiguous(s)
    requires Settled(LandHead(s), final)
    ensures Settled(s, final)
  {
    var next := LandHead(s);
    hide EntriesOf, BlobsOf, CapabilityOf, TotalKeys, TotalBlobs, Winner, WriteOffered, HoldsWrite, LandHead,
      Unambiguous;
    forall n, d ensures EntriesOf(final, n, d).Keys == TotalKeys(s, n, d) { TotalsStep(s, n, d); }
    forall n ensures BlobsOf(final, n).Keys == TotalBlobs(s, n) { TotalsStep(s, n, []); }
    forall n, d, k | k in EntriesOf(final, n, d) ensures Winner(s, n, d, k, EntriesOf(final, n, d)[k]) {
      WinnerStep(s, n, d, k, EntriesOf(final, n, d)[k]);
    }
    forall n, d
      ensures HoldsWrite(final, n, d) <==> HoldsWrite(s, n, d) || WriteOffered(s, n, d)
      ensures CapabilityOf(final, n, d).Some? <==> CapabilityOf(s, n, d).Some?
    {
      CapabilityStep(s, n, d);
    }
  }

  lemma UnambiguousStep(s: Snapshot)
    requires s.pending != [] && Deliverable(s, s.pending[0]) && Unambiguous(s)
    ensures Unambiguous(LandHead(s))
  {
    LandedDerives(s, s.pending[0]);
    hide Carries, Landed;
  }

  lemma EmptySettles(s: Snapshot)
    requires s.pending == []
    ensures Settled(s, s)
  {
    hide EntriesOf, BlobsOf, CapabilityOf;
  }

  /** A successful delivery of a ready queue reaches the settled state. */
  lemma {:induction false} DeliveredSettles(w: World, s: Snapshot)
    requires Ready(w, s) && Unambiguous(s) && Delivered(w, s, |s.pending|).Ok?
    ensures Settled(s, Delivered(w, s, |s.pending|).value)
    decreases |s.pending|
  {
    hide Ready, Unambiguous, HeadFits, Settled, Deliverable, LandHead, DeliveredOne;
    if s.pending == [] {
      EmptySettles(s);
    } else {
      HeadDelivered(w, s);
      ReadyStep(w, s);
      UnambiguousStep(s);
      LandHeadShortens(s);
      DeliveredSettles(w, LandHead(s));
      SettledStep(s, Delivered(w, s, |s.pending|).value);
    }
  }

  // ---------------------------------------------------------------- convergence

  lemma WinnerIsUnique(s: Snapshot, n: NodeId, d: DocumentId, k: Key, e: Entry, e': Entry)
    requires Winner(s, n, d, k, e) && Winner(s, n, d, k, e')
    ensures e == e'
  {
    hide Candidate;
    NewerIsTotal(e, e');
  }

  /** Two states that differ only in how the queue is ordered and how often it repeats a message. */
  ghost predicate SameMessages(s: Snapshot, t: Snapshot) {
    s.nodes == t.nodes && s.partitions == t.partitions && forall m :: m in s.pending <==> m in t.pending
  }

  lemma SameMessagesObserved(s: Snapshot, t: Snapshot, n: NodeId, d: DocumentId)
    requires SameMessages(s, t)
    ensures EntriesOf(s, n, d) == EntriesOf(t, n, d) && CapabilityOf(s, n, d) == CapabilityOf(t, n, d)
            && BlobsOf(s, n) == BlobsOf(t, n)
    ensures TotalKeys(s, n, d) == TotalKeys(t, n, d) && TotalBlobs(s, n) == TotalBlobs(t, n)
    ensures WriteOffered(s, n, d) <==> WriteOffered(t, n, d)
  {
    assert WriteOffered(s, n, d) ==> WriteOffered(t, n, d) by {
      if m :| m in s.pending && Offers(s, m, n, d) { assert m in t.pending && Offers(t, m, n, d); }
    }
    assert WriteOffered(t, n, d) ==> WriteOffered(s, n, d) by {
      if m :| m in t.pending && Offers(t, m, n, d) { assert m in s.pending && Offers(s, m, n, d); }
    }
  }

  lemma SameMessagesCandidates(s: Snapshot, t: Snapshot, n: NodeId, d: DocumentId, k: Key, e: Entry)
    requires SameMessages(s, t) && Candidate(s, n, d, k, e)
    ensures Candidate(t, n, d, k, e)
  {
  }

  lemma SameMessagesWinner(s: Snapshot, t: Snapshot, n: NodeId, d: DocumentId, k: Key, e: Entry)
    requires SameMessages(s, t) && Winner(s, n, d, k, e)
    ensures Winner(t, n, d, k, e)
  {
    hide Candidate;
    SameMessagesCandidates(s, t, n, d, k, e);
    forall e' | Candidate(t, n, d, k, e') ensures NotOlder(e, e') { SameMessagesCandidates(t, s, n, d, k, e'); }
  }

  /** What two deliveries agree on; the bytes filed under a hash could differ only by a hash collision. */
  ghost predicate Agree(s: Snapshot, t: Snapshot) {
    && s.pending == t.pending
    && (forall n, d :: EntriesOf(s, n, d) == EntriesOf(t, n, d))
    && (forall n, d :: CapabilityOf(s, n, d) == CapabilityOf(t, n, d))
    && (forall n :: BlobsOf(s, n).Keys == BlobsOf(t, n).Keys)
  }

  lemma SameCapability(x: Option<Capability>, y: Option<Capability>)
    requires (x.Some? <==> y.Some?) && (x == Some(Write) <==> y == Some(Write))
    ensures x == y
  {
    if x.Some? { assert (x.value == Read || x.value == Write) && (y.value == Read || y.value == Write); }
  }

  lemma SettledAgree(s: Snapshot, t: Snapshot, a: Snapshot, b: Snapshot)
    requires SameMessages(s, t) && Settled(s, a) && Settled(t, b)
    ensures Agree(a, b)
  {
    hide EntriesOf, CapabilityOf, BlobsOf, TotalKeys, TotalBlobs, Winner, WriteOffered, SameMessages;
    forall n, d ensures EntriesOf(a, n, d) == EntriesOf(b, n, d) {
      SameMessagesObserved(s, t, n, d);
      forall k | k in EntriesOf(a, n, d) ensures EntriesOf(a, n, d)[k] == EntriesOf(b, n, d)[k] {
        SameMessagesWinner(s, t, n, d, k, EntriesOf(a, n, d)[k]);
        WinnerIsUnique(t, n, d, k, EntriesOf(a, n, d)[k], EntriesOf(b, n, d)[k]);
      }
      assert EntriesOf(a, n, d) == EntriesOf(b, n, d);
    }
    forall n, d ensures CapabilityOf(a, n, d) == CapabilityOf(b, n, d) {
      SameMessagesObserved(s, t, n, d);
      assert HoldsWrite(a, n, d) <==> HoldsWrite(b, n, d);
      SameCapability(CapabilityOf(a, n, d), CapabilityOf(b, n, d));
    }
    forall n ensures BlobsOf(a, n).Keys == BlobsOf(b, n).Keys { SameMessagesObserved(s, t, n, []); }
  }

  lemma InvIsUnambiguous(w: World, m: Model)
    requires Inv(w, m)
    ensures Unambiguous(m.snapshot)
  {
    var ops := Operations(m.trace);
    hide WellFormed, Authority, Carries, Writes;
    forall d, k, e, e' | Carries(m.snapshot, d, k, e) && Carries(m.snapshot, d, k, e') && e.revision == e'.revision
      ensures e == e'
    {
      assert ByWrite(ops, d, k, e) && ByWrite(ops, d, k, e');
    }
  }

  lemma InvIsWithinLimits(w: World, m: Model)
    requires Inv(w, m)
    ensures WithinLimits(w, m.snapshot)
  {
    var s := m.snapshot;
    assert WellFormed(w, s);
    hide Inv, BlobsOk;
    forall n, d ensures |EntriesOf(s, n, d)| <= w.config.maxEntriesPerDocument {
      if n in s.nodes { assert NodeOk(w, n, s.nodes[n]); }
    }
    forall n ensures |BlobsOf(s, n)| <= w.config.maxBlobsPerNode {
      if n in s.nodes { assert NodeOk(w, n, s.nodes[n]); }
    }
  }

  /** Another queue changes nothing about the replicas, and messages stay deliverable. */
  lemma SameNodesObserved(s: Snapshot, queue: seq<Message>)
    ensures var t := s.(pending := queue);
            && (forall n, d :: EntriesOf(t, n, d) == EntriesOf(s, n, d)) && (forall n :: BlobsOf(t, n) == BlobsOf(s, n))
            && (forall m :: Deliverable(t, m) == Deliverable(s, m))
  {
  }

  /** With every destination up, writable, reachable and holding the document, the queue is ready. */
  lemma ReachableIsReady(w: World, attempts: seq<Operation>, queue: seq<Message>)
    requires w.config.Valid()
    requires var s := After(w, attempts).snapshot;
             forall m | m in queue :: m in s.pending && Deliverable(s, m)
    ensures var t := After(w, attempts).snapshot.(pending := queue); Ready(w, t) && Unambiguous(t)
  {
    hide Inv, After, Hashed, RevisionsBelow, Carries, Deliverable, EntriesOf, BlobsOf;
    var m := After(w, attempts);
    RunsKeepInv(w, attempts);
    InvSupportsStep(w, m);
    InvIsUnambiguous(w, m);
    InvIsWithinLimits(w, m);
    SubqueueDerives(m.snapshot, queue);
    SameNodesObserved(m.snapshot, queue);
  }

  lemma SubqueueDerives(s: Snapshot, queue: seq<Message>)
    requires forall m | m in queue :: m in s.pending
    ensures Derives(s, s.(pending := queue))
  {
    SameReplicasDerive(s, s.(pending := queue));
  }

  /**
   Convergence: from any reachable state whose queued messages are all deliverable, every reordering
   and every duplication of the queue succeeds or fails alike and ends in agreeing states.
   */
  lemma DeliveryConverges(w: World, attempts: seq<Operation>, queue: seq<Message>)
    requires w.config.Valid()
    requires var s := After(w, attempts).snapshot;
             (forall m | m in s.pending :: Deliverable(s, m)) && (forall m :: m in queue <==> m in s.pending)
    ensures var s := After(w, attempts).snapshot;
            var r, r' := Delivered(w, s, |s.pending|), Delivered(w, s.(pending := queue), |queue|);
            && (r.Ok? <==> r'.Ok?)
            && (r.Ok? ==> Agree(r.value, r'.value))
  {
    var s := After(w, attempts).snapshot;
    var t := s.(pending := queue);
    ReachableIsReady(w, attempts, s.pending);
    ReachableIsReady(w, attempts, queue);
    assert s.(pending := s.pending) == s;
    assert SameMessages(s, t);
    hide After, Ready, Unambiguous, SameMessages, Delivered, Deliverable, Agree;
    DeliveredIffFit(w, s);
    DeliveredIffFit(w, t);
    SameMessagesFit(w, s, t);
    if Delivered(w, s, |s.pending|).Ok? {
      DeliveredSettles(w, s);
      DeliveredSettles(w, t);
      SettledAgree(s, t, Delivered(w, s, |s.pending|).value, Delivered(w, t, |queue|).value);
    }
  }

  lemma SameMessagesFit(w: World, s: Snapshot, t: Snapshot)
    requires SameMessages(s, t)
    ensures AllFit(w, s) <==> AllFit(w, t)
  {
    hide TotalKeys, TotalBlobs, SameMessages;
    forall n, d ensures TotalKeys(s, n, d) == TotalKeys(t, n, d) { SameMessagesObserved(s, t, n, d); }
    forall n ensures TotalBlobs(s, n) == TotalBlobs(t, n) { SameMessagesObserved(s, t, n, []); }
  }

  /** The same, in closed form: success is exactly fitting, and the result is exactly the newest of everything. */
  lemma DeliveryOutcome(w: World, attempts: seq<Operation>)
    requires w.config.Valid()
    requires var s := After(w, attempts).snapshot; forall m | m in s.pending :: Deliverable(s, m)
    ensures var s := After(w, attempts).snapshot;
            var r := Delivered(w, s, |s.pending|);
            && (r.Ok? <==> AllFit(w, s))
            && (r.Ok? ==> Settled(s, r.value))
  {
    var s := After(w, attempts).snapshot;
    ReachableIsReady(w, attempts, s.pending);
    assert s.(pending := s.pending) == s;
    hide After, Ready, Unambiguous, Delivered, Deliverable, Settled, AllFit;
    DeliveredIffFit(w, s);
    if Delivered(w, s, |s.pending|).Ok? { DeliveredSettles(w, s); }
  }

  // ---------------------------------------------------------------- synchronizing two holders

  /**
   Both holders of `d` end up with the pointwise newest of what the two had, and each with its own blobs and those
   that the other one's replica referred to and the other one had.
   */
  ghost predicate Synced(s: Snapshot, final: Snapshot, left: NodeId, right: NodeId, d: DocumentId) {
    var newest := Newest(EntriesOf(s, left, d), EntriesOf(s, right, d));
    && EntriesOf(final, left, d) == newest && EntriesOf(final, right, d) == newest
    && BlobsOf(final, left).Keys == BlobsOf(s, left).Keys + ReferredBlobs(s, right, d)
    && BlobsOf(final, right).Keys == BlobsOf(s, right).Keys + ReferredBlobs(s, left, d)
  }

  /** Neither holder has anything for the other: the same entries, and no blob that the other one lacks. */
  predicate NothingToExchange(s: Snapshot, left: NodeId, right: NodeId, d: DocumentId) {
    && EntriesOf(s, left, d) == EntriesOf(s, right, d)
    && ReferredBlobs(s, left, d) <= BlobsOf(s, right).Keys && ReferredBlobs(s, right, d) <= BlobsOf(s, left).Keys
  }

  /** `t` is `s` with exactly the two replicas of `d` in flight, each towards the other holder. */
  predicate Exchange(s: Snapshot, t: Snapshot, left: NodeId, right: NodeId, d: DocumentId) {
    && t == s.(pending := t.pending) && |t.pending| == 2
    && t.pending[0].from == left && t.pending[0].to == right && t.pending[1].from == right && t.pending[1].to == left
    && t.pending[0].document == t.pending[1].document == d
    && Copies(s, t.pending[0]) && Copies(s, t.pending[1])
  }

  /** A fault-free Synchronize on an empty queue puts exactly the two replicas in flight. */
  lemma SynchronizeExchanges(w: World, s: Snapshot, left: NodeId, right: NodeId, d: DocumentId)
    requires s.pending == [] && s.faults == {}
    requires CapabilityOf(s, left, d).Some? && CapabilityOf(s, right, d).Some?
    requires Synchronized(w, s, left, right, d).Ok?
    ensures Exchange(s, Synchronized(w, s, left, right, d).value, left, right, d)
  {
  }

  lemma ExchangeObserved(s: Snapshot, t: Snapshot, left: NodeId, right: NodeId, d: DocumentId, n: NodeId,
                         d': DocumentId)
    requires Exchange(s, t, left, right, d)
    ensures EntriesOf(t, n, d') == EntriesOf(s, n, d') && CapabilityOf(t, n, d') == CapabilityOf(s, n, d')
            && BlobsOf(t, n) == BlobsOf(s, n)
  {
  }

  lemma ExchangeCandidates(s: Snapshot, t: Snapshot, left: NodeId, right: NodeId, d: DocumentId, n: NodeId, k: Key,
                           e: Entry)
    requires (n == left || n == right) && Exchange(s, t, left, right, d)
    ensures Candidate(t, n, d, k, e) <==> Has(EntriesOf(s, left, d), k, e) || Has(EntriesOf(s, right, d), k, e)
  {
    ExchangeObserved(s, t, left, right, d, n, d);
    hide EntriesOf;
    assert t.pending[0] in t.pending && t.pending[1] in t.pending;
    if Has(EntriesOf(s, left, d), k, e) && n == right { assert AddressedTo(t.pending[0], n, d); }
    if Has(EntriesOf(s, right, d), k, e) && n == left { assert AddressedTo(t.pending[1], n, d); }
  }

  lemma ExchangeKeys(s: Snapshot, t: Snapshot, left: NodeId, right: NodeId, d: DocumentId, n: NodeId)
    requires (n == left || n == right) && Exchange(s, t, left, right, d)
    ensures TotalKeys(t, n, d) == EntriesOf(s, left, d).Keys + EntriesOf(s, right, d).Keys
  {
    ExchangeObserved(s, t, left, right, d, n, d);
    IncomingSplit(t.pending, n, d);
    IncomingSplit(t.pending[1..], n, d);
    assert IncomingKeys(t.pending[1..][1..], n, d) == {};
    hide EntriesOf, IncomingKeys;
  }

  lemma ExchangeIncoming(s: Snapshot, t: Snapshot, left: NodeId, right: NodeId, d: DocumentId, n: NodeId)
    requires Exchange(s, t, left, right, d)
    ensures n == left && n != right ==> IncomingBlobs(t.pending, n) == ReferredBlobs(s, right, d)
    ensures n == right && n != left ==> IncomingBlobs(t.pending, n) == ReferredBlobs(s, left, d)
    ensures n == left == right ==> IncomingBlobs(t.pending, n) == ReferredBlobs(s, n, d)
  {
    hide BlobsOf, IncomingBlobs, ReferredBlobs;
    IncomingSplit(t.pending, n, d);
    IncomingSplit(t.pending[1..], n, d);
    NoneIncoming(t.pending[1..][1..], n);
  }

  lemma ExchangeBlobs(s: Snapshot, t: Snapshot, left: NodeId, right: NodeId, d: DocumentId)
    requires Exchange(s, t, left, right, d)
    ensures TotalBlobs(t, left) == BlobsOf(s, left).Keys + ReferredBlobs(s, right, d)
    ensures TotalBlobs(t, right) == BlobsOf(s, right).Keys + ReferredBlobs(s, left, d)
  {
    ExchangeObserved(s, t, left, right, d, left, d);
    ExchangeObserved(s, t, left, right, d, right, d);
    ExchangeIncoming(s, t, left, right, d, left);
    ExchangeIncoming(s, t, left, right, d, right);
    hide BlobsOf, IncomingBlobs, ReferredBlobs, Exchange;
  }

  lemma NoneIncoming(p: seq<Message>, n: NodeId)
    requires p == []
    ensures IncomingBlobs(p, n) == {}
  {
  }

  lemma ExchangeWinner(s: Snapshot, t: Snapshot, left: NodeId, right: NodeId, d: DocumentId, n: NodeId, k: Key,
                       e: Entry)
    requires (n == left || n == right) && Exchange(s, t, left, right, d) && Unambiguous(s) && Winner(t, n, d, k, e)
    ensures k in EntriesOf(s, left, d) || k in EntriesOf(s, right, d)
    ensures e == Pick(EntriesOf(s, left, d), EntriesOf(s, right, d), k)
  {
    var a, b := EntriesOf(s, left, d), EntriesOf(s, right, d);
    assert k in a ==> Has(a, k, a[k]);
    assert k in b ==> Has(b, k, b[k]);
    hide EntriesOf;
    forall e' ensures Candidate(t, n, d, k, e') <==> Has(a, k, e') || Has(b, k, e') {
      ExchangeCandidates(s, t, left, right, d, n, k, e');
    }
    if k in a && k in b {
      assert Carries(s, d, k, a[k]) && Carries(s, d, k, b[k]);
      NewerIsTotal(a[k], b[k]);
    }
    hide Candidate, Exchange, Unambiguous;
    NewerIsTotal(e, Pick(a, b, k));
  }

  lemma SettledIsNewest(s: Snapshot, t: Snapshot, final: Snapshot, left: NodeId, right: NodeId, d: DocumentId,
                        n: NodeId)
    requires (n == left || n == right) && Exchange(s, t, left, right, d) && Unambiguous(s) && Settled(t, final)
    ensures EntriesOf(final, n, d) == Newest(EntriesOf(s, left, d), EntriesOf(s, right, d))
  {
    var a, b := EntriesOf(s, left, d), EntriesOf(s, right, d);
    var merged := EntriesOf(final, n, d);
    assert merged.Keys == TotalKeys(t, n, d);
    ExchangeKeys(s, t, left, right, d, n);
    hide EntriesOf, TotalKeys, TotalBlobs, CapabilityOf, BlobsOf, Winner, Exchange, Unambiguous;
    forall k | k in merged ensures merged[k] == Pick(a, b, k) {
      assert Winner(t, n, d, k, merged[k]);
      ExchangeWinner(s, t, left, right, d, n, k, merged[k]);
    }
    assert merged == Newest(a, b);
  }

  lemma PairIsSymmetric(a: NodeId, b: NodeId)
    ensures Pair(a, b) == Pair(b, a)
  {
    Trichotomy(a, b);
    if Less(a, b) { Asymmetric(a, b); }
    if Less(b, a) { Asymmetric(b, a); }
  }

  /** If a two-message queue between holders is delivered, both ends could store. */
  lemma DeliveredMeansWritable(w: World, t: Snapshot)
    requires |t.pending| == 2 && AllHashed(w, t.pending) && Delivered(w, t, 2).Ok?
    requires forall m | m in t.pending :: CapabilityOf(t, m.to, m.document).Some? && !Separated(t, m.from, m.to)
    ensures forall m | m in t.pending :: Deliverable(t, m)
  {
    var first, second := t.pending[0], t.pending[1];
    assert first in t.pending && second in t.pending;
    var next := DeliveredOne(w, t).value;
    assert Hashed(w, first.blobs) && Hashed(w, second.blobs);
    hide Hashed, AllHashed, Landed;
    ReceivedClosed(w, t.(pending := t.pending[1..]), first);
    ReceivedClosed(w, next.(pending := next.pending[1..]), second);
    hide Received;
    assert Delivered(w, next, 1).Ok?;
    assert DeliveredOne(w, next).Ok?;
    assert Deliverable(t, first);
    LandedKeepsStatus(t.nodes[first.to], first);
    assert Deliverable(t, second);
  }

  lemma LandedKeepsStatus(node: NodeState, m: Message)
    requires m.document in node.documents || m.grant.Some?
    ensures Landed(node, m).running == node.running && Landed(node, m).storageFault == node.storageFault
    ensures node.documents.Keys <= Landed(node, m).documents.Keys
  {
  }

  lemma ExchangeReady(w: World, s: Snapshot, t: Snapshot, left: NodeId, right: NodeId, d: DocumentId)
    requires Exchange(s, t, left, right, d) && WithinLimits(w, s) && Unambiguous(s) && AllHashed(w, t.pending)
    requires CapabilityOf(s, left, d).Some? && CapabilityOf(s, right, d).Some? && !Separated(s, left, right)
    requires Delivered(w, t, 2).Ok?
    ensures Ready(w, t) && Unambiguous(t)
  {
    hide Hashed, Delivered;
    PairIsSymmetric(left, right);
    forall n, d' ensures EntriesOf(t, n, d') == EntriesOf(s, n, d') { ExchangeObserved(s, t, left, right, d, n, d'); }
    forall n ensures BlobsOf(t, n) == BlobsOf(s, n) { ExchangeObserved(s, t, left, right, d, n, d); }
    ExchangeObserved(s, t, left, right, d, left, d);
    ExchangeObserved(s, t, left, right, d, right, d);
    hide CapabilityOf, BlobsOf, Pair;
    forall m | m in t.pending
      ensures CapabilityOf(t, m.to, m.document).Some? && !Separated(t, m.from, m.to)
      ensures exists n :: m.entries == EntriesOf(s, n, m.document)
    {
      assert m == t.pending[0] || m == t.pending[1];
    }
    DeliveredMeansWritable(w, t);
    hide Deliverable, AllHashed;
    SameNodesDerive(s, t);
    hide Carries, EntriesOf, Separated;
  }

  lemma SameNodesDerive(s: Snapshot, t: Snapshot)
    requires t.nodes == s.nodes
    requires forall m | m in t.pending :: exists n :: m.entries == EntriesOf(s, n, m.document)
    ensures Derives(s, t)
  {
    SameReplicasDerive(s, t);
  }

  /** Nothing is queued, no fault is pending, and a Synchronize of two holders and its delivery succeed. */
  predicate Exchanges(w: World, s: Snapshot, left: NodeId, right: NodeId, d: DocumentId) {
    && s.pending == [] && s.faults == {}
    && CapabilityOf(s, left, d).Some? && CapabilityOf(s, right, d).Some?
    && Synchronized(w, s, left, right, d).Ok?
    && Delivered(w, Synchronized(w, s, left, right, d).value, |Synchronized(w, s, left, right, d).value.pending|).Ok?
  }

  function Exchanged(w: World, s: Snapshot, left: NodeId, right: NodeId, d: DocumentId): Snapshot
    requires Exchanges(w, s, left, right, d)
  {
    var t := Synchronized(w, s, left, right, d).value;
    Delivered(w, t, |t.pending|).value
  }

  lemma SynchronizeSettles(w: World, attempts: seq<Operation>, left: NodeId, right: NodeId, d: DocumentId)
    requires w.config.Valid() && Exchanges(w, After(w, attempts).snapshot, left, right, d)
    requires !Separated(After(w, attempts).snapshot, left, right)
    ensures var s := After(w, attempts).snapshot;
            var t := Synchronized(w, s, left, right, d).value;
            var final := Exchanged(w, s, left, right, d);
            && Unambiguous(s) && Exchange(s, t, left, right, d) && Settled(t, final)
            && final.partitions == s.partitions && final.faults == s.faults
  {
    hide Inv, After, WellFormed, AllHashed, EntriesOf, CapabilityOf, Separated, WithinLimits, Unambiguous, Delivered,
      Ready, Synchronized;
    var m := After(w, attempts);
    var s := m.snapshot;
    var t := Synchronized(w, s, left, right, d).value;
    RunsKeepInv(w, attempts);
    InvIsUnambiguous(w, m);
    InvIsWithinLimits(w, m);
    InvIsWellFormed(w, m);
    SynchronizedKeeps(w, s, left, right, d);
    PendingHashed(w, t);
    SynchronizeExchanges(w, s, left, right, d);
    ExchangeReady(w, s, t, left, right, d);
    DeliveredSettles(w, t);
    DeliveredAdvances(w, t, 2);
  }

  /**
   With nothing queued and no fault pending, Synchronize between two connected holders followed by a
   successful delivery leaves both with the same, pointwise newest, entries and with each other's blobs for them.
   */
  lemma SynchronizeConverges(w: World, attempts: seq<Operation>, left: NodeId, right: NodeId, d: DocumentId)
    requires w.config.Valid() && Exchanges(w, After(w, attempts).snapshot, left, right, d)
    requires !Separated(After(w, attempts).snapshot, left, right)
    ensures var s := After(w, attempts).snapshot; Synced(s, Exchanged(w, s, left, right, d), left, right, d)
  {
    hide After, EntriesOf, BlobsOf, ReferredBlobs, Settled, Exchange, Synchronized, Delivered, Newest, Unambiguous;
    var s, final := After(w, attempts).snapshot, Exchanged(w, After(w, attempts).snapshot, left, right, d);
    var t := Synchronized(w, s, left, right, d).value;
    SynchronizeSettles(w, attempts, left, right, d);
    SettledIsNewest(s, t, final, left, right, d, left);
    SettledIsNewest(s, t, final, left, right, d, right);
    ExchangeBlobs(s, t, left, right, d);
    SettledBlobs(t, final, left);
    SettledBlobs(t, final, right);
  }

  lemma SettledBlobs(t: Snapshot, final: Snapshot, n: NodeId)
    requires Settled(t, final)
    ensures BlobsOf(final, n).Keys == TotalBlobs(t, n)
  {
    hide EntriesOf, BlobsOf, CapabilityOf, TotalKeys, TotalBlobs, Winner, WriteOffered;
  }

  /** Across a partition both messages go back into the queue, and nothing else happens. */
  lemma PartitionedExchange(w: World, s: Snapshot, t: Snapshot, left: NodeId, right: NodeId, d: DocumentId)
    requires Exchange(s, t, left, right, d) && Separated(s, left, right)
    ensures Delivered(w, t, 2) == Ok(t)
  {
    hide Received, EntriesOf;
    PairIsSymmetric(left, right);
    var a, b := t.pending[0], t.pending[1];
    var once := t.(pending := [b, a]);
    assert t.pending[1..] + [a] == [b, a];
    assert DeliveredOne(w, t) == Ok(once);
    assert once.pending[1..] + [b] == [a, b] == t.pending;
    assert DeliveredOne(w, once) == Ok(t);
    assert Delivered(w, once, 1) == Ok(t);
  }

  lemma NewestOfSame(entries: Entries)
    ensures Newest(entries, entries) == entries
  {
    forall k | k in entries ensures !Newer(entries[k], entries[k]) { Irreflexive(entries[k].author); }
  }

  /**
   Whether Synchronize and a successful delivery bring two holders together: exactly when no partition
   separates them, or there was nothing to exchange.
   */
  lemma SynchronizeConvergesIff(w: World, attempts: seq<Operation>, left: NodeId, right: NodeId, d: DocumentId)
    requires w.config.Valid() && Exchanges(w, After(w, attempts).snapshot, left, right, d)
    ensures var s := After(w, attempts).snapshot;
            Synced(s, Exchanged(w, s, left, right, d), left, right, d)
            <==> !Separated(s, left, right) || NothingToExchange(s, left, right, d)
  {
    hide After, Synchronized, Delivered, Separated, EntriesOf, CapabilityOf, BlobsOf, ReferredBlobs, Newest;
    var s := After(w, attempts).snapshot;
    if Separated(s, left, right) {
      var t := Synchronized(w, s, left, right, d).value;
      SynchronizeExchanges(w, s, left, right, d);
      PartitionedExchange(w, s, t, left, right, d);
      ExchangeObserved(s, t, left, right, d, left, d);
      ExchangeObserved(s, t, left, right, d, right, d);
      NewestOfSame(EntriesOf(s, left, d));
    } else {
      SynchronizeConverges(w, attempts, left, right, d);
    }
  }

  lemma InvIsWellFormed(w: World, m: Model)
    requires Inv(w, m)
    ensures WellFormed(w, m.snapshot)
  {
    hide WellFormed;
  }
}
