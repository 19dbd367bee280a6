/** A run that a partition keeps apart: Synchronize and a successful delivery, and the holders still differ. */
module ApplicationPartition {
  import opened Base
  import opened Application
  import opened ApplicationHistory
  import opened ApplicationRuns
  import opened ApplicationConvergence

  const ALICE: NodeId := [97]
  const BOB: NodeId := [98]
  const DOC: DocumentId := [100]
  const KEY: Key := [107]
  const BLOB: BlobHash := [0]

  function Started(w: World, n: NodeId, documents: map<DocumentId, Replica>): NodeState {
    NodeState(w.identityFor(n), true, false, CURRENT_STORAGE_SCHEMA, documents, map[])
  }

  function Pending(): Message {
    Message(ALICE, BOB, DOC, Some(Read), map[], map[])
  }

  /** Both nodes hold the document, only one holds an entry in it, and then they are separated. */
  function Parting(): seq<Operation> {
    [StartNode(ALICE), StartNode(BOB), CreateDocument(ALICE, DOC), Share(ALICE, BOB, DOC, Read), DeliverAll,
     WriteEntry(ALICE, DOC, KEY, BLOB), Partition(ALICE, BOB)]
  }

  predicate Roomy(w: World) {
    w.config.Valid() && w.config.maxNodes >= 2 && w.config.maxPendingMessages >= 2 && w.config.maxTraceEvents >= 9
  }

  lemma AfterTake(w: World, ops: seq<Operation>, k: nat)
    requires k < |ops|
    ensures After(w, ops[..0]) == FRESH && After(w, ops[..k + 1]) == Attempt(w, After(w, ops[..k]), ops[k])
  {
    hide Attempt;
    assert ops[..k + 1][..k] == ops[..k];
  }

  lemma TwoNodes(w: World)
    requires Roomy(w)
    ensures var m := After(w, Parting()[..2]);
            && m.snapshot == EMPTY.(nodes := map[ALICE := Started(w, ALICE, map[]), BOB := Started(w, BOB, map[])])
            && |m.trace| == 2
  {
    hide After;
    AfterTake(w, Parting(), 0);
    AfterTake(w, Parting(), 1);
  }

  lemma Created(w: World)
    requires Roomy(w)
    ensures var m := After(w, Parting()[..3]);
            && m.snapshot == EMPTY.(nodes := map[ALICE := Started(w, ALICE, Own(map[])), BOB := Started(w, BOB, map[])])
            && |m.trace| == 3
  {
    hide After;
    TwoNodes(w);
    AfterTake(w, Parting(), 2);
  }

  function Own(entries: Entries): map<DocumentId, Replica> {
    map[DOC := Replica(Write, entries)]
  }

  function Copy(): map<DocumentId, Replica> {
    map[DOC := Replica(Read, map[])]
  }

  lemma Granted(w: World)
    requires Roomy(w)
    ensures var m := After(w, Parting()[..4]);
            && m.snapshot == EMPTY.(
                             nodes := map[ALICE := Started(w, ALICE, Own(map[])), BOB := Started(w, BOB, map[])],
                             pending := [Pending()])
            && |m.trace| == 4
  {
    hide After;
    Created(w);
    AfterTake(w, Parting(), 3);
    assert MessageFrom(Started(w, ALICE, Own(map[])), ALICE, BOB, DOC, Some(Read)) == Ok(Pending());
  }

  lemma Accepted(w: World, s: Snapshot)
    requires Roomy(w)
    requires s == EMPTY.(
                  nodes := map[ALICE := Started(w, ALICE, Own(map[])), BOB := Started(w, BOB, map[])],
                  pending := [Pending()])
    ensures Delivered(w, s, 1)
         == Ok(EMPTY.(nodes := map[ALICE := Started(w, ALICE, Own(map[])), BOB := Started(w, BOB, Copy())]))
  {
    var queue := s.(pending := []);
    assert s.pending[1..] == [];
    assert Received(w, queue, Pending()) == Ok(SetNode(queue, BOB, Started(w, BOB, Copy())));
    var next := SetNode(queue, BOB, Started(w, BOB, Copy()));
    assert DeliveredOne(w, s) == Ok(next);
    assert Delivered(w, next, 0) == Ok(next);
    assert next.nodes == map[ALICE := Started(w, ALICE, Own(map[])), BOB := Started(w, BOB, Copy())];
  }

  lemma Held(w: World)
    requires Roomy(w)
    ensures var m := After(w, Parting()[..5]);
            && m.snapshot == EMPTY.(nodes := map[ALICE := Started(w, ALICE, Own(map[])),
                                                 BOB := Started(w, BOB, Copy())])
            && |m.trace| == 5
  {
    hide After, Delivered;
    Granted(w);
    AfterTake(w, Parting(), 4);
    Accepted(w, After(w, Parting()[..4]).snapshot);
  }

  /** What the run has come to: one entry on one side, none on the other, and a partition between them. */
  function Apart(w: World): Snapshot {
    Together(w).(partitions := {Pair(ALICE, BOB)})
  }

  function Together(w: World): Snapshot {
    Snapshot(map[ALICE := Started(w, ALICE, Own(map[KEY := Entry(ALICE, 1, BLOB)])), BOB := Started(w, BOB, Copy())],
             {}, [], {}, 1)
  }

  lemma Wrote(w: World)
    requires Roomy(w)
    ensures After(w, Parting()[..6]).snapshot == Together(w) && |After(w, Parting()[..6]).trace| == 6
  {
    hide After;
    Held(w);
    AfterTake(w, Parting(), 5);
    assert Own(map[])[DOC := Replica(Write, map[KEY := Entry(ALICE, 1, BLOB)])]
        == Own(map[KEY := Entry(ALICE, 1, BLOB)]);
    assert After(w, Parting()[..6]).snapshot.nodes == Together(w).nodes;
  }

  lemma Parted(w: World)
    requires Roomy(w)
    ensures After(w, Parting()).snapshot == Apart(w) && |After(w, Parting()).trace| == 7
  {
    hide After, Pair;
    Wrote(w);
    AfterTake(w, Parting(), 6);
    assert Parting()[..7] == Parting();
  }

  /** Both operations succeed, and the two holders still differ. */
  lemma PartitionKeepsApart(w: World)
    requires Roomy(w)
    ensures var m := After(w, Parting() + [Synchronize(ALICE, BOB, DOC), DeliverAll]);
            && |m.trace| == 9
            && CapabilityOf(m.snapshot, ALICE, DOC).Some? && CapabilityOf(m.snapshot, BOB, DOC).Some?
            && EntriesOf(m.snapshot, ALICE, DOC) != EntriesOf(m.snapshot, BOB, DOC)
  {
    hide After, Delivered, Synchronized, MessageFrom, Pair;
    Parted(w);
    var s := Apart(w);
    SynchronizeSucceeds(w);
    var t := Synchronized(w, s, ALICE, BOB, DOC).value;
    SynchronizeExchanges(w, s, ALICE, BOB, DOC);
    PartitionedExchange(w, s, t, ALICE, BOB, DOC);
    AfterStep(w, Parting(), Synchronize(ALICE, BOB, DOC));
    AfterStep(w, Parting() + [Synchronize(ALICE, BOB, DOC)], DeliverAll);
    assert Parting() + [Synchronize(ALICE, BOB, DOC)] + [DeliverAll]
        == Parting() + [Synchronize(ALICE, BOB, DOC), DeliverAll];
    assert KEY in EntriesOf(t, ALICE, DOC) && KEY !in EntriesOf(t, BOB, DOC);
  }

  lemma SynchronizeSucceeds(w: World)
    requires Roomy(w)
    ensures Synchronized(w, Apart(w), ALICE, BOB, DOC).Ok?
  {
    hide Pair;
  }
}
