/** What delivering one message amounts to, free of the order in which its maps are walked. */
module ApplicationMerge {
  import opened Base
  import opened Order
  import opened Application

  /** The later of two optional versions of an entry. */
  function Pick(have: Entries, incoming: Entries, k: Key): Entry
    requires k in have || k in incoming
  {
    if k !in have then incoming[k]
    else if k in incoming && Newer(incoming[k], have[k]) then incoming[k]
    else have[k]
  }

  function Newest(have: Entries, incoming: Entries): Entries {
    map k | k in have.Keys + incoming.Keys :: Pick(have, incoming, k)
  }

  predicate Fits<K, V>(limit: nat, have: map<K, V>, incoming: set<K>) {
    incoming <= have.Keys || |have.Keys + incoming| <= limit
  }

  ghost function Set<T>(xs: seq<T>): set<T> {
    set x | x in xs
  }

  lemma FitsNothing<K, V>(limit: nat, have: map<K, V>)
    ensures Set<K>([]) == {} && Fits(limit, have, {})
  {
  }

  lemma SetCons<T>(xs: seq<T>)
    requires xs != []
    ensures Set(xs) == {xs[0]} + Set(xs[1..])
  {
    assert xs == [xs[0]] + xs[1..];
  }

  /** One step of a bounded merge neither changes the union of the keys nor whether they fit. */
  lemma FitsStep<K, V>(limit: nat, have: map<K, V>, next: map<K, V>, k: K, rest: set<K>)
    requires next.Keys == have.Keys + {k}
    ensures next.Keys + rest == have.Keys + ({k} + rest)
    ensures k in have || |have| < limit ==> (Fits(limit, next, rest) <==> Fits(limit, have, {k} + rest))
    ensures k !in have && |have| >= limit ==> !Fits(limit, have, {k} + rest)
  {
    assert next.Keys + rest == have.Keys + ({k} + rest);
    SubsetSize(have.Keys + {k}, have.Keys + ({k} + rest));
    if rest <= next.Keys { assert have.Keys + ({k} + rest) == have.Keys + {k}; }
  }

  lemma SubsetSize<T>(a: set<T>, b: set<T>)
    requires a <= b
    ensures |a| <= |b|
  {
    assert b == a + (b - a);
  }

  lemma {:induction false} MergeEntriesFits(limit: nat, have: Entries, incoming: Entries, keys: seq<Key>)
    requires forall k | k in keys :: k in incoming
    ensures var r := MergeEntries(limit, have, incoming, keys);
            if Fits(limit, have, Set(keys)) then r.Ok? && r.value.Keys == have.Keys + Set(keys)
            else r == Err(EntryLimit)
    decreases |keys|
  {
    hide Fits, Set, Newer;
    if keys == [] {
      FitsNothing(limit, have);
    } else {
      var k := keys[0];
      SetCons(keys);
      var next := if k !in have || Newer(incoming[k], have[k]) then have[k := incoming[k]] else have;
      FitsStep(limit, have, next, k, Set(keys[1..]));
      if k in have || |have| < limit {
        MergeEntriesFits(limit, next, incoming, keys[1..]);
        assert MergeEntries(limit, have, incoming, keys) == MergeEntries(limit, next, incoming, keys[1..]);
      } else {
        assert MergeEntries(limit, have, incoming, keys) == Err(EntryLimit);
      }
    }
  }

  lemma {:induction false} MergeEntriesAt(limit: nat, have: Entries, incoming: Entries, keys: seq<Key>, k: Key)
    requires forall x | x in keys :: x in incoming
    requires MergeEntries(limit, have, incoming, keys).Ok?
    requires k in have || k in keys
    ensures var r := MergeEntries(limit, have, incoming, keys).value;
            k in r && r[k] == if k in keys then Pick(have, incoming, k) else have[k]
    decreases |keys|
  {
    if keys != [] {
      var x := keys[0];
      var next := if x !in have || Newer(incoming[x], have[x]) then have[x := incoming[x]] else have;
      Irreflexive(incoming[x].author);
      assert keys == [x] + keys[1..];
      MergeEntriesAt(limit, next, incoming, keys[1..], k);
    }
  }

  /** Merging walks the incoming keys in order, yet yields the pointwise newest entries exactly when they fit. */
  lemma MergeEntriesIsNewest(limit: nat, have: Entries, incoming: Entries)
    ensures MergeEntries(limit, have, incoming, Ascending(incoming.Keys))
         == if Fits(limit, have, incoming.Keys) then Ok(Newest(have, incoming)) else Err(EntryLimit)
  {
    hide Fits, MergeEntries, Ascending, Newer;
    var keys := Ascending(incoming.Keys);
    assert Set(keys) == incoming.Keys;
    MergeEntriesFits(limit, have, incoming, keys);
    if Fits(limit, have, incoming.Keys) {
      var merged := MergeEntries(limit, have, incoming, keys).value;
      forall k | k in merged ensures merged[k] == Newest(have, incoming)[k] {
        MergeEntriesAt(limit, have, incoming, keys, k);
      }
      assert merged == Newest(have, incoming);
    }
  }

  /** The entry of the later revision or, of one revision, of the author that comes last in lexicographic order. */
  predicate IsLast(e: Entry, other: Entry) {
    other.revision < e.revision || (other.revision == e.revision && Leq(other.author, e.author))
  }

  /** Of two versions the last writer's is kept. */
  lemma LastWriterWins(have: Entries, incoming: Entries, k: Key)
    requires k in have || k in incoming
    ensures k in Newest(have, incoming)
    ensures var e := Newest(have, incoming)[k];
            && ((k in have && e == have[k]) || (k in incoming && e == incoming[k]))
            && (k in have ==> IsLast(e, have[k])) && (k in incoming ==> IsLast(e, incoming[k]))
  {
    hide Less;
    if k in have && k in incoming {
      Trichotomy(have[k].author, incoming[k].author);
      Irreflexive(have[k].author);
    }
  }

  function WithMissing(have: Blobs, incoming: Blobs): Blobs {
    map h | h in have.Keys + incoming.Keys :: if h in have then have[h] else incoming[h]
  }

  predicate Hashed(w: World, blobs: Blobs) {
    forall h | h in blobs :: Matches(w, h, blobs[h])
  }

  predicate Matches(w: World, h: BlobHash, bytes: Bytes) {
    w.hash(bytes) == h
  }

  lemma HashedAt(w: World, blobs: Blobs, h: BlobHash)
    requires Hashed(w, blobs) && h in blobs
    ensures w.hash(blobs[h]) == h
  {
    assert Matches(w, h, blobs[h]);
  }

  lemma {:induction false} MergeBlobsFits(w: World, have: Blobs, incoming: Blobs, hashes: seq<BlobHash>)
    requires forall h | h in hashes :: h in incoming
    requires Hashed(w, incoming)
    ensures var r := MergeBlobs(w, have, incoming, hashes);
            if Fits(w.config.maxBlobsPerNode, have, Set(hashes)) then
              r.Ok? && r.value.Keys == have.Keys + Set(hashes)
            else r == Err(BlobLimit)
    decreases |hashes|
  {
    hide Fits, Set, Hashed, Matches;
    if hashes == [] {
      FitsNothing(w.config.maxBlobsPerNode, have);
    } else {
      var h := hashes[0];
      SetCons(hashes);
      if h in have {
        FitsStep(w.config.maxBlobsPerNode, have, have, h, Set(hashes[1..]));
        MergeBlobsFits(w, have, incoming, hashes[1..]);
      } else {
        var next := have[h := incoming[h]];
        FitsStep(w.config.maxBlobsPerNode, have, next, h, Set(hashes[1..]));
        HashedAt(w, incoming, h);
        if |have| < w.config.maxBlobsPerNode { MergeBlobsFits(w, next, incoming, hashes[1..]); }
      }
    }
  }

  lemma {:induction false} MergeBlobsAt(w: World, have: Blobs, incoming: Blobs, hashes: seq<BlobHash>, h: BlobHash)
    requires forall x | x in hashes :: x in incoming
    requires MergeBlobs(w, have, incoming, hashes).Ok?
    requires h in have || h in hashes
    ensures var r := MergeBlobs(w, have, incoming, hashes).value;
            h in r && r[h] == if h in have then have[h] else incoming[h]
    decreases |hashes|
  {
    if hashes != [] {
      var x := hashes[0];
      assert hashes == [x] + hashes[1..];
      MergeBlobsAt(w, if x in have then have else have[x := incoming[x]], incoming, hashes[1..], h);
    }
  }

  lemma MergeBlobsInAnyOrder(w: World, have: Blobs, incoming: Blobs, hashes: seq<BlobHash>)
    requires Hashed(w, incoming) && forall h :: h in hashes <==> h in incoming
    ensures MergeBlobs(w, have, incoming, hashes)
         == if Fits(w.config.maxBlobsPerNode, have, incoming.Keys) then Ok(WithMissing(have, incoming))
            else Err(BlobLimit)
  {
    hide Fits, Hashed, MergeBlobs;
    assert Set(hashes) == incoming.Keys;
    MergeBlobsFits(w, have, incoming, hashes);
    if Fits(w.config.maxBlobsPerNode, have, incoming.Keys) {
      var merged := MergeBlobs(w, have, incoming, hashes).value;
      forall h | h in merged ensures merged[h] == WithMissing(have, incoming)[h] {
        MergeBlobsAt(w, have, incoming, hashes, h);
      }
      assert merged == WithMissing(have, incoming);
    }
  }

  /** With well-hashed incoming blobs the only failure is the limit; blobs already held are kept. */
  lemma MergeBlobsIsUnion(w: World, have: Blobs, incoming: Blobs)
    requires Hashed(w, incoming)
    ensures MergeBlobs(w, have, incoming, Ascending(incoming.Keys))
         == if Fits(w.config.maxBlobsPerNode, have, incoming.Keys) then Ok(WithMissing(have, incoming))
            else Err(BlobLimit)
  {
    MergeBlobsInAnyOrder(w, have, incoming, Ascending(incoming.Keys));
  }

  // ---------------------------------------------------------------- one message

  /** The replica a deliverable message finds or creates. */
  function Landing(node: NodeState, m: Message): Replica
    requires m.document in node.documents || m.grant.Some?
  {
    if m.document !in node.documents then Replica(m.grant.value, map[])
    else if m.grant == Some(Write) then node.documents[m.document].(capability := Write)
    else node.documents[m.document]
  }

  function Landed(node: NodeState, m: Message): NodeState
    requires m.document in node.documents || m.grant.Some?
  {
    var r := Landing(node, m);
    node.(
    documents := node.documents[m.document := r.(entries := Newest(r.entries, m.entries))],
    blobs := WithMissing(node.blobs, m.blobs))
  }

  predicate Acceptable(w: World, s: Snapshot, m: Message) {
    && m.to in s.nodes
    && var node := s.nodes[m.to];
    && node.running && !node.storageFault
    && (m.document in node.documents || (m.grant.Some? && |node.documents| < w.config.maxDocumentsPerNode))
    && Fits(w.config.maxEntriesPerDocument, Landing(node, m).entries, m.entries.Keys)
    && Fits(w.config.maxBlobsPerNode, node.blobs, m.blobs.Keys)
  }

  /** Receiving a well-hashed message succeeds exactly when it is acceptable, and then just lands it. */
  lemma ReceivedClosed(w: World, s: Snapshot, m: Message)
    requires Hashed(w, m.blobs)
    ensures Received(w, s, m).Ok? <==> Acceptable(w, s, m)
    ensures Acceptable(w, s, m) ==> Received(w, s, m).value == SetNode(s, m.to, Landed(s.nodes[m.to], m))
    ensures Received(w, s, m).Err? ==> !Received(w, s, m).error.Invariant?
  {
    hide Hashed, Fits, Newest, WithMissing, MergeEntries, MergeBlobs, Ascending;
    if WritableNode(s, m.to).Ok? {
      var node := s.nodes[m.to];
      MergeBlobsIsUnion(w, node.blobs, m.blobs);
      if ReplicaFor(w, node, m).Ok? {
        MergeEntriesIsNewest(w.config.maxEntriesPerDocument, Landing(node, m).entries, m.entries);
      }
    }
  }

  /** What goes wrong when a well-hashed message is not received. */
  lemma ReceivedErrors(w: World, s: Snapshot, m: Message)
    requires Hashed(w, m.blobs) && Received(w, s, m).Err?
    ensures var e := Received(w, s, m).error;
            || WritableNode(s, m.to) == Err(e)
            || (WritableNode(s, m.to).Ok?
                && var node := s.nodes[m.to];
                || (e == DocumentLimit && m.document !in node.documents
                    && |node.documents| >= w.config.maxDocumentsPerNode)
                || (e == DocumentNotFound && m.document !in node.documents && m.grant.None?)
                || (e == EntryLimit && (m.document in node.documents || m.grant.Some?)
                    && !Fits(w.config.maxEntriesPerDocument, Landing(node, m).entries, m.entries.Keys))
                || (e == BlobLimit && !Fits(w.config.maxBlobsPerNode, node.blobs, m.blobs.Keys)))
  {
    hide Hashed, Fits, Newest, WithMissing, MergeEntries, MergeBlobs, Ascending;
    if WritableNode(s, m.to).Ok? {
      var node := s.nodes[m.to];
      MergeBlobsIsUnion(w, node.blobs, m.blobs);
      if ReplicaFor(w, node, m).Ok? {
        MergeEntriesIsNewest(w.config.maxEntriesPerDocument, Landing(node, m).entries, m.entries);
      }
    }
  }
}
