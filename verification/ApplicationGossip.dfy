/**
 Gossip among any number of holders: after any meetings, each has the newest entries of exactly those whose news
 could reach it, and meeting along a chain, forth and back, brings all of them together.
 */
module ApplicationGossip {
  import opened Application
  import opened ApplicationMerge
  import opened ApplicationHistory
  import opened ApplicationRuns
  import opened ApplicationConvergence

  /** Every one of `ops` succeeds, one after the other, after `attempts`. */
  ghost predicate Succeeds(w: World, attempts: seq<Operation>, ops: seq<Operation>)
    decreases |ops|
  {
    ops == [] || (Apply(w, After(w, attempts), ops[0]).Ok? && Succeeds(w, attempts + [ops[0]], ops[1..]))
  }

  lemma {:induction false} SucceedsSplit(w: World, attempts: seq<Operation>, a: seq<Operation>, b: seq<Operation>)
    requires Succeeds(w, attempts, a + b)
    ensures Succeeds(w, attempts, a) && Succeeds(w, attempts + a, b)
    decreases |a|
  {
    hide After, Apply;
    if a == [] {
      assert a + b == b && attempts + a == attempts;
    } else {
      assert (a + b)[1..] == a[1..] + b && (a + b)[0] == a[0];
      SucceedsSplit(w, attempts + [a[0]], a[1..], b);
      assert attempts + [a[0]] + a[1..] == attempts + a;
    }
  }

  // ---------------------------------------------------------------- one exchange

  function Meet(left: NodeId, right: NodeId, d: DocumentId): seq<Operation> {
    [Synchronize(left, right, d), DeliverAll]
  }

  predicate Quiet(s: Snapshot) {
    s.pending == [] && s.faults == {}
  }

  /** Two states of the same quiet network whose replicas of `d` may differ only at the given nodes. */
  ghost predicate OnlyAt(s: Snapshot, final: Snapshot, nodes: set<NodeId>, d: DocumentId) {
    && Quiet(final) && final.partitions == s.partitions
    && (forall n :: CapabilityOf(final, n, d).Some? <==> CapabilityOf(s, n, d).Some?)
    && (forall n | n !in nodes :: EntriesOf(final, n, d) == EntriesOf(s, n, d))
    && (forall n | n !in nodes :: BlobsOf(final, n).Keys == BlobsOf(s, n).Keys)
  }

  lemma MeetIsExchange(w: World, attempts: seq<Operation>, left: NodeId, right: NodeId, d: DocumentId)
    requires Quiet(After(w, attempts).snapshot) && Succeeds(w, attempts, Meet(left, right, d))
    requires CapabilityOf(After(w, attempts).snapshot, left, d).Some?
             && CapabilityOf(After(w, attempts).snapshot, right, d).Some?
    ensures var s := After(w, attempts).snapshot;
            Exchanges(w, s, left, right, d)
            && After(w, attempts + Meet(left, right, d)).snapshot == Exchanged(w, s, left, right, d)
  {
    hide After, Synchronized, Delivered, CapabilityOf;
    var sync := Synchronize(left, right, d);
    AfterStep(w, attempts, sync);
    AfterStep(w, attempts + [sync], DeliverAll);
    assert Meet(left, right, d)[1..] == [DeliverAll];
    assert attempts + [sync] + [DeliverAll] == attempts + Meet(left, right, d);
  }

  lemma SettledElsewhere(s: Snapshot, t: Snapshot, final: Snapshot, left: NodeId, right: NodeId, d: DocumentId,
                         n: NodeId)
    requires Exchange(s, t, left, right, d) && Settled(t, final) && n != left && n != right
    ensures EntriesOf(final, n, d) == EntriesOf(s, n, d)
  {
    hide EntriesOf, CapabilityOf, BlobsOf, TotalBlobs;
    ExchangeObserved(s, t, left, right, d, n, d);
    forall m | m in t.pending ensures !AddressedTo(m, n, d) { assert m == t.pending[0] || m == t.pending[1]; }
    assert EntriesOf(final, n, d).Keys == EntriesOf(s, n, d).Keys;
    forall k | k in EntriesOf(final, n, d) ensures EntriesOf(final, n, d)[k] == EntriesOf(s, n, d)[k] {
      assert Winner(t, n, d, k, EntriesOf(final, n, d)[k]);
      assert Candidate(t, n, d, k, EntriesOf(final, n, d)[k]);
    }
  }

  lemma BlobsElsewhere(s: Snapshot, t: Snapshot, final: Snapshot, left: NodeId, right: NodeId, d: DocumentId, n: NodeId)
    requires Exchange(s, t, left, right, d) && Settled(t, final) && n != left && n != right
    ensures BlobsOf(final, n).Keys == BlobsOf(s, n).Keys
  {
    hide EntriesOf, CapabilityOf, BlobsOf, Copies;
    ExchangeObserved(s, t, left, right, d, n, d);
    SettledBlobs(t, final, n);
    forall m | m in t.pending ensures m.to != n { assert m == t.pending[0] || m == t.pending[1]; }
    assert IncomingBlobs(t.pending, n) == {};
  }

  lemma MeetJoins(w: World, attempts: seq<Operation>, left: NodeId, right: NodeId, d: DocumentId)
    requires w.config.Valid() && Quiet(After(w, attempts).snapshot) && Succeeds(w, attempts, Meet(left, right, d))
    requires CapabilityOf(After(w, attempts).snapshot, left, d).Some?
             && CapabilityOf(After(w, attempts).snapshot, right, d).Some?
    requires !Separated(After(w, attempts).snapshot, left, right)
    ensures var s, final := After(w, attempts).snapshot, After(w, attempts + Meet(left, right, d)).snapshot;
            Synced(s, final, left, right, d) && OnlyAt(s, final, {left, right}, d)
  {
    hide After, Synchronized, Delivered, CapabilityOf, EntriesOf, BlobsOf, Succeeds, Newest, Unambiguous, TotalKeys,
      TotalBlobs, Copies, ReferredBlobs,
      Winner, HoldsWrite;
    var s, final := After(w, attempts).snapshot, After(w, attempts + Meet(left, right, d)).snapshot;
    MeetIsExchange(w, attempts, left, right, d);
    SynchronizeConverges(w, attempts, left, right, d);
    SynchronizeSettles(w, attempts, left, right, d);
    var t := Synchronized(w, s, left, right, d).value;
    forall n | n !in {left, right}
      ensures EntriesOf(final, n, d) == EntriesOf(s, n, d) && BlobsOf(final, n).Keys == BlobsOf(s, n).Keys
    {
      SettledElsewhere(s, t, final, left, right, d, n);
      BlobsElsewhere(s, t, final, left, right, d, n);
    }
    forall n ensures CapabilityOf(final, n, d).Some? <==> CapabilityOf(s, n, d).Some? {
      ExchangeObserved(s, t, left, right, d, n, d);
    }
  }

  // ---------------------------------------------------------------- the newest of several replicas

  /** `e` is the entry of one of the nodes at `k`, and none of them has a newer one. */
  ghost predicate IsNewest(s: Snapshot, nodes: set<NodeId>, d: DocumentId, k: Key, e: Entry) {
    && (exists h :: h in nodes && Has(EntriesOf(s, h, d), k, e))
    && (forall h | h in nodes && k in EntriesOf(s, h, d) :: NotOlder(e, EntriesOf(s, h, d)[k]))
  }

  /** The entries are those of the nodes: the keys that some of them has, each with the newest entry any of them has. */
  ghost predicate NewestAmong(s: Snapshot, nodes: set<NodeId>, d: DocumentId, entries: Entries) {
    && (forall h, k | h in nodes && k in EntriesOf(s, h, d) :: k in entries)
    && (forall k | k in entries :: IsNewest(s, nodes, d, k, entries[k]))
  }

  lemma CompareCarried(s: Snapshot, h: NodeId, h': NodeId, d: DocumentId, k: Key, e: Entry, e': Entry)
    requires Unambiguous(s) && Has(EntriesOf(s, h, d), k, e) && Has(EntriesOf(s, h', d), k, e')
    ensures Newer(e', e) || NotOlder(e, e')
    ensures NotOlder(e, e') && NotOlder(e', e) ==> e == e'
  {
    hide EntriesOf;
    assert Carries(s, d, k, e) && Carries(s, d, k, e');
    NewerIsTotal(e, e');
  }

  lemma AloneIsNewest(s: Snapshot, h: NodeId, d: DocumentId)
    ensures NewestAmong(s, {h}, d, EntriesOf(s, h, d))
  {
    hide EntriesOf;
    forall k | k in EntriesOf(s, h, d) ensures IsNewest(s, {h}, d, k, EntriesOf(s, h, d)[k]) {
      assert h in {h} && Has(EntriesOf(s, h, d), k, EntriesOf(s, h, d)[k]);
    }
  }

  /** An entry that is not older than the newest of some nodes is not older than any of theirs. */
  lemma BeatsNewest(s: Snapshot, nodes: set<NodeId>, d: DocumentId, k: Key, entries: Entries, e: Entry)
    requires NewestAmong(s, nodes, d, entries) && (k in entries ==> NotOlder(e, entries[k]))
    ensures forall h | h in nodes && k in EntriesOf(s, h, d) :: NotOlder(e, EntriesOf(s, h, d)[k])
  {
    hide EntriesOf, NotOlder;
    forall h | h in nodes && k in EntriesOf(s, h, d) ensures NotOlder(e, EntriesOf(s, h, d)[k]) {
      NotOlderTransitive(e, entries[k], EntriesOf(s, h, d)[k]);
    }
  }

  /** The newest of two entries, and not the older one, is what a merge picks. */
  lemma MergePicks(s: Snapshot, a: set<NodeId>, b: set<NodeId>, d: DocumentId, x: Entries, y: Entries, k: Key)
    requires Unambiguous(s) && NewestAmong(s, a, d, x) && NewestAmong(s, b, d, y) && k in Newest(x, y)
    ensures var e := Newest(x, y)[k];
            && (Has(x, k, e) || Has(y, k, e))
            && (k in x ==> NotOlder(e, x[k])) && (k in y ==> NotOlder(e, y[k]))
  {
    hide EntriesOf, Unambiguous, Newer;
    if k in x && k in y {
      var h :| h in a && Has(EntriesOf(s, h, d), k, x[k]);
      var h' :| h' in b && Has(EntriesOf(s, h', d), k, y[k]);
      CompareCarried(s, h, h', d, k, x[k], y[k]);
    }
  }

  /** Merging the newest of two groups gives the newest of both. */
  lemma NewestJoins(s: Snapshot, a: set<NodeId>, b: set<NodeId>, d: DocumentId, x: Entries, y: Entries)
    requires Unambiguous(s) && NewestAmong(s, a, d, x) && NewestAmong(s, b, d, y)
    ensures NewestAmong(s, a + b, d, Newest(x, y))
  {
    hide EntriesOf, Unambiguous, NotOlder;
    forall k | k in Newest(x, y) ensures IsNewest(s, a + b, d, k, Newest(x, y)[k]) {
      var e := Newest(x, y)[k];
      MergePicks(s, a, b, d, x, y, k);
      BeatsNewest(s, a, d, k, x, e);
      BeatsNewest(s, b, d, k, y, e);
      var h :| h in a + b && Has(EntriesOf(s, h, d), k, e);
    }
  }

  /** There is only one such newest. */
  lemma NewestIsUnique(s: Snapshot, nodes: set<NodeId>, d: DocumentId, x: Entries, y: Entries)
    requires Unambiguous(s) && NewestAmong(s, nodes, d, x) && NewestAmong(s, nodes, d, y)
    ensures x == y
  {
    hide EntriesOf, Unambiguous, NotOlder;
    assert x.Keys == y.Keys;
    forall k | k in x ensures x[k] == y[k] {
      var h :| h in nodes && Has(EntriesOf(s, h, d), k, x[k]);
      var h' :| h' in nodes && Has(EntriesOf(s, h', d), k, y[k]);
      CompareCarried(s, h, h', d, k, x[k], y[k]);
    }
  }

  function NewestOf(s: Snapshot, holders: seq<NodeId>, d: DocumentId): Entries {
    if holders == [] then map[]
    else Newest(NewestOf(s, holders[..|holders| - 1], d), EntriesOf(s, holders[|holders| - 1], d))
  }

  function Nodes(holders: seq<NodeId>): set<NodeId> {
    set h | h in holders
  }

  /** The fold really is the newest of all. */
  lemma {:induction false} NewestOfIsNewest(s: Snapshot, holders: seq<NodeId>, d: DocumentId)
    requires Unambiguous(s)
    ensures NewestAmong(s, Nodes(holders), d, NewestOf(s, holders, d))
  {
    hide EntriesOf, Unambiguous, NewestAmong, Newest;
    if holders == [] {
      assert Nodes(holders) == {};
      NoneIsNewest(s, d);
    } else {
      var most, last := holders[..|holders| - 1], holders[|holders| - 1];
      NewestOfIsNewest(s, most, d);
      AloneIsNewest(s, last, d);
      NewestJoins(s, Nodes(most), {last}, d, NewestOf(s, most, d), EntriesOf(s, last, d));
      assert holders == most + [last];
      assert Nodes(holders) == Nodes(most) + {last};
    }
  }

  lemma NoneIsNewest(s: Snapshot, d: DocumentId)
    ensures NewestAmong(s, {}, d, map[])
  {
  }

  // ---------------------------------------------------------------- whose news reaches whom

  datatype Meeting = Meeting(left: NodeId, right: NodeId) {
    predicate Of(h: NodeId) {
      h == left || h == right
    }
  }

  /** Whose news a node has after the meetings: its own, and at each of its meetings all that the other one has. */
  function Heard(meetings: seq<Meeting>, h: NodeId): set<NodeId> {
    if meetings == [] then {h} else
    var most, last := meetings[..|meetings| - 1], meetings[|meetings| - 1];
    if last.Of(h) then Heard(most, last.left) + Heard(most, last.right) else Heard(most, h)
  }

  /** News carried from stop to stop at the meetings numbered `path`, each after the one before. */
  predicate Carried(meetings: seq<Meeting>, path: seq<nat>, stops: seq<NodeId>) {
    && |stops| == |path| + 1
    && (forall i | 0 <= i < |path| ::
          path[i] < |meetings| && meetings[path[i]].Of(stops[i]) && meetings[path[i]].Of(stops[i + 1]))
    && (forall i, j | 0 <= i < j < |path| :: path[i] < path[j])
  }

  predicate CarriesNews(meetings: seq<Meeting>, path: seq<nat>, stops: seq<NodeId>, g: NodeId, h: NodeId) {
    Carried(meetings, path, stops) && stops[0] == g && stops[|path|] == h
  }

  ghost predicate Reaches(meetings: seq<Meeting>, g: NodeId, h: NodeId) {
    exists path, stops :: CarriesNews(meetings, path, stops, g, h)
  }

  lemma CarriedOn(meetings: seq<Meeting>, path: seq<nat>, stops: seq<NodeId>, h: NodeId)
    requires meetings != [] && Carried(meetings[..|meetings| - 1], path, stops)
    ensures Carried(meetings, path, stops)
    ensures meetings[|meetings| - 1].Of(stops[|path|]) && meetings[|meetings| - 1].Of(h)
            ==> Carried(meetings, path + [|meetings| - 1], stops + [h])
  {
  }

  lemma {:induction false} HeardIsReached(meetings: seq<Meeting>, g: NodeId, h: NodeId)
    requires g in Heard(meetings, h)
    ensures Reaches(meetings, g, h)
  {
    hide Carried;
    if meetings == [] {
      NotCarried(h);
    } else {
      var n := |meetings| - 1;
      var most, last := meetings[..n], meetings[n];
      var via := if !last.Of(h) then h else if g in Heard(most, last.left) then last.left else last.right;
      HeardIsReached(most, g, via);
      var path, stops :| CarriesNews(most, path, stops, g, via);
      CarriedOn(meetings, path, stops, h);
      assert via == h ==> CarriesNews(meetings, path, stops, g, h);
      assert via != h ==> CarriesNews(meetings, path + [n], stops + [h], g, h);
    }
  }

  lemma NotCarried(h: NodeId)
    ensures CarriesNews([], [], [h], h, h)
  {
  }

  lemma {:induction false} ReachedIsHeard(meetings: seq<Meeting>, path: seq<nat>, stops: seq<NodeId>)
    requires Carried(meetings, path, stops)
    ensures stops[0] in Heard(meetings, stops[|path|])
    decreases |meetings|
  {
    if meetings != [] {
      var n := |meetings| - 1;
      var most, last := meetings[..n], meetings[n];
      if path != [] && path[|path| - 1] == n {
        var path', stops' := path[..|path| - 1], stops[..|path|];
        assert Carried(most, path', stops');
        ReachedIsHeard(most, path', stops');
      } else {
        assert path != [] ==> forall i | 0 <= i < |path| :: path[i] <= path[|path| - 1];
        assert Carried(most, path, stops);
        ReachedIsHeard(most, path, stops);
      }
    }
  }

  /** A node has heard of exactly those from whom meetings lead to it in order. */
  lemma HeardIff(meetings: seq<Meeting>, g: NodeId, h: NodeId)
    ensures g in Heard(meetings, h) <==> Reaches(meetings, g, h)
  {
    if g in Heard(meetings, h) { HeardIsReached(meetings, g, h); }
    if Reaches(meetings, g, h) {
      var path, stops :| CarriesNews(meetings, path, stops, g, h);
      ReachedIsHeard(meetings, path, stops);
    }
  }

  // ---------------------------------------------------------------- any meetings

  /** The operations of the meetings, one after the other. */
  function Talks(meetings: seq<Meeting>, d: DocumentId): seq<Operation> {
    if meetings == [] then [] else
    var last := meetings[|meetings| - 1];
    Talks(meetings[..|meetings| - 1], d) + Meet(last.left, last.right, d)
  }

  function Attendants(meetings: seq<Meeting>): set<NodeId> {
    if meetings == [] then {} else
    var last := meetings[|meetings| - 1];
    Attendants(meetings[..|meetings| - 1]) + {last.left, last.right}
  }

  predicate CanMeet(s: Snapshot, m: Meeting, d: DocumentId) {
    CapabilityOf(s, m.left, d).Some? && CapabilityOf(s, m.right, d).Some? && !Separated(s, m.left, m.right)
  }

  /** Every meeting is of two connected holders of `d`. */
  predicate Arranged(s: Snapshot, meetings: seq<Meeting>, d: DocumentId) {
    forall m | m in meetings :: CanMeet(s, m, d)
  }

  lemma CanStillMeet(s: Snapshot, final: Snapshot, nodes: set<NodeId>, m: Meeting, d: DocumentId)
    requires CanMeet(s, m, d) && OnlyAt(s, final, nodes, d)
    ensures CanMeet(final, m, d) && Quiet(final)
  {
    hide EntriesOf, CapabilityOf;
  }

  lemma OnlyAtTransitive(a: Snapshot, b: Snapshot, c: Snapshot, nodes: set<NodeId>, more: set<NodeId>, d: DocumentId)
    requires OnlyAt(a, b, nodes, d) && OnlyAt(b, c, more, d)
    ensures OnlyAt(a, c, nodes + more, d)
  {
    hide EntriesOf, CapabilityOf;
  }

  /** One more meeting, seen from a node: what it has is the newest of those it has now heard of. */
  lemma HeardStep(s: Snapshot, met: Snapshot, final: Snapshot, meetings: seq<Meeting>, h: NodeId, d: DocumentId)
    requires Unambiguous(s) && meetings != []
    requires var last := meetings[|meetings| - 1];
             Synced(met, final, last.left, last.right, d) && OnlyAt(met, final, {last.left, last.right}, d)
    requires var most := meetings[..|meetings| - 1];
             forall g :: NewestAmong(s, Heard(most, g), d, EntriesOf(met, g, d))
    ensures NewestAmong(s, Heard(meetings, h), d, EntriesOf(final, h, d))
  {
    hide EntriesOf, CapabilityOf, Unambiguous, NewestAmong, Newest;
    var most, last := meetings[..|meetings| - 1], meetings[|meetings| - 1];
    if last.Of(h) {
      NewestJoins(s, Heard(most, last.left), Heard(most, last.right), d, EntriesOf(met, last.left, d),
                  EntriesOf(met, last.right, d));
    } else {
      assert h !in {last.left, last.right};
    }
  }

  /**
   After any successful meetings of connected holders, from any reachable state with an empty queue and no faults:
   every node has exactly the newest entries of those from whom meetings lead to it in order.
   */
  lemma {:induction false} GossipSpreads(w: World, attempts: seq<Operation>, meetings: seq<Meeting>, d: DocumentId)
    requires w.config.Valid() && Quiet(After(w, attempts).snapshot)
    requires Arranged(After(w, attempts).snapshot, meetings, d) && Succeeds(w, attempts, Talks(meetings, d))
    ensures var s, final := After(w, attempts).snapshot, After(w, attempts + Talks(meetings, d)).snapshot;
            && OnlyAt(s, final, Attendants(meetings), d)
            && (forall h :: NewestAmong(s, Heard(meetings, h), d, EntriesOf(final, h, d)))
            && (forall g, h :: g in Heard(meetings, h) <==> Reaches(meetings, g, h))
    decreases |meetings|
  {
    hide After, Succeeds, EntriesOf, OnlyAt, NewestAmong, Heard, Reaches, CanMeet, Synced, Unambiguous;
    forall g, h ensures g in Heard(meetings, h) <==> Reaches(meetings, g, h) { HeardIff(meetings, g, h); }
    var s := After(w, attempts).snapshot;
    RunsKeepInv(w, attempts);
    InvIsUnambiguous(w, After(w, attempts));
    if meetings == [] {
      assert attempts + Talks(meetings, d) == attempts;
      NoMeetings(s, d);
    } else {
      var most, last := meetings[..|meetings| - 1], meetings[|meetings| - 1];
      SucceedsSplit(w, attempts, Talks(most, d), Meet(last.left, last.right, d));
      var met := attempts + Talks(most, d);
      GossipSpreads(w, attempts, most, d);
      CanStillMeet(s, After(w, met).snapshot, Attendants(most), last, d);
      OneMoreMeets(w, met, last, d);
      assert met + Meet(last.left, last.right, d) == attempts + Talks(meetings, d);
      var final := After(w, attempts + Talks(meetings, d)).snapshot;
      OnlyAtTransitive(s, After(w, met).snapshot, final, Attendants(most), {last.left, last.right}, d);
      forall h ensures NewestAmong(s, Heard(meetings, h), d, EntriesOf(final, h, d)) {
        HeardStep(s, After(w, met).snapshot, final, meetings, h, d);
      }
    }
  }

  lemma OneMoreMeets(w: World, attempts: seq<Operation>, m: Meeting, d: DocumentId)
    requires w.config.Valid() && Quiet(After(w, attempts).snapshot) && CanMeet(After(w, attempts).snapshot, m, d)
    requires Succeeds(w, attempts, Meet(m.left, m.right, d))
    ensures var s, final := After(w, attempts).snapshot, After(w, attempts + Meet(m.left, m.right, d)).snapshot;
            Synced(s, final, m.left, m.right, d) && OnlyAt(s, final, {m.left, m.right}, d)
  {
    hide After, Succeeds, Synced, OnlyAt, CapabilityOf, Separated;
    MeetJoins(w, attempts, m.left, m.right, d);
  }

  lemma NoMeetings(s: Snapshot, d: DocumentId)
    requires Quiet(s)
    ensures OnlyAt(s, s, Attendants([]), d) && forall h :: NewestAmong(s, Heard([], h), d, EntriesOf(s, h, d))
  {
    hide EntriesOf, NewestAmong;
    forall h ensures NewestAmong(s, Heard([], h), d, EntriesOf(s, h, d)) { AloneIsNewest(s, h, d); }
  }

  // ---------------------------------------------------------------- blobs come along

  /** `n` has every blob that its replica of `d` refers to. */
  predicate Complete(s: Snapshot, n: NodeId, d: DocumentId) {
    forall k | k in EntriesOf(s, n, d) :: EntriesOf(s, n, d)[k].blob in BlobsOf(s, n).Keys
  }

  lemma CompleteIsReferred(s: Snapshot, n: NodeId, d: DocumentId, k: Key)
    requires Complete(s, n, d) && k in EntriesOf(s, n, d)
    ensures EntriesOf(s, n, d)[k].blob in ReferredBlobs(s, n, d)
  {
    hide EntriesOf, BlobsOf;
  }

  lemma SyncedStaysComplete(s: Snapshot, final: Snapshot, left: NodeId, right: NodeId, d: DocumentId, n: NodeId)
    requires Synced(s, final, left, right, d) && OnlyAt(s, final, {left, right}, d)
    requires forall n' :: Complete(s, n', d)
    ensures Complete(final, n, d)
  {
    hide EntriesOf, BlobsOf, CapabilityOf, ReferredBlobs, Newer;
    assert Complete(s, left, d) && Complete(s, right, d) && Complete(s, n, d);
    if n == left || n == right {
      forall k | k in EntriesOf(final, n, d) ensures EntriesOf(final, n, d)[k].blob in BlobsOf(final, n).Keys {
        if k in EntriesOf(s, left, d) { CompleteIsReferred(s, left, d, k); }
        if k in EntriesOf(s, right, d) { CompleteIsReferred(s, right, d, k); }
      }
    }
  }

  /** If everyone has the blobs of its own replica, everyone still has them after any successful meetings. */
  lemma {:induction false} GossipStaysComplete(w: World, attempts: seq<Operation>, meetings: seq<Meeting>,
                                               d: DocumentId)
    requires w.config.Valid() && Quiet(After(w, attempts).snapshot)
    requires Arranged(After(w, attempts).snapshot, meetings, d) && Succeeds(w, attempts, Talks(meetings, d))
    requires forall n :: Complete(After(w, attempts).snapshot, n, d)
    ensures forall n :: Complete(After(w, attempts + Talks(meetings, d)).snapshot, n, d)
    decreases |meetings|
  {
    hide After, Succeeds, EntriesOf, OnlyAt, CanMeet, Synced, Complete, NewestAmong, Heard, Reaches;
    if meetings == [] {
      assert attempts + Talks(meetings, d) == attempts;
    } else {
      var most, last := meetings[..|meetings| - 1], meetings[|meetings| - 1];
      SucceedsSplit(w, attempts, Talks(most, d), Meet(last.left, last.right, d));
      var met := attempts + Talks(most, d);
      GossipStaysComplete(w, attempts, most, d);
      GossipSpreads(w, attempts, most, d);
      CanStillMeet(After(w, attempts).snapshot, After(w, met).snapshot, Attendants(most), last, d);
      OneMoreMeets(w, met, last, d);
      assert met + Meet(last.left, last.right, d) == attempts + Talks(meetings, d);
      var final := After(w, attempts + Talks(meetings, d)).snapshot;
      forall n ensures Complete(final, n, d) {
        SyncedStaysComplete(After(w, met).snapshot, final, last.left, last.right, d, n);
      }
    }
  }

  // ---------------------------------------------------------------- forth and back along a chain

  /** Connected holders of `d`, one after the other. */
  predicate Chain(s: Snapshot, holders: seq<NodeId>, d: DocumentId) {
    && holders != []
    && (forall i | 0 <= i < |holders| :: CapabilityOf(s, holders[i], d).Some?)
    && (forall i | 0 <= i < |holders| - 1 :: !Separated(s, holders[i], holders[i + 1]))
  }

  /** Each holder meets the next, from the first to the last. */
  function Forth(holders: seq<NodeId>): seq<Meeting> {
    if |holders| <= 1 then []
    else Forth(holders[..|holders| - 1]) + [Meeting(holders[|holders| - 2], holders[|holders| - 1])]
  }

  /** The same meetings from the last to the first. */
  function Back(holders: seq<NodeId>): seq<Meeting> {
    if |holders| <= 1 then []
    else [Meeting(holders[|holders| - 2], holders[|holders| - 1])] + Back(holders[..|holders| - 1])
  }

  predicate Neighbours(holders: seq<NodeId>, m: Meeting) {
    exists i :: 0 <= i < |holders| - 1 && m.left == holders[i] && m.right == holders[i + 1]
  }

  lemma {:induction false} NeighboursMeet(holders: seq<NodeId>, m: Meeting)
    requires m in Forth(holders) + Back(holders)
    ensures Neighbours(holders, m)
    decreases |holders|
  {
    var n := |holders|;
    if n > 1 {
      if m == Meeting(holders[n - 2], holders[n - 1]) {
        assert m.left == holders[n - 2] && m.right == holders[n - 2 + 1];
      } else {
        NeighboursMeet(holders[..n - 1], m);
      }
    }
  }

  lemma ChainIsArranged(s: Snapshot, holders: seq<NodeId>, d: DocumentId)
    requires Chain(s, holders, d)
    ensures Arranged(s, Forth(holders) + Back(holders), d)
  {
    hide CapabilityOf, Separated;
    forall m | m in Forth(holders) + Back(holders) ensures CanMeet(s, m, d) { NeighboursMeet(holders, m); }
  }

  lemma {:induction false} HearsItself(meetings: seq<Meeting>, h: NodeId)
    ensures h in Heard(meetings, h)
  {
    if meetings != [] { HearsItself(meetings[..|meetings| - 1], h); }
  }

  lemma {:induction false} HeardGrows(meetings: seq<Meeting>, more: seq<Meeting>, h: NodeId)
    ensures Heard(meetings, h) <= Heard(meetings + more, h)
    decreases |more|
  {
    if more == [] {
      assert meetings + more == meetings;
    } else {
      var n := |more| - 1;
      assert (meetings + more)[..|meetings + more| - 1] == meetings + more[..n];
      HeardGrows(meetings, more[..n], h);
    }
  }

  /** Nobody hears of anyone who is not at the meetings. */
  lemma {:induction false} HeardWithin(meetings: seq<Meeting>, h: NodeId, nodes: set<NodeId>)
    requires h in nodes && forall m | m in meetings :: m.left in nodes && m.right in nodes
    ensures Heard(meetings, h) <= nodes
    decreases |meetings|
  {
    if meetings != [] {
      var most, last := meetings[..|meetings| - 1], meetings[|meetings| - 1];
      HeardWithin(most, h, nodes);
      HeardWithin(most, last.left, nodes);
      HeardWithin(most, last.right, nodes);
    }
  }

  lemma HeardLast(meetings: seq<Meeting>, m: Meeting, h: NodeId)
    ensures Heard(meetings + [m], h)
         == if m.Of(h) then Heard(meetings, m.left) + Heard(meetings, m.right) else Heard(meetings, h)
  {
    assert (meetings + [m])[..|meetings|] == meetings;
  }

  /** Going forth, the last one comes to hear of all. */
  lemma {:induction false} ForthIsHeard(holders: seq<NodeId>)
    requires holders != []
    ensures Nodes(holders) <= Heard(Forth(holders), holders[|holders| - 1])
    decreases |holders|
  {
    hide Heard;
    var most, last := holders[..|holders| - 1], holders[|holders| - 1];
    HearsItself(Forth(most), last);
    if most == [] {
      assert Forth(holders) == Forth(most);
    } else {
      ForthIsHeard(most);
      HeardLast(Forth(most), Meeting(most[|most| - 1], last), last);
    }
  }

  /** Going back, everyone comes to hear of all that the last one has heard of. */
  lemma {:induction false} BackIsHeard(before: seq<Meeting>, holders: seq<NodeId>, i: nat)
    requires i < |holders|
    ensures Heard(before, holders[|holders| - 1]) <= Heard(before + Back(holders), holders[i])
    decreases |holders|
  {
    if |holders| == 1 {
      assert before + Back(holders) == before;
    } else {
      var n := |holders| - 1;
      var most, meeting := holders[..n], Meeting(holders[n - 1], holders[n]);
      var met := before + [meeting];
      assert met[..|met| - 1] == before;
      assert before + Back(holders) == met + Back(most);
      if i < n { BackIsHeard(met, most, i); } else { HeardGrows(met, Back(most), holders[n]); }
    }
  }

  lemma ChainIsHeard(holders: seq<NodeId>, i: nat)
    requires i < |holders|
    ensures Heard(Forth(holders) + Back(holders), holders[i]) == Nodes(holders)
  {
    hide Heard, Forth, Back;
    ForthIsHeard(holders);
    BackIsHeard(Forth(holders), holders, i);
    forall m | m in Forth(holders) + Back(holders) ensures m.left in Nodes(holders) && m.right in Nodes(holders) {
      NeighboursMeet(holders, m);
    }
    HeardWithin(Forth(holders) + Back(holders), holders[i], Nodes(holders));
  }

  /**
   From any reachable state with an empty queue and no faults: once every holder of a connected chain has met the
   next, forth and back, all of them have, for every key any of them had, the newest entry any of them had.
   */
  lemma GossipConverges(w: World, attempts: seq<Operation>, holders: seq<NodeId>, d: DocumentId)
    requires w.config.Valid() && Quiet(After(w, attempts).snapshot) && Chain(After(w, attempts).snapshot, holders, d)
    requires Succeeds(w, attempts, Talks(Forth(holders) + Back(holders), d))
    ensures var s := After(w, attempts).snapshot;
            var final := After(w, attempts + Talks(Forth(holders) + Back(holders), d)).snapshot;
            && OnlyAt(s, final, Nodes(holders), d)
            && (forall i | 0 <= i < |holders| :: EntriesOf(final, holders[i], d) == NewestOf(s, holders, d))
            && NewestAmong(s, Nodes(holders), d, NewestOf(s, holders, d))
  {
    hide After, Succeeds, EntriesOf, OnlyAt, NewestAmong, NewestOf, Heard, Reaches, Unambiguous, Chain, Arranged,
      Attendants, Nodes, Forth, Back;
    var s, meetings := After(w, attempts).snapshot, Forth(holders) + Back(holders);
    var final := After(w, attempts + Talks(meetings, d)).snapshot;
    ChainIsArranged(s, holders, d);
    GossipSpreads(w, attempts, meetings, d);
    RunsKeepInv(w, attempts);
    InvIsUnambiguous(w, After(w, attempts));
    NewestOfIsNewest(s, holders, d);
    forall i | 0 <= i < |holders| ensures EntriesOf(final, holders[i], d) == NewestOf(s, holders, d) {
      ChainIsHeard(holders, i);
      NewestIsUnique(s, Nodes(holders), d, EntriesOf(final, holders[i], d), NewestOf(s, holders, d));
    }
    AttendantsAreHolders(holders, meetings);
    OnlyAtMore(s, final, Attendants(meetings), Nodes(holders), d);
  }

  lemma {:induction false} AttendantsAreHolders(holders: seq<NodeId>, meetings: seq<Meeting>)
    requires forall m | m in meetings :: m in Forth(holders) + Back(holders)
    ensures Attendants(meetings) <= Nodes(holders)
    decreases |meetings|
  {
    hide Forth, Back;
    if meetings != [] {
      AttendantsAreHolders(holders, meetings[..|meetings| - 1]);
      NeighboursMeet(holders, meetings[|meetings| - 1]);
    }
  }

  lemma OnlyAtMore(s: Snapshot, final: Snapshot, nodes: set<NodeId>, more: set<NodeId>, d: DocumentId)
    requires OnlyAt(s, final, nodes, d) && nodes <= more
    ensures OnlyAt(s, final, more, d)
  {
    hide EntriesOf, CapabilityOf;
  }

  /** Two sweeps in the same direction do not do: of four holders, the first has then not heard of the last. */
  lemma SweptTwiceMisses(a: NodeId, b: NodeId, c: NodeId, e: NodeId)
    requires a != b && a != c && b != c && e !in {a, b, c}
    ensures var sweep := Forth([a, b, c, e]); e !in Heard(sweep + sweep, a)
  {
    hide Heard;
    var m1, m2, m3 := Meeting(a, b), Meeting(b, c), Meeting(c, e);
    ForthOfFour(a, b, c, e);
    HeardWithin([m1, m2], a, {a, b, c});
    HeardWithin([m1, m2], b, {a, b, c});
    var sweep := [m1, m2] + [m3];
    HeardLast([m1, m2], m3, a);
    HeardLast([m1, m2], m3, b);
    HeardLast(sweep, m1, a);
    HeardLast(sweep + [m1], m2, a);
    HeardLast(sweep + [m1] + [m2], m3, a);
    assert sweep == Forth([a, b, c, e]);
    assert sweep + sweep == sweep + [m1] + [m2] + [m3];
  }

  lemma ForthOfFour(a: NodeId, b: NodeId, c: NodeId, e: NodeId)
    ensures Forth([a, b, c, e]) == [Meeting(a, b), Meeting(b, c), Meeting(c, e)]
  {
    assert [a, b, c, e][..3] == [a, b, c] && [a, b, c][..2] == [a, b] && [a, b][..1] == [a];
    assert Forth([a, b]) == [Meeting(a, b)];
    assert Forth([a, b, c]) == [Meeting(a, b), Meeting(b, c)];
  }
}
