/** Stable identifiers and the trace recorder that numbers events with them. */
module RuntimeIds {
  import opened Base

  datatype IdExhausted = IdExhausted

  /**
   One allocation out of the identifier space, given the stored `next`: the identifier or exhaustion,
   and the new `next`. Zero marks a space that has been used up.
   */
  function Allocation(next: nat): (Result<nat, IdExhausted>, nat) {
    if next == 0 then (Err(IdExhausted), 0)
    else if next == U64_MAX then (Ok(next), 0)
    else (Ok(next), next + 1)
  }

  /** The identifiers that a space whose counter stands at `next` has already handed out. */
  predicate Issued(next: nat, id: nat) {
    1 <= id <= U64_MAX && (next == 0 || id < next)
  }

  /** An allocated identifier is fresh, and from then on it counts as issued, up to the very last one. */
  lemma AllocationIsFresh(next: nat)
    requires next <= U64_MAX
    ensures var (r, next') := Allocation(next);
            && next' <= U64_MAX
            && (r.Err? ==> next' == next && forall id: nat | 1 <= id <= U64_MAX :: Issued(next, id))
            && (r.Ok? ==> !Issued(next, r.value) && 1 <= r.value <= U64_MAX)
            && (forall id: nat :: Issued(next', id) <==> Issued(next, id) || r == Ok(id))
  {
  }

  function Allocations(next: nat, count: nat): (seq<Result<nat, IdExhausted>>, nat) {
    if count == 0 then ([], next) else
    var (earlier, n) := Allocations(next, count - 1);
    var (r, n') := Allocation(n);
    (earlier + [r], n')
  }

  /** A run of allocations counts up without gaps to the end of the range and then fails for good. */
  lemma {:induction false} AllocationsCountUp(next: nat, count: nat)
    requires 1 <= next <= U64_MAX
    ensures var (results, after) := Allocations(next, count);
            && |results| == count
            && (forall i | 0 <= i < count ::
                  results[i] == if next + i <= U64_MAX then Ok(next + i) else Err(IdExhausted))
            && after == if next + count <= U64_MAX then next + count else 0
  {
    if count > 0 { AllocationsCountUp(next, count - 1); }
  }

  class IdAllocator {
    var next: nat

    ghost predicate Valid()
      reads this
    {
      next <= U64_MAX
    }

    constructor ()
      ensures Valid() && next == 1
    {
      next := 1;
    }

    constructor FromNext(first: nat)
      requires 1 <= first <= U64_MAX
      ensures Valid() && next == first
    {
      next := first;
    }

    method Allocate() returns (r: Result<nat, IdExhausted>)
      requires Valid()
      modifies this
      ensures Valid()
      ensures (r, next) == Allocation(old(next))
    {
      var current := next;
      match current {
        case 0 => return Err(IdExhausted);
        case _ =>
          next := if current == U64_MAX then 0 else current + 1;
          return Ok(current);
      }
    }
  }

  // ---------------------------------------------------------------- trace recorder

  datatype RecordError = SequenceExhausted | SinkRejected

  datatype Event<K> = Event(sequence: nat, kind: K)

  /** The recorder's sequence counter, the events its sink accepted, and its latched failure. */
  datatype Recorder<K> = Recorder(next: nat, log: seq<Event<K>>, failure: Option<RecordError>)

  /** Only the first unhandled failure is kept. */
  function Latch<E>(failure: Option<E>, error: E): Option<E> {
    if failure.None? then Some(error) else failure
  }

  function Recorded<K>(rec: Recorder<K>, kind: K, sinkAccepts: bool): (Recorder<K>, Result<nat, RecordError>) {
    var (sequence, next) := Allocation(rec.next);
    match sequence
    case Err(_) => (rec.(failure := Latch(rec.failure, SequenceExhausted)), Err(SequenceExhausted))
    case Ok(n) =>
      if sinkAccepts then (rec.(next := next, log := rec.log + [Event(n, kind)]), Ok(n))
      else (rec.(next := next, failure := Latch(rec.failure, SinkRejected)), Err(SinkRejected))
  }

  /** Accepted events carry distinct sequence numbers, all of them handed out already. */
  predicate Sequenced<K>(rec: Recorder<K>) {
    && rec.next <= U64_MAX
    && (forall i | 0 <= i < |rec.log| :: Issued(rec.next, rec.log[i].sequence))
    && (forall i, j | 0 <= i < j < |rec.log| :: rec.log[i].sequence != rec.log[j].sequence)
  }

  lemma RecordedKeepsSequence<K>(rec: Recorder<K>, kind: K, sinkAccepts: bool)
    requires Sequenced(rec)
    ensures Sequenced(Recorded(rec, kind, sinkAccepts).0)
  {
    AllocationIsFresh(rec.next);
  }

  class TraceRecorder<K> {
    const sequences: IdAllocator
    var log: seq<Event<K>>
    var failure: Option<RecordError>

    ghost function State(): Recorder<K>
      reads this, sequences
    {
      Recorder(sequences.next, log, failure)
    }

    ghost predicate Valid()
      reads this, sequences
    {
      Sequenced(State())
    }

    constructor ()
      ensures Valid() && State() == Recorder(1, [], None)
      ensures fresh(sequences)
    {
      sequences := new IdAllocator();
      log := [];
      failure := None;
    }

    method Record(kind: K, sinkAccepts: bool) returns (r: Result<nat, RecordError>)
      requires Valid()
      modifies this, sequences
      ensures Valid()
      ensures (State(), r) == Recorded(old(State()), kind, sinkAccepts)
    {
      RecordedKeepsSequence(State(), kind, sinkAccepts);
      var sequence := sequences.Allocate();
      if sequence.Err? {
        r := Err(SequenceExhausted);
      } else if !sinkAccepts {
        r := Err(SinkRejected);
      } else {
        log := log + [Event(sequence.value, kind)];
        r := Ok(sequence.value);
      }
      if r.Err? && failure.None? {
        failure := Some(r.error);
      }
    }

    method TakeFailure() returns (taken: Option<RecordError>)
      requires Valid()
      modifies this
      ensures Valid() && taken == old(failure) && State() == old(State()).(failure := None)
    {
      taken := failure;
      failure := None;
    }
  }

  // ---------------------------------------------------------------- whole recordings

  /** A new recorder after one call for each kind; the sink accepts as it is told. */
  function Recording<K>(kinds: seq<K>, accepts: seq<bool>): (Recorder<K>, seq<Result<nat, RecordError>>)
    requires |kinds| == |accepts|
  {
    if kinds == [] then (Recorder(1, [], None), []) else
    var n := |kinds| - 1;
    var (before, results) := Recording(kinds[..n], accepts[..n]);
    var (after, r) := Recorded(before, kinds[n], accepts[n]);
    (after, results + [r])
  }

  /** The events that were accepted, numbered by the calls. */
  function Accepted<K>(kinds: seq<K>, accepts: seq<bool>): seq<Event<K>>
    requires |kinds| == |accepts|
  {
    if kinds == [] then [] else
    var n := |kinds| - 1;
    Accepted(kinds[..n], accepts[..n]) + (if accepts[n] then [Event(n + 1, kinds[n])] else [])
  }

  ghost predicate FirstError(results: seq<Result<nat, RecordError>>, failure: Option<RecordError>) {
    if failure.None? then forall i | 0 <= i < |results| :: results[i].Ok?
    else exists i :: 0 <= i < |results| && results[i] == Err(failure.value) && forall j | 0 <= j < i :: results[j].Ok?
  }

  /**
   While numbers last, the log is exactly the accepted events in the order of the calls, each with the number of its
   call; every call says so, and the failure kept is the first.
   */
  lemma {:induction false} RecordingIsExact<K>(kinds: seq<K>, accepts: seq<bool>)
    requires |kinds| == |accepts| < U64_MAX
    ensures var (rec, results) := Recording(kinds, accepts);
            && rec.next == |kinds| + 1 && rec.log == Accepted(kinds, accepts) && |results| == |kinds|
            && (forall i | 0 <= i < |kinds| :: results[i] == if accepts[i] then Ok(i + 1) else Err(SinkRejected))
            && FirstError(results, rec.failure)
  {
    if kinds != [] {
      var n := |kinds| - 1;
      RecordingIsExact(kinds[..n], accepts[..n]);
      var (before, results) := Recording(kinds[..n], accepts[..n]);
      var (rec, all) := Recording(kinds, accepts);
      assert all[..n] == results;
      if before.failure.Some? {
        var i :| && 0 <= i < |results| && results[i] == Err(before.failure.value)
                 && forall j | 0 <= j < i :: results[j].Ok?;
        assert all[i] == results[i];
      } else if !accepts[n] {
        assert all[n] == Err(SinkRejected);
      }
    }
  }

  /** Once the numbers have run out, nothing is logged any more, whatever the sink would do. */
  lemma ExhaustedRecorderRefuses<K>(rec: Recorder<K>, kind: K, sinkAccepts: bool)
    requires rec.next == 0
    ensures var (after, r) := Recorded(rec, kind, sinkAccepts);
            && r == Err(SequenceExhausted) && after.log == rec.log && after.next == 0 && after.failure.Some?
            && (rec.failure.Some? ==> after.failure == rec.failure)
  {
  }
}
