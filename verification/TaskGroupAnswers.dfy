/** What callers of a task group get: each call left alone, and over every run what is answered and recorded. */
module TaskGroupAnswers {
  import opened Base
  import opened RuntimeIds
  import opened TaskGroups
  import opened TaskGroupSafety
  import opened TaskGroupBounds

  // ---------------------------------------------------------------- calls left alone

  /** A recorder that takes one more event. */
  predicate CanRecord(s: System) {
    s.recorder.next != 0
  }

  /** A group that no spawn has locked, in an executor that still has identifiers and ordinals for it. */
  predicate CanHandOut(s: System, g: GroupId) {
    g in s.groups && g !in s.locked && s.nextId != 0 && s.groups[g].nextOrdinal < U64_MAX
  }

  /** The spawn, its number and its record, one after the other. */
  function SpawnSteps(id: TaskId, g: GroupId, name: Bytes): seq<Step> {
    [Spawn(g, name), Number(id, true), Sink(id, true)]
  }

  lemma AfterThree(steps: seq<Step>, a: Step, b: Step, c: Step)
    ensures After(steps + [a, b, c]) == Next(Next(Next(After(steps), a), b), c)
  {
    hide Next;
    AfterOne(steps, a);
    AfterOne(steps + [a], b);
    AfterOne(steps + [a] + [b], c);
    assert steps + [a] + [b] + [c] == steps + [a, b, c];
  }

  function Handed(s: System, g: GroupId, name: Bytes): Metadata
    requires g in s.groups
  {
    Metadata(s.nextId, s.groups[g].parent, s.groups[g].nextOrdinal, name)
  }

  /** A spawn on an open group with room is answered with a new task, which is then live and on record. */
  lemma RoomIsGiven(steps: seq<Step>, g: GroupId, name: Bytes)
    requires var s := After(steps);
             CanHandOut(s, g) && CanRecord(s) && !s.groups[g].closed && |s.groups[g].tasks| < s.groups[g].limit
    ensures var s := After(steps);
            var later, m := After(steps + SpawnSteps(s.nextId, g, name)), Handed(s, g, name);
            && later.answers == s.answers + [(g, Spawned(m.id))]
            && m.id !in s.groups[g].tasks && g in later.groups && later.groups[g].tasks == s.groups[g].tasks[m.id := m]
            && later.recorder.log == s.recorder.log + [Event(s.recorder.next, TaskSpawned(m))]
            && later.locked == s.locked
  {
    hide After, Sound, Next;
    var s := After(steps);
    RunsStaySound(steps);
    AfterThree(steps, Spawn(g, name), Number(s.nextId, true), Sink(s.nextId, true));
    NewIdIsNew(s, g);
    AdmissionStarts(s, g, name);
    var started := Next(s, Spawn(g, name));
    RecordingEnds(started, s.nextId);
    assert s.locked[g := s.nextId] - {g} == s.locked;
  }

  /** What a spawn that hands a task out has under way. */
  lemma AdmissionStarts(s: System, g: GroupId, name: Bytes)
    requires CanHandOut(s, g) && (s.groups[g].closed || |s.groups[g].tasks| < s.groups[g].limit)
    ensures var started, m, closed := Next(s, Spawn(g, name)), Handed(s, g, name), s.groups[g].closed;
            && started.recorder == s.recorder && started.answers == s.answers && g in started.groups
            && started.observing
               == s.observing[m.id := Observation(g, if closed then TaskRejected(m) else TaskSpawned(m), None)]
            && started.groups[g].tasks == (if closed then s.groups[g].tasks else s.groups[g].tasks[m.id := m])
            && started.locked == (if closed then s.locked else s.locked[g := m.id])
  {
  }

  /** Recording what is under way, with nothing in between. */
  lemma RecordingEnds(s: System, id: TaskId)
    requires id in s.observing && s.observing[id].sequence.None? && !Terminal(s.observing[id].kind) && CanRecord(s)
    ensures var o, later := s.observing[id], Next(Next(s, Number(id, true)), Sink(id, true));
            && later.groups == s.groups
            && later.recorder.log == s.recorder.log + [Event(s.recorder.next, o.kind)]
            && later.answers
               == s.answers + [(o.group, if o.kind.TaskSpawned? then Spawned(id) else Closed(o.kind.metadata))]
            && later.locked == (if o.kind.TaskSpawned? then s.locked - {o.group} else s.locked)
  {
    hide Abandoned, Latch;
    var numbered := Next(s, Number(id, true));
    assert numbered.observing[id] == s.observing[id].(sequence := Some(s.recorder.next));
  }

  lemma NewIdIsNew(s: System, g: GroupId)
    requires Sound(s) && CanHandOut(s, g)
    ensures s.nextId !in s.observing && s.nextId !in s.groups[g].tasks
  {
    hide SequenceInv, CapacityInv, AdmissionInv, VouchedInv, Stories, Story;
    forall id | id in s.observing ensures Issued(s.nextId, id) { assert Fitting(s, id, s.observing[id]); }
    forall id | id in s.groups[g].tasks ensures Issued(s.nextId, id) { assert LiveIn(s, g, id); }
  }

  /** A spawn on a closed group is turned away, on record, and nothing about the group's tasks changes. */
  lemma ClosedIsClosed(steps: seq<Step>, g: GroupId, name: Bytes)
    requires var s := After(steps); CanHandOut(s, g) && CanRecord(s) && s.groups[g].closed
    ensures var s := After(steps);
            var later, m := After(steps + SpawnSteps(s.nextId, g, name)), Handed(s, g, name);
            && later.answers == s.answers + [(g, Closed(m))]
            && g in later.groups && later.groups[g].tasks == s.groups[g].tasks
            && later.recorder.log == s.recorder.log + [Event(s.recorder.next, TaskRejected(m))]
  {
    hide After, Next;
    var s := After(steps);
    AfterThree(steps, Spawn(g, name), Number(s.nextId, true), Sink(s.nextId, true));
    AdmissionStarts(s, g, name);
    RecordingEnds(Next(s, Spawn(g, name)), s.nextId);
  }

  /** A full group refuses at once, whatever else is left, and counts it. */
  lemma FullIsRefused(steps: seq<Step>, g: GroupId, name: Bytes)
    requires var s := After(steps);
             && g in s.groups && g !in s.locked && !s.groups[g].closed
             && |s.groups[g].tasks| == s.groups[g].limit && s.groups[g].rejectedSpawns < U64_MAX
    ensures var s, later := After(steps), After(steps + [Spawn(g, name)]);
            && later.answers == s.answers + [(g, ResourceLimit(s.groups[g].limit))]
            && later.nextId == s.nextId && later.recorder == s.recorder && later.observing == s.observing
            && g in later.groups && later.groups[g].tasks == s.groups[g].tasks && !later.groups[g].closed
            && later.groups[g].rejectedSpawns == s.groups[g].rejectedSpawns + 1
  {
    hide After;
    AfterOne(steps, Spawn(g, name));
  }

  /** Without identifiers or ordinals left a spawn that the limit lets through says so. */
  lemma NothingLeftIsSaid(steps: seq<Step>, g: GroupId, name: Bytes)
    requires var s := After(steps);
             && g in s.groups && g !in s.locked && (s.groups[g].closed || |s.groups[g].tasks| < s.groups[g].limit)
             && (s.nextId == 0 || s.groups[g].nextOrdinal >= U64_MAX)
    ensures var s, later := After(steps), After(steps + [Spawn(g, name)]);
            && later.answers == s.answers + [(g, if s.nextId == 0 then NoIdLeft else NoOrdinalLeft)]
            && later.groups == s.groups && later.observing == s.observing && later.recorder == s.recorder
  {
    hide After;
    AfterOne(steps, Spawn(g, name));
    assert After(steps).groups[g := After(steps).groups[g]] == After(steps).groups;
  }

  /** A live task that ends leaves its group, with its outcome on record; a broken clock is latched instead. */
  lemma EndIsRecorded(steps: seq<Step>, g: GroupId, id: TaskId, outcome: EventKind)
    requires var s := After(steps); LiveIn(s, g, id) && g !in s.locked && CanRecord(s)
    requires Terminal(outcome) && Subject(outcome) == id
    ensures var s, later := After(steps), After(steps + [Finish(g, id, outcome), Number(id, true), Sink(id, true)]);
            && g in later.groups && later.groups[g] == s.groups[g].(tasks := s.groups[g].tasks - {id})
            && later.recorder.log == s.recorder.log + [Event(s.recorder.next, outcome)] && later.answers == s.answers
    ensures var s, later := After(steps), After(steps + [Finish(g, id, outcome)] + [Number(id, false)]);
            && g in later.groups && id !in later.groups[g].tasks && later.recorder == s.recorder
            && later.groups[g].failure == if s.groups[g].failure.Some? then s.groups[g].failure else Some(ClockFailed)
  {
    hide After;
    AfterThree(steps, Finish(g, id, outcome), Number(id, true), Sink(id, true));
    AfterOne(steps, Finish(g, id, outcome));
    AfterOne(steps + [Finish(g, id, outcome)], Number(id, false));
    var ended := Next(After(steps), Finish(g, id, outcome));
    assert ended.observing[id] == Observation(g, outcome, None);
  }

  /** Opening makes an empty, open group, once. */
  lemma OpeningOpens(steps: seq<Step>, g: GroupId, limit: nat, parent: Option<TaskId>)
    requires limit > 0
    ensures var s, later := After(steps), After(steps + [OpenGroup(g, limit, parent)]);
            && g in later.groups
            && (g in s.groups ==> later == s)
            && (g !in s.groups ==>
                  && later.groups[g].tasks == map[] && !later.groups[g].closed && later.groups[g].limit == limit
                  && later.groups[g].parent == parent && later.groups[g].failure == None
                  && later.groups[g].rejectedSpawns == 0)
  {
    hide After;
    AfterOne(steps, OpenGroup(g, limit, parent));
  }

  // ---------------------------------------------------------------- answers and records

  ghost predicate Answered(s: System, a: Answer) {
    exists i :: 0 <= i < |s.answers| && s.answers[i].1 == a
  }

  ghost predicate OnRecord(s: System, kind: EventKind) {
    exists i :: 0 <= i < |s.recorder.log| && s.recorder.log[i].kind == kind
  }

  ghost predicate SpawnOnRecord(s: System, id: TaskId) {
    exists i :: 0 <= i < |s.recorder.log| && s.recorder.log[i].kind.TaskSpawned?
                && s.recorder.log[i].kind.metadata.id == id
  }

  /** Spawns are answered as they are recorded, and rejections too. */
  ghost predicate Matched(s: System) {
    && (forall id :: Answered(s, Spawned(id)) <==> SpawnOnRecord(s, id))
    && (forall m :: Answered(s, Closed(m)) <==> OnRecord(s, TaskRejected(m)))
  }

  lemma AnsweredMore(s: System, next: System, g: GroupId, last: Answer, a: Answer)
    requires next.answers == s.answers + [(g, last)]
    ensures Answered(next, a) <==> Answered(s, a) || a == last
  {
    if Answered(s, a) {
      var i :| 0 <= i < |s.answers| && s.answers[i].1 == a;
      assert next.answers[i].1 == a;
    }
    if a == last { assert next.answers[|s.answers|].1 == a; }
  }

  lemma RecordedMore(s: System, next: System, e: Event<EventKind>, kind: EventKind, id: TaskId)
    requires next.recorder.log == s.recorder.log + [e]
    ensures OnRecord(next, kind) <==> OnRecord(s, kind) || e.kind == kind
    ensures SpawnOnRecord(next, id) <==> SpawnOnRecord(s, id) || (e.kind.TaskSpawned? && e.kind.metadata.id == id)
  {
    var log := next.recorder.log;
    assert log[|s.recorder.log|] == e;
    if OnRecord(s, kind) {
      var i :| 0 <= i < |s.recorder.log| && s.recorder.log[i].kind == kind;
      assert log[i].kind == kind;
    }
    if SpawnOnRecord(s, id) {
      var i :| && 0 <= i < |s.recorder.log| && s.recorder.log[i].kind.TaskSpawned?
               && s.recorder.log[i].kind.metadata.id == id;
      assert log[i] == s.recorder.log[i];
    }
  }

  /** A step that records nothing and answers at most that there is no task. */
  lemma UnrecordedKeepsMatch(s: System, next: System, g: GroupId, a: Option<Answer>)
    requires Matched(s) && next.recorder.log == s.recorder.log
    requires next.answers == s.answers + (if a.Some? then [(g, a.value)] else [])
    requires a.Some? ==> !a.value.Spawned? && !a.value.Closed?
    ensures Matched(next)
  {
    hide Answered;
    forall b: Answer | b.Spawned? || b.Closed? ensures Answered(next, b) <==> Answered(s, b) {
      assert a.None? ==> next.answers == s.answers;
      if a.Some? { AnsweredMore(s, next, g, a.value, b); } else { SameAnswers(s, next, b); }
    }
    forall kind, id
      ensures (OnRecord(next, kind) <==> OnRecord(s, kind)) && (SpawnOnRecord(next, id) <==> SpawnOnRecord(s, id))
    {
    }
  }

  lemma SameAnswers(s: System, next: System, a: Answer)
    requires next.answers == s.answers
    ensures Answered(next, a) <==> Answered(s, a)
  {
  }

  lemma SinkKeepsMatch(s: System, id: TaskId)
    requires Matched(s) && id in s.observing && s.observing[id].sequence.Some? && Subject(s.observing[id].kind) == id
    ensures Matched(Sinking(s, id, true))
  {
    hide Answered, OnRecord, SpawnOnRecord;
    var o, next := s.observing[id], Sinking(s, id, true);
    var e := Event(o.sequence.value, o.kind);
    forall id' ensures Answered(next, Spawned(id')) <==> SpawnOnRecord(next, id') {
      RecordedMore(s, next, e, o.kind, id');
      if Terminal(o.kind) { SameAnswers(s, next, Spawned(id')); }
      else { AnsweredMore(s, next, o.group, next.answers[|s.answers|].1, Spawned(id')); }
    }
    forall m ensures Answered(next, Closed(m)) <==> OnRecord(next, TaskRejected(m)) {
      RecordedMore(s, next, e, TaskRejected(m), id);
      if Terminal(o.kind) { SameAnswers(s, next, Closed(m)); }
      else { AnsweredMore(s, next, o.group, next.answers[|s.answers|].1, Closed(m)); }
    }
  }

  lemma AbandonKeepsMatch(s: System, recorder: Recorder<EventKind>, id: TaskId, cause: GroupError)
    requires Matched(s) && id in s.observing && recorder.log == s.recorder.log
    ensures Matched(Abandoned(s.(recorder := recorder), id, cause))
  {
    hide Matched, Latch;
    var o, next := s.observing[id], Abandoned(s.(recorder := recorder), id, cause);
    var told := o.group in s.groups && !Terminal(o.kind);
    UnrecordedKeepsMatch(s, next, o.group, if told then Some(NotObserved(id, cause)) else None);
  }

  lemma SpawnKeepsMatch(s: System, g: GroupId, name: Bytes)
    requires Matched(s) && g in s.groups
    ensures Matched(Spawning(s, g, name))
  {
    hide Matched, Latch;
    var a := Admit(s.groups[g], s.nextId, name).2;
    UnrecordedKeepsMatch(s, Spawning(s, g, name), g, if a.Refused? then Some(a.answer) else None);
  }

  lemma StepKeepsMatch(s: System, step: Step)
    requires Matched(s) && TraceInv(s)
    ensures Matched(Next(s, step))
  {
    hide Matched, Latch, Abandoned, Spawning, Tasks, Stories, Story;
    var next := Next(s, step);
    if next != s {
      match step
      case Spawn(g, name) => SpawnKeepsMatch(s, g, name);
      case Number(id, clockWorks) =>
        var latched := s.recorder.(failure := Latch(s.recorder.failure, SequenceExhausted));
        AbandonKeepsMatch(s, s.recorder, id, ClockFailed);
        AbandonKeepsMatch(s, latched, id, TraceFailed(SequenceExhausted));
        assert s.(recorder := s.recorder) == s;
        if clockWorks && Allocation(s.recorder.next).0.Ok? { UnrecordedKeepsMatch(s, next, 0, None); }
      case Sink(id, accepts) =>
        assert Fitting(s, id, s.observing[id]);
        var latched := s.recorder.(failure := Latch(s.recorder.failure, SinkRejected));
        AbandonKeepsMatch(s, latched, id, TraceFailed(SinkRejected));
        if accepts { SinkKeepsMatch(s, id); }
      case _ => UnrecordedKeepsMatch(s, next, 0, None);
    }
  }

  /** In every run exactly the spawns on record were answered with their task, and the rejections with Closed. */
  lemma {:induction false} AnswersAreOnRecord(steps: seq<Step>)
    ensures Matched(After(steps))
  {
    hide Matched, Next, Sound;
    if steps == [] {
      NothingToMatch();
    } else {
      var most := steps[..|steps| - 1];
      AnswersAreOnRecord(most);
      RunsStaySound(most);
      SoundTrace(After(most));
      StepKeepsMatch(After(most), steps[|steps| - 1]);
    }
  }

  lemma SoundTrace(s: System)
    requires Sound(s)
    ensures TraceInv(s)
  {
  }

  lemma NothingToMatch()
    ensures Matched(INITIAL)
  {
  }

  // ---------------------------------------------------------------- the first failure

  lemma AbandonKeepsFailure(s: System, id: TaskId, cause: GroupError, g: GroupId)
    requires id in s.observing && g in s.groups && s.groups[g].failure.Some?
    ensures var next := Abandoned(s, id, cause); g in next.groups && next.groups[g].failure == s.groups[g].failure
  {
  }

  lemma SpawnKeepsFailure(s: System, g0: GroupId, name: Bytes, g: GroupId)
    requires g0 in s.groups && g in s.groups && s.groups[g].failure.Some?
    ensures var next := Spawning(s, g0, name); g in next.groups && next.groups[g].failure == s.groups[g].failure
  {
  }

  lemma FailureStep(s: System, step: Step, g: GroupId)
    requires g in s.groups && s.groups[g].failure.Some? && step != Join(g)
    ensures g in Next(s, step).groups && Next(s, step).groups[g].failure == s.groups[g].failure
  {
    hide Abandoned, Spawning, Latch;
    match step
    case Spawn(g0, name) => if g0 in s.groups { SpawnKeepsFailure(s, g0, name, g); }
    case Number(id, _) =>
      if id in s.observing {
        var latched := s.recorder.(failure := Latch(s.recorder.failure, SequenceExhausted));
        AbandonKeepsFailure(s, id, ClockFailed, g);
        AbandonKeepsFailure(s.(recorder := latched), id, TraceFailed(SequenceExhausted), g);
      }
    case Sink(id, _) =>
      if id in s.observing {
        var latched := s.recorder.(failure := Latch(s.recorder.failure, SinkRejected));
        AbandonKeepsFailure(s.(recorder := latched), id, TraceFailed(SinkRejected), g);
      }
    case _ =>
  }

  /** A group keeps the first failure it latched until a join takes it. */
  lemma {:induction false} FirstFailureStays(steps: seq<Step>, more: seq<Step>, g: GroupId)
    requires g in After(steps).groups && After(steps).groups[g].failure.Some? && Join(g) !in more
    ensures var s, later := After(steps), After(steps + more);
            g in later.groups && later.groups[g].failure == s.groups[g].failure
    decreases |more|
  {
    hide After, Next;
    if more == [] {
      assert steps + more == steps;
    } else {
      var init, last := more[..|more| - 1], more[|more| - 1];
      FirstFailureStays(steps, init, g);
      assert steps + more == (steps + init) + [last];
      AfterOne(steps + init, last);
      FailureStep(After(steps + init), last, g);
    }
  }

  /** The end of one of the group's tasks is still on its way to the record. */
  ghost predicate Ending(s: System, g: GroupId) {
    exists id :: id in s.observing && s.observing[id].group == g && Terminal(s.observing[id].kind)
  }

  /**
   A join returns exactly if the group is closed and has no task, live or ending: then it takes the failure and changes
   nothing else, and from then on the group stays empty and turns every spawn away.
   */
  lemma JoinTakesFailure(steps: seq<Step>, more: seq<Step>, g: GroupId)
    ensures var s, joined, later := After(steps), After(steps + [Join(g)]), After(steps + [Join(g)] + more);
            var ready := g in s.groups && s.groups[g].closed && s.groups[g].tasks == map[] && !Ending(s, g);
            && (!ready ==> joined == s)
            && (ready ==>
                  && joined == s.(groups := s.groups[g := s.groups[g].(failure := None)])
                  && g in later.groups && later.groups[g].closed && later.groups[g].tasks == map[]
                  && OnlyTurnsAway(AnswersOf(s.answers, g), AnswersOf(later.answers, g)))
  {
    hide After, AnswersOf, Sound, Joinable;
    var s := After(steps);
    AfterOne(steps, Join(g));
    RunsStaySound(steps);
    JoinableIff(s, g);
    if Joinable(s, g) { ClosedForGood(steps + [Join(g)], more, g); }
  }

  lemma JoinableIff(s: System, g: GroupId)
    requires Sound(s)
    ensures Joinable(s, g) <==> g in s.groups && s.groups[g].closed && s.groups[g].tasks == map[] && !Ending(s, g)
  {
    hide SequenceInv, CapacityInv, AdmissionInv, VouchedInv, Stories, Story;
    forall id | id in s.observing && s.observing[id].group == g && g in s.groups && s.groups[g].closed
      ensures !s.observing[id].kind.TaskSpawned?
    {
      assert Fitting(s, id, s.observing[id]);
    }
  }

  /** A spawn whose record is lost is undone, and the caller is told why. */
  lemma LostSpawnsAreUndone(steps: seq<Step>, g: GroupId, name: Bytes)
    requires var s := After(steps);
             CanHandOut(s, g) && CanRecord(s) && !s.groups[g].closed && |s.groups[g].tasks| < s.groups[g].limit
    ensures var s := After(steps);
            var unclocked := After(steps + [Spawn(g, name)] + [Number(s.nextId, false)]);
            var unsunk := After(steps + [Spawn(g, name), Number(s.nextId, true), Sink(s.nextId, false)]);
            && unclocked.answers == s.answers + [(g, NotObserved(s.nextId, ClockFailed))]
            && unsunk.answers == s.answers + [(g, NotObserved(s.nextId, TraceFailed(SinkRejected)))]
            && unclocked.recorder == s.recorder && unsunk.recorder.log == s.recorder.log
            && unsunk.recorder.failure
               == (if s.recorder.failure.Some? then s.recorder.failure else Some(SinkRejected))
            && unclocked.locked == unsunk.locked == s.locked
            && g in unclocked.groups && unclocked.groups[g].tasks == s.groups[g].tasks
            && g in unsunk.groups && unsunk.groups[g].tasks == s.groups[g].tasks
  {
    hide After, Sound, Next;
    var s := After(steps);
    RunsStaySound(steps);
    NewIdIsNew(s, g);
    AfterOne(steps, Spawn(g, name));
    AfterOne(steps + [Spawn(g, name)], Number(s.nextId, false));
    AfterThree(steps, Spawn(g, name), Number(s.nextId, true), Sink(s.nextId, false));
    AdmissionStarts(s, g, name);
    RecordingFails(Next(s, Spawn(g, name)), s.nextId);
    assert s.locked[g := s.nextId] - {g} == s.locked;
    assert s.groups[g].tasks[s.nextId := Handed(s, g, name)] - {s.nextId} == s.groups[g].tasks;
  }

  lemma RecordingFails(s: System, id: TaskId)
    requires id in s.observing && s.observing[id].sequence.None? && s.observing[id].kind.TaskSpawned? && CanRecord(s)
    requires s.observing[id].group in s.groups
    ensures var o := s.observing[id];
            var unclocked, unsunk := Next(s, Number(id, false)), Next(Next(s, Number(id, true)), Sink(id, false));
            && unclocked.answers == s.answers + [(o.group, NotObserved(id, ClockFailed))]
            && unsunk.answers == s.answers + [(o.group, NotObserved(id, TraceFailed(SinkRejected)))]
            && unclocked.recorder == s.recorder && unsunk.recorder.log == s.recorder.log
            && unsunk.recorder.failure
               == (if s.recorder.failure.Some? then s.recorder.failure else Some(SinkRejected))
            && unclocked.locked == unsunk.locked == s.locked - {o.group}
            && o.group in unclocked.groups && unclocked.groups[o.group].tasks == s.groups[o.group].tasks - {id}
            && o.group in unsunk.groups && unsunk.groups[o.group].tasks == s.groups[o.group].tasks - {id}
  {
    var numbered := Next(s, Number(id, true));
    assert numbered.observing[id] == s.observing[id].(sequence := Some(s.recorder.next));
  }

  /** A full group whose rejection counter has run out is closed, with that as its failure. */
  lemma FullCounterCloses(steps: seq<Step>, g: GroupId, name: Bytes)
    requires var s := After(steps);
             && g in s.groups && g !in s.locked && !s.groups[g].closed
             && |s.groups[g].tasks| == s.groups[g].limit && s.groups[g].rejectedSpawns == U64_MAX
    ensures var s, later := After(steps), After(steps + [Spawn(g, name)]);
            && later.answers == s.answers + [(g, CounterExhausted)]
            && g in later.groups && later.groups[g].closed && later.groups[g].counterExhausted
            && later.groups[g].tasks == s.groups[g].tasks && later.groups[g].rejectedSpawns == U64_MAX
            && later.groups[g].failure.Some?
            && (s.groups[g].failure.None? ==> later.groups[g].failure == Some(CapacityCounterExhausted))
  {
    hide After;
    AfterOne(steps, Spawn(g, name));
  }
}
