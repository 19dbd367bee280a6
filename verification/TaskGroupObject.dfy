/**
 A task group as an object. Each method is one uninterrupted pass through the steps of the
 interleaved model, so everything proved of those steps holds of the calls.
 */
module TaskGroupObject {
  import opened Base
  import opened RuntimeIds
  import opened TaskGroups
  import opened TaskGroupBounds

  /** An executor whose only group is `g`, between calls. */
  function Alone(g: Group, nextId: nat, recorder: Recorder<EventKind>): System {
    System(nextId, recorder, map[0 := g], map[], map[], [], [])
  }

  /** Recording what has been started, with nothing in between. */
  function Observed(s: System, id: TaskId, clockWorks: bool, accepts: bool): System {
    Next(Next(s, Number(id, clockWorks)), Sink(id, accepts))
  }

  function SpawnedAlone(s: System, name: Bytes, clockWorks: bool, accepts: bool): System
    requires 0 in s.groups
  {
    var a := Admit(s.groups[0], s.nextId, name).2;
    var started := Next(s, Spawn(0, name));
    if a.Refused? then started else Observed(started, a.metadata.id, clockWorks, accepts)
  }

  function EndedAlone(s: System, outcome: EventKind, clockWorks: bool, accepts: bool): System {
    Observed(Next(s, Finish(0, Subject(outcome), outcome)), Subject(outcome), clockWorks, accepts)
  }

  /** How `observe` ends: on the clock, in the recorder, or well. */
  function Observing(recorder: Recorder<EventKind>, kind: EventKind, clockWorks: bool, accepts: bool):
    (Recorder<EventKind>, Option<GroupError>)
  {
    if !clockWorks then (recorder, Some(ClockFailed)) else
    var (after, r) := Recorded(recorder, kind, accepts);
    (after, if r.Ok? then None else Some(TraceFailed(r.error)))
  }

  /** How a spawn ends when nothing comes between its steps. */
  function SpawnResult(g: Group, nextId: nat, recorder: Recorder<EventKind>, name: Bytes, clockWorks: bool,
                       accepts: bool):
    (Group, nat, Recorder<EventKind>, Answer)
  {
    var (after, next, a) := Admit(g, nextId, name);
    if a.Refused? then (after, next, recorder, a.answer) else
    var m := a.metadata;
    var (rec, error) := Observing(recorder, if a.Turned? then TaskRejected(m) else TaskSpawned(m), clockWorks, accepts);
    if error.Some? then (after.(tasks := g.tasks), next, rec, NotObserved(m.id, error.value))
    else (after, next, rec, if a.Turned? then Closed(m) else Spawned(m.id))
  }

  lemma NumberIsForgotten(s: System, id: TaskId, sequence: Option<nat>, cause: GroupError)
    requires id in s.observing
    ensures var numbered := s.(observing := s.observing[id := s.observing[id].(sequence := sequence)]);
            Abandoned(numbered, id, cause) == Abandoned(s, id, cause)
  {
    hide Latch;
    assert s.observing[id := s.observing[id].(sequence := sequence)] - {id} == s.observing - {id};
  }

  /** Recording an observation that stands alone: given up with the recorder's reason, or told. */
  lemma ObservedAlone(s: System, id: TaskId, clockWorks: bool, accepts: bool)
    requires id in s.observing && s.observing[id].sequence.None?
    ensures var (rec, error) := Observing(s.recorder, s.observing[id].kind, clockWorks, accepts);
            var next := Observed(s, id, clockWorks, accepts);
            if error.Some? then next == Abandoned(s.(recorder := rec), id, error.value)
            else && next.recorder == rec && next.observing == s.observing - {id}
                 && next.groups == s.groups && next.nextId == s.nextId && next.admissions == s.admissions
                 && (s.observing[id].kind.TaskRejected? ==>
                       && next.locked == s.locked
                       && next.answers == s.answers + [(s.observing[id].group, Closed(s.observing[id].kind.metadata))])
                 && (s.observing[id].kind.TaskSpawned? ==>
                       && next.locked == s.locked - {s.observing[id].group}
                       && next.answers == s.answers + [(s.observing[id].group, Spawned(id))])
                 && (Terminal(s.observing[id].kind) ==> next.locked == s.locked && next.answers == s.answers)
  {
    hide Latch, Abandoned;
    AbandonGivesUp();
    assert s.(recorder := s.recorder) == s;
    if clockWorks && !accepts {
      var rec := Recorded(s.recorder, s.observing[id].kind, accepts).0;
      NumberIsForgotten(s.(recorder := rec), id, Some(s.recorder.next), TraceFailed(SinkRejected));
    }
  }

  /** The system in which a call ends: only the group, the identifiers, the recorder and the answers matter. */
  predicate Ends(s: System, g: Group, nextId: nat, recorder: Recorder<EventKind>, answers: seq<(GroupId, Answer)>) {
    && s.groups == map[0 := g] && s.nextId == nextId && s.recorder == recorder && s.answers == answers
    && s.locked == map[] && s.observing == map[]
  }

  lemma TurnedAlone(g: Group, nextId: nat, recorder: Recorder<EventKind>, name: Bytes, clockWorks: bool, accepts: bool)
    requires Admit(g, nextId, name).2.Turned?
    ensures var (after, next, rec, answer) := SpawnResult(g, nextId, recorder, name, clockWorks, accepts);
            Ends(SpawnedAlone(Alone(g, nextId, recorder), name, clockWorks, accepts), after, next, rec, [(0, answer)])
  {
    hide Observed, Observing, Numbering, Sinking;
    ObservedAlone(Next(Alone(g, nextId, recorder), Spawn(0, name)), Admit(g, nextId, name).2.metadata.id, clockWorks,
                  accepts);
  }

  lemma AdmittedTask(g: Group, nextId: nat, name: Bytes)
    requires nextId !in g.tasks && !Admit(g, nextId, name).2.Refused?
    ensures var (after, _, a) := Admit(g, nextId, name);
            a.metadata.id == nextId && after.tasks - {nextId} == g.tasks && (a.Turned? ==> after.tasks == g.tasks)
  {
    assert g.tasks[nextId := Admit(g, nextId, name).2.metadata] - {nextId} == g.tasks;
  }

  lemma AdmittedAlone(g: Group, nextId: nat, recorder: Recorder<EventKind>, name: Bytes, clockWorks: bool,
                      accepts: bool)
    requires nextId !in g.tasks && Admit(g, nextId, name).2.Admitted?
    ensures var (after, next, rec, answer) := SpawnResult(g, nextId, recorder, name, clockWorks, accepts);
            Ends(SpawnedAlone(Alone(g, nextId, recorder), name, clockWorks, accepts), after, next, rec, [(0, answer)])
  {
    hide Latch, Admit, Observed, Observing, Numbering, Sinking;
    AdmittedTask(g, nextId, name);
    var s := Next(Alone(g, nextId, recorder), Spawn(0, name));
    var after := Admit(g, nextId, name).0;
    assert s.groups == map[0 := after] && s.observing.Keys == {nextId} && s.locked == map[0 := nextId];
    ObservedAlone(s, nextId, clockWorks, accepts);
    if Observing(recorder, s.observing[nextId].kind, clockWorks, accepts).1.Some? {
      assert SpawnedAlone(Alone(g, nextId, recorder), name, clockWorks, accepts).groups
          == map[0 := after.(tasks := g.tasks)];
    }
  }

  /** The steps of a spawn, one after the other, end where `SpawnResult` says. */
  lemma SpawnIsUninterrupted(g: Group, nextId: nat, recorder: Recorder<EventKind>, name: Bytes, clockWorks: bool,
                             accepts: bool)
    requires nextId !in g.tasks
    ensures var (after, next, rec, answer) := SpawnResult(g, nextId, recorder, name, clockWorks, accepts);
            Ends(SpawnedAlone(Alone(g, nextId, recorder), name, clockWorks, accepts), after, next, rec, [(0, answer)])
  {
    hide Admit, Observed, Numbering, Sinking;
    match Admit(g, nextId, name).2
    case Refused(_) =>
    case Turned(_) => TurnedAlone(g, nextId, recorder, name, clockWorks, accepts);
    case Admitted(_) => AdmittedAlone(g, nextId, recorder, name, clockWorks, accepts);
  }

  /** The end of a task: it leaves the group, its last event is recorded, and a failure to do so is latched. */
  function EndResult(g: Group, recorder: Recorder<EventKind>, outcome: EventKind, clockWorks: bool, accepts: bool):
    (Group, Recorder<EventKind>)
    requires Terminal(outcome)
  {
    var (rec, error) := Observing(recorder, outcome, clockWorks, accepts);
    var left := g.(tasks := g.tasks - {outcome.task});
    (if error.None? then left else left.(failure := Latch(g.failure, error.value)), rec)
  }

  lemma EndIsUninterrupted(g: Group, nextId: nat, recorder: Recorder<EventKind>, outcome: EventKind, clockWorks: bool,
                           accepts: bool)
    requires Terminal(outcome) && outcome.task in g.tasks
    ensures var (after, rec) := EndResult(g, recorder, outcome, clockWorks, accepts);
            Ends(EndedAlone(Alone(g, nextId, recorder), outcome, clockWorks, accepts), after, nextId, rec, [])
  {
    hide Observed, Observing, Numbering, Sinking, Spawning, Latch;
    var s := Next(Alone(g, nextId, recorder), Finish(0, outcome.task, outcome));
    assert s.groups == map[0 := g.(tasks := g.tasks - {outcome.task})];
    assert s.observing == map[outcome.task := Observation(0, outcome, None)];
    assert s.observing - {outcome.task} == map[];
    ObservedAlone(s, outcome.task, clockWorks, accepts);
    var next := EndedAlone(Alone(g, nextId, recorder), outcome, clockWorks, accepts);
    if Observing(recorder, outcome, clockWorks, accepts).1.Some? {
      assert next.groups == map[0 := EndResult(g, recorder, outcome, clockWorks, accepts).0];
    }
  }

  lemma SpawnKeepsOk(g: Group, nextId: nat, recorder: Recorder<EventKind>, name: Bytes, clockWorks: bool, accepts: bool,
                     told: seq<Answer>)
    requires GroupOk(g, told)
    ensures var (after, _, _, answer) := SpawnResult(g, nextId, recorder, name, clockWorks, accepts);
            GroupOk(after, told + [answer])
  {
    hide Observing, Rejections, Latch;
    RejectionsStep(told, SpawnResult(g, nextId, recorder, name, clockWorks, accepts).3);
  }

  datatype CapacitySnapshot = Reported(maxLive: nat, live: nat, highWater: nat, rejectedSpawns: nat,
                                       counterExhausted: bool)

  class TaskGroup {
    const limit: nat
    const parent: Option<TaskId>
    const ids: IdAllocator
    const trace: TraceRecorder<EventKind>
    var closed: bool
    var nextOrdinal: nat
    var tasks: map<TaskId, Metadata>
    var highWater: nat
    var rejectedSpawns: nat
    var counterExhausted: bool
    var failure: Option<GroupError>
    ghost var told: seq<Answer>

    ghost function State(): Group
      reads this
    {
      Group(limit, parent, closed, nextOrdinal, tasks, highWater, rejectedSpawns, counterExhausted, failure)
    }

    ghost function World(): System
      reads this, ids, trace, trace.sequences
    {
      Alone(State(), ids.next, trace.State())
    }

    /** The capacity law, with every answer this group has given to a spawn. */
    ghost predicate Valid()
      reads this, ids, trace, trace.sequences
    {
      ids != trace.sequences && ids.Valid() && trace.Valid() && limit > 0 && GroupOk(State(), told)
    }

    constructor (limit: nat, parent: Option<TaskId>, ids: IdAllocator, trace: TraceRecorder<EventKind>)
      requires limit > 0 && ids != trace.sequences && ids.Valid() && trace.Valid()
      ensures Valid() && State() == NewGroup(limit, parent) && this.ids == ids && this.trace == trace && told == []
    {
      this.limit, this.parent, this.ids, this.trace := limit, parent, ids, trace;
      closed, nextOrdinal, tasks, highWater := false, 0, map[], 0;
      rejectedSpawns, counterExhausted, failure, told := 0, false, None, [];
    }

    method Observe(kind: EventKind, clockWorks: bool, accepts: bool) returns (error: Option<GroupError>)
      requires trace.Valid()
      modifies trace, trace.sequences
      ensures trace.Valid() && (trace.State(), error) == Observing(old(trace.State()), kind, clockWorks, accepts)
    {
      if !clockWorks {
        return Some(ClockFailed);
      }
      var r := trace.Record(kind, accepts);
      error := if r.Ok? then None else Some(TraceFailed(r.error));
    }

    method LatchFailure(error: GroupError)
      modifies this`failure
      ensures failure == Latch(old(failure), error)
    {
      if failure.None? {
        failure := Some(error);
      }
    }

    /** Identifiers of live tasks are spent, so the next one is new. */
    ghost predicate Spent()
      reads this, ids
    {
      forall id | id in tasks :: Issued(ids.next, id)
    }

    method SpawnOwned(name: Bytes, clockWorks: bool, accepts: bool) returns (answer: Answer)
      requires Valid() && Spent()
      modifies this, ids, trace, trace.sequences
      ensures Valid() && Spent() && told == old(told) + [answer]
      ensures Ends(SpawnedAlone(old(World()), name, clockWorks, accepts), State(), ids.next, trace.State(),
                   [(0, answer)])
    {
      hide Rejections, Latch, Observing, SpawnedAlone;
      ghost var before, next, rec := State(), ids.next, trace.State();
      SpawnIsUninterrupted(before, next, rec, name, clockWorks, accepts);
      SpawnKeepsOk(before, next, rec, name, clockWorks, accepts, told);
      AllocationIsFresh(ids.next);
      answer := SpawnTask(name, clockWorks, accepts);
      told := told + [answer];
    }

    method AdmitTask(name: Bytes) returns (a: Admission)
      requires ids != trace.sequences && ids.Valid() && Spent()
      modifies this, ids
      ensures ids.Valid() && Spent() && told == old(told)
      ensures (State(), ids.next, a) == Admit(old(State()), old(ids.next), name)
    {
      AllocationIsFresh(ids.next);
      if !closed && |tasks| >= limit {
        if rejectedSpawns >= U64_MAX {
          closed, counterExhausted := true, true;
          LatchFailure(CapacityCounterExhausted);
          return Refused(CounterExhausted);
        }
        rejectedSpawns := rejectedSpawns + 1;
        return Refused(ResourceLimit(limit));
      }
      var id := ids.Allocate();
      if id.Err? {
        return Refused(NoIdLeft);
      }
      var childOrdinal := nextOrdinal;
      if nextOrdinal >= U64_MAX {
        return Refused(NoOrdinalLeft);
      }
      nextOrdinal := nextOrdinal + 1;
      var metadata := Metadata(id.value, parent, childOrdinal, name);
      if closed {
        return Turned(metadata);
      }
      tasks := tasks[id.value := metadata];
      highWater := if highWater < |tasks| then |tasks| else highWater;
      return Admitted(metadata);
    }

    method SpawnTask(name: Bytes, clockWorks: bool, accepts: bool) returns (answer: Answer)
      requires ids != trace.sequences && ids.Valid() && trace.Valid() && Spent()
      modifies this, ids, trace, trace.sequences
      ensures ids.Valid() && trace.Valid() && Spent() && told == old(told)
      ensures (State(), ids.next, trace.State(), answer)
           == SpawnResult(old(State()), old(ids.next), old(trace.State()), name, clockWorks, accepts)
    {
      hide Observing, Admit;
      AllocationIsFresh(ids.next);
      var a := AdmitTask(name);
      if a.Refused? {
        return a.answer;
      }
      AdmittedTask(old(State()), old(ids.next), name);
      var m := a.metadata;
      if a.Turned? {
        var error := Observe(TaskRejected(m), clockWorks, accepts);
        return if error.Some? then NotObserved(m.id, error.value) else Closed(m);
      }
      var error := Observe(TaskSpawned(m), clockWorks, accepts);
      if error.Some? {
        tasks := tasks - {m.id};
        return NotObserved(m.id, error.value);
      }
      return Spawned(m.id);
    }

    /** What runs when a live task is over. */
    method TaskEnded(outcome: EventKind, clockWorks: bool, accepts: bool)
      requires Valid() && Spent() && Terminal(outcome) && outcome.task in tasks
      modifies this, trace, trace.sequences
      ensures Valid() && Spent() && told == old(told)
      ensures Ends(EndedAlone(old(World()), outcome, clockWorks, accepts), State(), ids.next, trace.State(), [])
    {
      hide Latch, Observing, EndedAlone, Rejections;
      EndIsUninterrupted(State(), ids.next, trace.State(), outcome, clockWorks, accepts);
      RemovedSize(tasks, outcome.task);
      tasks := tasks - {outcome.task};
      var error := Observe(outcome, clockWorks, accepts);
      if error.Some? {
        LatchFailure(error.value);
      }
    }

    method Close()
      requires Valid()
      modifies this`closed
      ensures Valid() && closed && World() == Next(old(World()), TaskGroups.Close(0))
    {
      closed := true;
    }

    /** Once closed and empty, hands the latched failure over and forgets it. */
    method Join() returns (r: Option<GroupError>)
      requires Valid() && Joinable(World(), 0)
      modifies this`failure
      ensures Valid() && r == old(failure) && World() == Next(old(World()), TaskGroups.Join(0))
    {
      r := failure;
      failure := None;
    }

    method TakeCapacitySnapshot() returns (c: CapacitySnapshot)
      requires Valid()
      ensures c.live <= c.highWater <= c.maxLive == limit && c.live == |tasks|
      ensures c.rejectedSpawns == Rejections(told)
      ensures c.counterExhausted <==> CounterExhausted in told
      ensures c.counterExhausted ==> closed
    {
      c := Reported(limit, |tasks|, highWater, rejectedSpawns, counterExhausted);
    }
  }
}
