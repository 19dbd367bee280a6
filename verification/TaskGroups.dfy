/**
 Structured task groups over one executor: a shared identifier space, a shared trace recorder, and
 any number of groups, each behind its own lock. A step makes at most one access to what groups share:
 taking an identifier, numbering an event and handing it to the sink are separate steps, and a spawn
 holds its group's lock from the first to the last of them.
 */
module TaskGroups {
  import opened Base
  import opened RuntimeIds

  type TaskId = nat
  type GroupId = nat

  datatype Metadata = Metadata(id: TaskId, parent: Option<TaskId>, childOrdinal: nat, name: Bytes)

  datatype EventKind =
    | TaskSpawned(metadata: Metadata)
    | TaskCompleted(task: TaskId)
    | TaskCancelled(task: TaskId)
    | TaskPanicked(task: TaskId)
    | TaskRejected(metadata: Metadata)

  predicate Terminal(k: EventKind) {
    k.TaskCompleted? || k.TaskCancelled? || k.TaskPanicked?
  }

  function Subject(k: EventKind): TaskId {
    if Terminal(k) then k.task else k.metadata.id
  }

  datatype GroupError = ClockFailed | TraceFailed(error: RecordError) | CapacityCounterExhausted

  datatype Answer =
    | Spawned(id: TaskId)
    | Closed(metadata: Metadata)
    | NoIdLeft
    | NoOrdinalLeft
    | ResourceLimit(limit: nat)
    | CounterExhausted
    | NotObserved(id: TaskId, cause: GroupError)

  datatype Group = Group(
    limit: nat,
    parent: Option<TaskId>,
    closed: bool,
    nextOrdinal: nat,
    tasks: map<TaskId, Metadata>,
    highWater: nat,
    rejectedSpawns: nat,
    counterExhausted: bool,
    failure: Option<GroupError>)

  function NewGroup(limit: nat, parent: Option<TaskId>): Group {
    Group(limit, parent, false, 0, map[], 0, 0, false, None)
  }

  /** How the locked part of a spawn ends. */
  datatype Admission = Refused(answer: Answer) | Turned(metadata: Metadata) | Admitted(metadata: Metadata)

  /** The locked part of `spawn_owned`, up to the insertion. */
  function Admit(g: Group, nextId: nat, name: Bytes): (Group, nat, Admission) {
    if !g.closed && |g.tasks| >= g.limit then
      if g.rejectedSpawns >= U64_MAX then
        (g.(closed := true, counterExhausted := true, failure := Latch(g.failure, CapacityCounterExhausted)),
         nextId, Refused(CounterExhausted))
      else (g.(rejectedSpawns := g.rejectedSpawns + 1), nextId, Refused(ResourceLimit(g.limit)))
    else
      var (id, next) := Allocation(nextId);
      if id.Err? then (g, nextId, Refused(NoIdLeft))
      else if g.nextOrdinal >= U64_MAX then (g, next, Refused(NoOrdinalLeft))
      else
        var metadata := Metadata(id.value, g.parent, g.nextOrdinal, name);
        var counted := g.(nextOrdinal := g.nextOrdinal + 1);
        if g.closed then (counted, next, Turned(metadata))
        else
          var tasks := g.tasks[id.value := metadata];
          (counted.(tasks := tasks, highWater := Max(g.highWater, |tasks|)), next, Admitted(metadata))
  }

  // ---------------------------------------------------------------- the whole executor

  /** An observation under way: not yet numbered, or numbered and on its way to the sink. */
  datatype Observation = Observation(group: GroupId, kind: EventKind, sequence: Option<nat>)

  datatype System = System(
    nextId: nat,
    recorder: Recorder<EventKind>,
    groups: map<GroupId, Group>,
    locked: map<GroupId, TaskId>,
    observing: map<TaskId, Observation>,
    admissions: seq<(GroupId, Metadata)>,
    answers: seq<(GroupId, Answer)>)

  const INITIAL: System := System(1, Recorder(1, [], None), map[], map[], map[], [], [])

  datatype Step =
    | OpenGroup(g: GroupId, limit: nat, parent: Option<TaskId>)
    | Spawn(g: GroupId, name: Bytes)
    | Finish(g: GroupId, id: TaskId, outcome: EventKind)
    | Number(id: TaskId, clockWorks: bool)
    | Sink(id: TaskId, accepts: bool)
    | Close(g: GroupId)
    | Join(g: GroupId)

  function Next(s: System, step: Step): System {
    match step
    case OpenGroup(g, limit, parent) =>
      if g in s.groups || limit == 0 then s else s.(groups := s.groups[g := NewGroup(limit, parent)])
    case Spawn(g, name) =>
      if g !in s.groups || g in s.locked then s else Spawning(s, g, name)
    case Finish(g, id, outcome) =>
      if g !in s.groups || g in s.locked || id !in s.groups[g].tasks then s
      else if !Terminal(outcome) || Subject(outcome) != id then s
      else s.(
           groups := s.groups[g := s.groups[g].(tasks := s.groups[g].tasks - {id})],
           observing := s.observing[id := Observation(g, outcome, None)])
    case Number(id, clockWorks) =>
      if id !in s.observing || s.observing[id].sequence.Some? then s else Numbering(s, id, clockWorks)
    case Sink(id, accepts) =>
      if id !in s.observing || s.observing[id].sequence.None? then s else Sinking(s, id, accepts)
    case Close(g) =>
      if g !in s.groups || g in s.locked then s
      else s.(groups := s.groups[g := s.groups[g].(closed := true)])
    case Join(g) =>
      if !Joinable(s, g) then s else s.(groups := s.groups[g := s.groups[g].(failure := None)])
  }

  /** A join returns once the group is closed and every task, its last event included, is over. */
  predicate Joinable(s: System, g: GroupId) {
    && g in s.groups && g !in s.locked && s.groups[g].closed && s.groups[g].tasks == map[]
    && forall id | id in s.observing :: s.observing[id].group == g ==> s.observing[id].kind.TaskRejected?
  }

  /** Admits a task or not; an admitted one keeps the lock until its spawn event is recorded. */
  function Spawning(s: System, g: GroupId, name: Bytes): System
    requires g in s.groups
  {
    var (group, nextId, admission) := Admit(s.groups[g], s.nextId, name);
    var admitted := s.(nextId := nextId, groups := s.groups[g := group]);
    match admission
    case Refused(answer) =>
      admitted.(answers := s.answers + [(g, answer)])
    case Turned(m) =>
      admitted.(
      admissions := s.admissions + [(g, m)],
      observing := s.observing[m.id := Observation(g, TaskRejected(m), None)])
    case Admitted(m) =>
      admitted.(
      admissions := s.admissions + [(g, m)],
      observing := s.observing[m.id := Observation(g, TaskSpawned(m), None)],
      locked := s.locked[g := m.id])
  }

  /** Gives an event its sequence number, or gives the observation up. */
  function Numbering(s: System, id: TaskId, clockWorks: bool): System
    requires id in s.observing
  {
    var o := s.observing[id];
    var (sequence, next) := Allocation(s.recorder.next);
    if !clockWorks then Abandoned(s, id, ClockFailed)
    else if sequence.Err? then
      Abandoned(s.(recorder := s.recorder.(failure := Latch(s.recorder.failure, SequenceExhausted))), id,
                TraceFailed(SequenceExhausted))
    else s.(recorder := s.recorder.(next := next), observing := s.observing[id := o.(sequence := Some(sequence.value))])
  }

  /** An observation that failed: a spawn is undone, a rejection reports it, a task's end latches it. */
  function Abandoned(s: System, id: TaskId, cause: GroupError): System
    requires id in s.observing
  {
    var o := s.observing[id];
    var over := s.(observing := s.observing - {id});
    if o.group !in s.groups then over
    else if o.kind.TaskSpawned? then
      over.(
      locked := s.locked - {o.group},
      groups := s.groups[o.group := s.groups[o.group].(tasks := s.groups[o.group].tasks - {id})],
      answers := s.answers + [(o.group, NotObserved(id, cause))])
    else if o.kind.TaskRejected? then over.(answers := s.answers + [(o.group, NotObserved(id, cause))])
    else over.(groups := s.groups[o.group := s.groups[o.group].(failure := Latch(s.groups[o.group].failure, cause))])
  }

  function Sinking(s: System, id: TaskId, accepts: bool): System
    requires id in s.observing && s.observing[id].sequence.Some?
  {
    var o := s.observing[id];
    if !accepts then
      Abandoned(s.(recorder := s.recorder.(failure := Latch(s.recorder.failure, SinkRejected))), id,
                TraceFailed(SinkRejected))
    else
      var logged := s.(
                    observing := s.observing - {id},
                    recorder := s.recorder.(log := s.recorder.log + [Event(o.sequence.value, o.kind)]));
      if o.kind.TaskSpawned?
      then logged.(locked := s.locked - {o.group}, answers := s.answers + [(o.group, Spawned(id))])
      else if o.kind.TaskRejected? then logged.(answers := s.answers + [(o.group, Closed(o.kind.metadata))])
        else logged
  }

  function After(steps: seq<Step>): System {
    if steps == [] then INITIAL else Next(After(steps[..|steps| - 1]), steps[|steps| - 1])
  }
}
