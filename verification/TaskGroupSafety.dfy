/** What holds of every task group under every interleaving of spawns, completions, closes and joins. */
module TaskGroupSafety {
  import opened Base
  import opened RuntimeIds
  import opened TaskGroups

  type Log = seq<Event<EventKind>>

  // ---------------------------------------------------------------- the trace, task by task

  /** The events about one task, in the order the sink received them. */
  function Story(log: Log, id: TaskId): Log {
    if log == [] then [] else
    var last := log[|log| - 1];
    Story(log[..|log| - 1], id) + (if Subject(last.kind) == id then [last] else [])
  }

  lemma StoryStep(log: Log, e: Event<EventKind>, id: TaskId)
    ensures Story(log + [e], id) == Story(log, id) + (if Subject(e.kind) == id then [e] else [])
  {
    assert (log + [e])[..|log|] == log;
  }

  predicate Begun(story: Log) {
    |story| == 1 && story[0].kind.TaskSpawned?
  }

  /** All that can ever be told about a task: nothing, a rejection, a spawn, or a spawn and then one end. */
  predicate Told(story: Log) {
    || story == []
    || Begun(story)
    || (|story| == 1 && story[0].kind.TaskRejected?)
    || (|story| == 2 && story[0].kind.TaskSpawned? && Terminal(story[1].kind) && story[0].sequence < story[1].sequence)
  }

  predicate LiveIn(s: System, g: GroupId, id: TaskId) {
    g in s.groups && id in s.groups[g].tasks
  }

  /** An observation under way fits what has been told about its task so far. */
  predicate Fitting(s: System, id: TaskId, o: Observation) {
    var story := Story(s.recorder.log, id);
    && Subject(o.kind) == id && Issued(s.nextId, id) && o.group in s.groups
    && (o.sequence.Some? ==> Issued(s.recorder.next, o.sequence.value))
    && (if Terminal(o.kind) then Begun(story)
                                 && (o.sequence.Some? ==> story[0].sequence < o.sequence.value) else story == [])
    && (o.kind.TaskSpawned? <==> o.group in s.locked && s.locked[o.group] == id)
  }

  predicate Observations(s: System) {
    forall id | id in s.observing :: Fitting(s, id, s.observing[id])
  }

  /** A live task is running after its spawn was told, or its spawn is being told right now. */
  ghost predicate Tasks(s: System) {
    && (forall g, id | LiveIn(s, g, id) :: Issued(s.nextId, id))
    && (forall g, id | LiveIn(s, g, id) && id !in s.observing :: Begun(Story(s.recorder.log, id)))
    && (forall g, id | LiveIn(s, g, id) && id in s.observing ::
          s.observing[id].kind.TaskSpawned? && s.observing[id].group == g)
    && (forall g, g', id | LiveIn(s, g, id) && LiveIn(s, g', id) :: g == g')
    && (forall g | g in s.locked :: LiveIn(s, g, s.locked[g]) && s.locked[g] in s.observing)
  }

  ghost predicate Stories(s: System) {
    && (forall id: TaskId :: Told(Story(s.recorder.log, id)))
    && (forall id: TaskId | !Issued(s.nextId, id) :: Story(s.recorder.log, id) == [])
    && (forall id: TaskId, i | 0 <= i < |Story(s.recorder.log, id)| ::
          Issued(s.recorder.next, Story(s.recorder.log, id)[i].sequence))
  }

  ghost predicate TraceInv(s: System) {
    s.nextId <= U64_MAX && s.recorder.next <= U64_MAX && Observations(s) && Tasks(s) && Stories(s)
  }

  lemma TraceInitially()
    ensures TraceInv(INITIAL)
  {
  }

  lemma FinishKeepsTrace(s: System, g: GroupId, id: TaskId, outcome: EventKind)
    requires TraceInv(s)
    ensures TraceInv(Next(s, Finish(g, id, outcome)))
  {
    hide Story, Told;
    var next := Next(s, Finish(g, id, outcome));
    forall g', id' | LiveIn(next, g', id') ensures LiveIn(s, g', id') {}
    if next != s {
      assert LiveIn(s, g, id);
      forall g', id' | LiveIn(next, g', id') ensures id' != id {}
      forall g' | g' in next.locked ensures LiveIn(next, g', next.locked[g']) { assert LiveIn(s, g', s.locked[g']); }
      forall id' | id' in next.observing ensures Fitting(next, id', next.observing[id']) {
        if id' != id { assert Fitting(s, id', s.observing[id']); }
      }
    }
  }

  /** Nothing about live tasks, running observations or the log differs. */
  ghost predicate SameLive(s: System, next: System) {
    && next.recorder.log == s.recorder.log && next.recorder.next == s.recorder.next
    && next.locked == s.locked && next.observing == s.observing
    && next.nextId <= U64_MAX && (forall id: TaskId | Issued(s.nextId, id) :: Issued(next.nextId, id))
    && s.groups.Keys <= next.groups.Keys
    && (forall g, id :: LiveIn(next, g, id) <==> LiveIn(s, g, id))
  }

  lemma SameLiveKeepsTrace(s: System, next: System)
    requires TraceInv(s) && SameLive(s, next)
    ensures TraceInv(next)
  {
    hide Story, Told, LiveIn;
    forall id | id in next.observing ensures Fitting(next, id, next.observing[id]) {
      assert Fitting(s, id, s.observing[id]);
    }
    assert forall id: TaskId | !Issued(next.nextId, id) :: !Issued(s.nextId, id);
  }

  lemma StatusKeepsTrace(s: System, step: Step)
    requires TraceInv(s) && (step.OpenGroup? || step.Close? || step.Join?)
    ensures TraceInv(Next(s, step))
  {
    hide Observations, Tasks, Stories;
    SameLiveKeepsTrace(s, Next(s, step));
  }

  lemma AbandonTasks(s: System, id: TaskId, cause: GroupError)
    requires TraceInv(s) && id in s.observing
    ensures Tasks(Abandoned(s, id, cause))
  {
    hide Story, Told, Stories;
    var next := Abandoned(s, id, cause);
    assert Fitting(s, id, s.observing[id]);
    forall g', id' | LiveIn(next, g', id') ensures LiveIn(s, g', id') {}
    forall g', id' | LiveIn(next, g', id') ensures id' != id {}
    forall g' | g' in next.locked ensures LiveIn(next, g', next.locked[g']) && next.locked[g'] in next.observing {
      assert LiveIn(s, g', s.locked[g']);
      assert Fitting(s, s.locked[g'], s.observing[s.locked[g']]);
    }
  }

  /** Giving an observation up loses nothing that was told. */
  lemma AbandonKeepsTrace(s: System, id: TaskId, cause: GroupError)
    requires TraceInv(s) && id in s.observing
    ensures TraceInv(Abandoned(s, id, cause))
  {
    hide Story, Told, Tasks;
    AbandonTasks(s, id, cause);
    var next := Abandoned(s, id, cause);
    assert Fitting(s, id, s.observing[id]);
    forall id' | id' in next.observing ensures Fitting(next, id', next.observing[id']) {
      assert Fitting(s, id', s.observing[id']);
    }
  }

  lemma LatchKeepsTrace(s: System, failure: Option<RecordError>)
    requires TraceInv(s)
    ensures TraceInv(s.(recorder := s.recorder.(failure := failure)))
  {
    hide Observations, Tasks, Stories;
    SameLiveKeepsTrace(s, s.(recorder := s.recorder.(failure := failure)));
  }

  lemma NumberedKeepsTrace(s: System, id: TaskId)
    requires TraceInv(s) && id in s.observing && s.observing[id].sequence.None? && Allocation(s.recorder.next).0.Ok?
    ensures TraceInv(Numbering(s, id, true))
  {
    hide Story, Told;
    var next := Numbering(s, id, true);
    AllocationIsFresh(s.recorder.next);
    forall g, id' | LiveIn(next, g, id') ensures LiveIn(s, g, id') {}
    forall g | g in next.locked ensures LiveIn(next, g, next.locked[g]) { assert LiveIn(s, g, s.locked[g]); }
    forall id' | id' in next.observing ensures Fitting(next, id', next.observing[id']) {
      assert Fitting(s, id', s.observing[id']);
    }
  }

  lemma NumberKeepsTrace(s: System, id: TaskId, clockWorks: bool)
    requires TraceInv(s)
    ensures TraceInv(Next(s, Number(id, clockWorks)))
  {
    hide TraceInv, Abandoned;
    if id in s.observing && s.observing[id].sequence.None? {
      LatchKeepsTrace(s, Latch(s.recorder.failure, SequenceExhausted));
      if !clockWorks {
        AbandonKeepsTrace(s, id, ClockFailed);
      } else if Allocation(s.recorder.next).0.Ok? {
        NumberedKeepsTrace(s, id);
      } else {
        var latched := s.recorder.(failure := Latch(s.recorder.failure, SequenceExhausted));
        AbandonKeepsTrace(s.(recorder := latched), id, TraceFailed(SequenceExhausted));
      }
    }
  }

  lemma AcceptedStories(s: System, id: TaskId, id': TaskId)
    requires TraceInv(s) && id in s.observing && s.observing[id].sequence.Some?
    ensures var o := s.observing[id];
            var e := Event(o.sequence.value, o.kind);
            var story := Story(s.recorder.log + [e], id');
            && story == Story(s.recorder.log, id') + (if id' == id then [e] else [])
            && Told(story)
            && (forall i | 0 <= i < |story| :: Issued(s.recorder.next, story[i].sequence))
            && (id' == id && o.kind.TaskSpawned? ==> Begun(story))
  {
    hide Story;
    var o := s.observing[id];
    assert Fitting(s, id, o);
    StoryStep(s.recorder.log, Event(o.sequence.value, o.kind), id');
    assert Told(Story(s.recorder.log, id'));
  }

  lemma AcceptedTasks(s: System, id: TaskId)
    requires TraceInv(s) && id in s.observing && s.observing[id].sequence.Some?
    ensures Tasks(Sinking(s, id, true))
  {
    hide Story, Told, Stories;
    var next := Sinking(s, id, true);
    assert Fitting(s, id, s.observing[id]);
    forall id': TaskId
      ensures id' != id ==> Story(next.recorder.log, id') == Story(s.recorder.log, id')
      ensures id' == id && s.observing[id].kind.TaskSpawned? ==> Begun(Story(next.recorder.log, id'))
    {
      AcceptedStories(s, id, id');
    }
    forall g, id' | LiveIn(next, g, id') ensures LiveIn(s, g, id') {}
    forall g | g in next.locked ensures LiveIn(next, g, next.locked[g]) && next.locked[g] in next.observing {
      assert LiveIn(s, g, s.locked[g]);
      assert Fitting(s, s.locked[g], s.observing[s.locked[g]]);
    }
  }

  lemma AcceptedKeepsTrace(s: System, id: TaskId)
    requires TraceInv(s) && id in s.observing && s.observing[id].sequence.Some?
    ensures TraceInv(Sinking(s, id, true))
  {
    hide Story, Told, Tasks;
    AcceptedTasks(s, id);
    var next := Sinking(s, id, true);
    assert Fitting(s, id, s.observing[id]);
    forall id': TaskId
      ensures Told(Story(next.recorder.log, id'))
      ensures id' != id ==> Story(next.recorder.log, id') == Story(s.recorder.log, id')
      ensures forall i | 0 <= i < |Story(next.recorder.log, id')| ::
                Issued(s.recorder.next, Story(next.recorder.log, id')[i].sequence)
    {
      AcceptedStories(s, id, id');
    }
    forall id' | id' in next.observing ensures Fitting(next, id', next.observing[id']) {
      assert Fitting(s, id', s.observing[id']);
    }
  }

  lemma SinkKeepsTrace(s: System, id: TaskId, accepts: bool)
    requires TraceInv(s)
    ensures TraceInv(Next(s, Sink(id, accepts)))
  {
    hide TraceInv, Abandoned;
    if id in s.observing && s.observing[id].sequence.Some? {
      LatchKeepsTrace(s, Latch(s.recorder.failure, SinkRejected));
      if accepts {
        AcceptedKeepsTrace(s, id);
      } else {
        AbandonKeepsTrace(s.(recorder := s.recorder.(failure := Latch(s.recorder.failure, SinkRejected))), id,
                          TraceFailed(SinkRejected));
      }
    }
  }

  /** A spawn that ends without a live task leaves the live tasks alone, whatever it used up. */
  lemma RefusedKeepsTrace(s: System, g: GroupId, name: Bytes)
    requires TraceInv(s) && g in s.groups && g !in s.locked
    requires Admit(s.groups[g], s.nextId, name).2.Refused?
    ensures TraceInv(Spawning(s, g, name))
  {
    hide Observations, Tasks, Stories;
    AllocationIsFresh(s.nextId);
    SameLiveKeepsTrace(s, Spawning(s, g, name));
  }

  lemma TurnedKeepsTrace(s: System, g: GroupId, name: Bytes)
    requires TraceInv(s) && g in s.groups && g !in s.locked && Admit(s.groups[g], s.nextId, name).2.Turned?
    ensures TraceInv(Spawning(s, g, name))
  {
    hide Story, Told;
    AllocationIsFresh(s.nextId);
    var next := Spawning(s, g, name);
    forall g', id | LiveIn(next, g', id) ensures LiveIn(s, g', id) {}
    forall g' | g' in next.locked ensures LiveIn(next, g', next.locked[g']) { assert LiveIn(s, g', s.locked[g']); }
    forall id | id in next.observing ensures Fitting(next, id, next.observing[id]) {
      if id in s.observing { assert Fitting(s, id, s.observing[id]); }
    }
  }

  lemma AdmittedTasks(s: System, g: GroupId, name: Bytes)
    requires TraceInv(s) && g in s.groups && g !in s.locked && Admit(s.groups[g], s.nextId, name).2.Admitted?
    ensures Tasks(Spawning(s, g, name))
  {
    hide Story, Told, Fitting, Stories;
    AllocationIsFresh(s.nextId);
    var next := Spawning(s, g, name);
    var id := Admit(s.groups[g], s.nextId, name).2.metadata.id;
    assert LiveIn(next, g, id);
    forall g', id' | LiveIn(next, g', id') ensures LiveIn(s, g', id') || (g' == g && id' == id) {}
    forall g' | g' in next.locked ensures LiveIn(next, g', next.locked[g']) && next.locked[g'] in next.observing {
      if g' in s.locked { assert LiveIn(s, g', s.locked[g']); }
    }
  }

  lemma AdmittedKeepsTrace(s: System, g: GroupId, name: Bytes)
    requires TraceInv(s) && g in s.groups && g !in s.locked && Admit(s.groups[g], s.nextId, name).2.Admitted?
    ensures TraceInv(Spawning(s, g, name))
  {
    hide Story, Told, Tasks;
    AllocationIsFresh(s.nextId);
    AdmittedTasks(s, g, name);
    var next := Spawning(s, g, name);
    forall id | id in next.observing ensures Fitting(next, id, next.observing[id]) {
      if id in s.observing { assert Fitting(s, id, s.observing[id]); }
    }
  }

  lemma SpawnKeepsTrace(s: System, g: GroupId, name: Bytes)
    requires TraceInv(s)
    ensures TraceInv(Next(s, Spawn(g, name)))
  {
    hide TraceInv, Spawning, Admit;
    if g in s.groups && g !in s.locked {
      var a := Admit(s.groups[g], s.nextId, name).2;
      match a
      case Refused(_) => RefusedKeepsTrace(s, g, name);
      case Turned(_) => TurnedKeepsTrace(s, g, name);
      case Admitted(_) => AdmittedKeepsTrace(s, g, name);
    }
  }

  lemma StepKeepsTrace(s: System, step: Step)
    requires TraceInv(s)
    ensures TraceInv(Next(s, step))
  {
    hide TraceInv, Next;
    match step
    case Spawn(g, name) => SpawnKeepsTrace(s, g, name);
    case Finish(g, id, outcome) => FinishKeepsTrace(s, g, id, outcome);
    case Number(id, clockWorks) => NumberKeepsTrace(s, id, clockWorks);
    case Sink(id, accepts) => SinkKeepsTrace(s, id, accepts);
    case _ => StatusKeepsTrace(s, step);
  }

  lemma {:induction false} RunsKeepTrace(steps: seq<Step>)
    ensures TraceInv(After(steps))
  {
    hide TraceInv, Next;
    if steps == [] {
      TraceInitially();
    } else {
      RunsKeepTrace(steps[..|steps| - 1]);
      StepKeepsTrace(After(steps[..|steps| - 1]), steps[|steps| - 1]);
    }
  }

  /**
   Under every interleaving, a task's events are nothing, one rejection, one spawn, or one spawn
   followed by exactly one end with a later sequence number.
   */
  lemma StoriesAreTold(steps: seq<Step>, id: TaskId)
    ensures Told(Story(After(steps).recorder.log, id))
  {
    hide Story, Told, Observations, Tasks;
    RunsKeepTrace(steps);
  }

  lemma FinishedIsUnobserved(s: System, g: GroupId, id: TaskId)
    requires TraceInv(s) && LiveIn(s, g, id) && g !in s.locked
    ensures id !in s.observing
  {
    hide Story, Told, Stories;
    assert id in s.observing ==> Fitting(s, id, s.observing[id]);
  }

  lemma AdmittedIsFresh(s: System, g: GroupId, name: Bytes)
    requires TraceInv(s) && g in s.groups
    ensures var a := Admit(s.groups[g], s.nextId, name).2;
            !a.Refused? ==> a.metadata.id !in s.observing && !Issued(s.nextId, a.metadata.id)
  {
    hide Story, Told, Stories, Tasks;
    AllocationIsFresh(s.nextId);
    forall id | id in s.observing ensures Issued(s.nextId, id) { assert Fitting(s, id, s.observing[id]); }
  }
}
