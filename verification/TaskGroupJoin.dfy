/** What joining a task group promises: nothing it started is still unaccounted for. */
module TaskGroupJoin {
  import opened Base
  import opened RuntimeIds
  import opened TaskGroups
  import opened TaskGroupSafety
  import opened TaskGroupBounds

  /** Task `id` was handed out by group `g`. */
  predicate Owns(s: System, g: GroupId, id: TaskId) {
    exists i :: 0 <= i < |s.admissions| && s.admissions[i].0 == g && s.admissions[i].1.id == id
  }

  /** Live tasks and observations belong to the group that handed their task out. */
  ghost predicate OwnerInv(s: System) {
    && (forall id | id in s.observing :: Owns(s, s.observing[id].group, id))
    && (forall g, id | LiveIn(s, g, id) :: Owns(s, g, id))
  }

  lemma OneOwner(s: System, g: GroupId, g': GroupId, id: TaskId)
    requires AdmissionInv(s) && Owns(s, g, id) && Owns(s, g', id)
    ensures g == g'
  {
    var i :| 0 <= i < |s.admissions| && s.admissions[i].0 == g && s.admissions[i].1.id == id;
    var j :| 0 <= j < |s.admissions| && s.admissions[j].0 == g' && s.admissions[j].1.id == id;
    assert !(i < j) && !(j < i);
  }

  lemma OwnersStay(s: System, next: System)
    requires s.admissions <= next.admissions
    ensures forall g, id | Owns(s, g, id) :: Owns(next, g, id)
  {
    forall g, id | Owns(s, g, id) ensures Owns(next, g, id) {
      var i :| 0 <= i < |s.admissions| && s.admissions[i].0 == g && s.admissions[i].1.id == id;
      assert next.admissions[i] == s.admissions[i];
    }
  }

  lemma SpawnKeepsOwners(s: System, g: GroupId, name: Bytes)
    requires OwnerInv(s) && g in s.groups && g !in s.locked
    ensures OwnerInv(Spawning(s, g, name)) && s.admissions <= Spawning(s, g, name).admissions
  {
    hide Owns, Latch;
    var next := Spawning(s, g, name);
    OwnersStay(s, next);
    var a := Admit(s.groups[g], s.nextId, name).2;
    if !a.Refused? { NewOwner(s, next, g, a.metadata); }
    forall g', id | LiveIn(next, g', id) ensures Owns(next, g', id) {
      assert LiveIn(s, g', id) || (g' == g && !a.Refused? && id == a.metadata.id);
    }
  }

  lemma NewOwner(s: System, next: System, g: GroupId, m: Metadata)
    requires next.admissions == s.admissions + [(g, m)]
    ensures Owns(next, g, m.id)
  {
    assert next.admissions[|s.admissions|] == (g, m);
  }

  /** Giving an observation up brings no task to life, and keeps every other one. */
  ghost predicate LosesOnly(s: System, id: TaskId, next: System) {
    forall g, id' :: (LiveIn(next, g, id') ==> LiveIn(s, g, id'))
                     && (LiveIn(s, g, id') && id' != id ==> LiveIn(next, g, id'))
  }

  lemma AbandonLosesOnly()
    ensures forall s: System, id, cause | id in s.observing :: LosesOnly(s, id, Abandoned(s, id, cause))
  {
    hide Latch;
    forall s: System, id, cause | id in s.observing ensures LosesOnly(s, id, Abandoned(s, id, cause)) {}
  }

  lemma StepKeepsOwners(s: System, step: Step)
    requires OwnerInv(s)
    ensures OwnerInv(Next(s, step)) && s.admissions <= Next(s, step).admissions
  {
    hide Owns, Spawning, Abandoned, Latch, Allocation;
    AbandonLosesOnly();
    AbandonGivesUp();
    var next := Next(s, step);
    if step.Spawn? {
      if next != s { SpawnKeepsOwners(s, step.g, step.name); }
    } else {
      OwnersStay(s, next);
      forall g, id | LiveIn(next, g, id) ensures LiveIn(s, g, id) {}
    }
  }

  // ---------------------------------------------------------------- nothing is unaccounted for

  predicate FailureLatched(s: System, g: GroupId) {
    g in s.groups && s.groups[g].failure.Some?
  }

  /**
   A task whose spawn was told and whose end was not is live, is about to tell its end, or its group has
   latched a failure.
   */
  predicate Accounted(s: System, g: GroupId, id: TaskId) {
    Begun(Story(s.recorder.log, id)) ==>
      LiveIn(s, g, id) || (id in s.observing && Terminal(s.observing[id].kind)) || FailureLatched(s, g)
  }

  ghost predicate JoinInv(s: System, g: GroupId) {
    forall id | Owns(s, g, id) :: Accounted(s, g, id)
  }

  lemma SinkKeepsAccount(s: System, id: TaskId, g: GroupId, id': TaskId)
    requires TraceInv(s) && AdmissionInv(s) && OwnerInv(s) && id in s.observing && s.observing[id].sequence.Some?
    requires Owns(s, g, id') && Accounted(s, g, id')
    ensures Accounted(Sinking(s, id, true), g, id')
  {
    hide Story, Told, Owns, Stories;
    var o := s.observing[id];
    AcceptedStories(s, id, id');
    assert Fitting(s, id, o);
    if id' == id {
      OneOwner(s, g, o.group, id);
      if o.kind.TaskSpawned? { assert LiveIn(s, o.group, s.locked[o.group]); }
    }
  }

  lemma AbandonKeepsAccount(s: System, recorder: Recorder<EventKind>, id: TaskId, cause: GroupError, g: GroupId,
                            id': TaskId)
    requires TraceInv(s) && AdmissionInv(s) && OwnerInv(s) && id in s.observing && recorder.log == s.recorder.log
    requires Owns(s, g, id') && Accounted(s, g, id')
    ensures Accounted(Abandoned(s.(recorder := recorder), id, cause), g, id')
  {
    hide Story, Told, Owns, Stories, Tasks;
    var o := s.observing[id];
    assert Fitting(s, id, o);
    if id' == id { OneOwner(s, g, o.group, id); }
  }

  lemma AdmitKeepsTasks(g: Group, nextId: nat, name: Bytes)
    ensures var after := Admit(g, nextId, name).0;
            g.tasks.Keys <= after.tasks.Keys && (g.failure.Some? ==> after.failure.Some?)
  {
  }

  /** A spawn loses no live task, no observation and no latched failure, and records nothing by itself. */
  lemma SpawnOnlyAdds(s: System, g0: GroupId, name: Bytes, g: GroupId, id: TaskId)
    requires TraceInv(s) && g0 in s.groups && g0 !in s.locked
    ensures var next := Spawning(s, g0, name);
            && next.recorder.log == s.recorder.log
            && (LiveIn(s, g, id) ==> LiveIn(next, g, id)) && (FailureLatched(s, g) ==> FailureLatched(next, g))
            && (id in s.observing ==> id in next.observing && next.observing[id] == s.observing[id])
  {
    hide TraceInv, Admit, Latch, Allocation;
    AdmitKeepsTasks(s.groups[g0], s.nextId, name);
    AdmittedIsFresh(s, g0, name);
  }

  lemma SpawnKeepsAccount(s: System, g0: GroupId, name: Bytes, g: GroupId, id: TaskId)
    requires TraceInv(s) && g0 in s.groups && g0 !in s.locked
    requires Owns(Spawning(s, g0, name), g, id) && (Owns(s, g, id) ==> Accounted(s, g, id))
    ensures Accounted(Spawning(s, g0, name), g, id)
  {
    hide Story, Told, Tasks, Observations, Admit, Issued, Spawning, LiveIn, FailureLatched;
    SpawnOnlyAdds(s, g0, name, g, id);
    SpawnHandsOut(s, g0, name);
    AdmittedIsFresh(s, g0, name);
    var next := Spawning(s, g0, name);
    var i :| 0 <= i < |next.admissions| && next.admissions[i].0 == g && next.admissions[i].1.id == id;
    if i < |s.admissions| { assert s.admissions[i] == next.admissions[i]; }
  }

  lemma StatusKeepsAccount(s: System, step: Step, g: GroupId, id: TaskId)
    requires (step.OpenGroup? || step.Close? || step.Join? || step.Finish?) && step != Join(g)
    requires Accounted(s, g, id)
    ensures Accounted(Next(s, step), g, id)
  {
    hide Story;
  }

  lemma NumberKeepsAccount(s: System, id: TaskId, clockWorks: bool, g: GroupId, id': TaskId)
    requires TraceInv(s) && AdmissionInv(s) && OwnerInv(s) && Owns(s, g, id') && Accounted(s, g, id')
    ensures Accounted(Next(s, Number(id, clockWorks)), g, id')
  {
    hide TraceInv, AdmissionInv, OwnerInv, Owns, Story, Abandoned;
    if id in s.observing {
      assert s.(recorder := s.recorder) == s;
      AbandonKeepsAccount(s, s.recorder, id, ClockFailed, g, id');
      var latched := s.recorder.(failure := Latch(s.recorder.failure, SequenceExhausted));
      AbandonKeepsAccount(s, latched, id, TraceFailed(SequenceExhausted), g, id');
    }
  }

  lemma StepKeepsJoin(s: System, step: Step, g: GroupId)
    requires TraceInv(s) && AdmissionInv(s) && OwnerInv(s) && JoinInv(s, g) && step != Join(g)
    ensures JoinInv(Next(s, step), g)
  {
    hide TraceInv, AdmissionInv, OwnerInv, Accounted, Spawning, Numbering, Sinking;
    var next := Next(s, step);
    forall id | Owns(next, g, id) ensures Accounted(next, g, id) {
      if next != s {
        match step
        case Spawn(g0, name) => SpawnKeepsAccount(s, g0, name, g, id);
        case Number(id0, clockWorks) =>
          SameOwners(s, step, g, id);
          NumberKeepsAccount(s, id0, clockWorks, g, id);
        case Sink(id0, accepts) =>
          SameOwners(s, step, g, id);
          if accepts { SinkKeepsAccount(s, id0, g, id); } else { RejectKeepsAccount(s, id0, g, id); }
        case _ =>
          SameOwners(s, step, g, id);
          StatusKeepsAccount(s, step, g, id);
      }
    }
  }

  lemma SameOwners(s: System, step: Step, g: GroupId, id: TaskId)
    requires !step.Spawn? && Owns(Next(s, step), g, id)
    ensures Owns(s, g, id)
  {
    hide Abandoned, Latch;
    AbandonGivesUp();
    assert Next(s, step).admissions == s.admissions;
  }

  lemma RejectKeepsAccount(s: System, id: TaskId, g: GroupId, id': TaskId)
    requires TraceInv(s) && AdmissionInv(s) && OwnerInv(s) && id in s.observing && s.observing[id].sequence.Some?
    requires Owns(s, g, id') && Accounted(s, g, id')
    ensures Accounted(Sinking(s, id, false), g, id')
  {
    hide TraceInv, AdmissionInv, OwnerInv, Owns, Accounted, Abandoned;
    AbandonKeepsAccount(s, s.recorder.(failure := Latch(s.recorder.failure, SinkRejected)), id,
                        TraceFailed(SinkRejected), g, id');
  }

  lemma {:induction false} RunsKeepOwners(steps: seq<Step>)
    ensures OwnerInv(After(steps))
  {
    hide OwnerInv, Next;
    if steps == [] {
      NothingOwned();
    } else {
      RunsKeepOwners(steps[..|steps| - 1]);
      StepKeepsOwners(After(steps[..|steps| - 1]), steps[|steps| - 1]);
    }
  }

  lemma NothingOwned()
    ensures OwnerInv(INITIAL) && forall g :: JoinInv(INITIAL, g)
  {
  }

  lemma {:induction false} RunsKeepJoin(steps: seq<Step>, g: GroupId)
    requires Join(g) !in steps
    ensures JoinInv(After(steps), g)
  {
    hide JoinInv, Next, TraceInv, SequenceInv, LockedOpen, CapacityInv, AdmissionInv, VouchedInv;
    if steps == [] {
      NothingOwned();
    } else {
      var before := steps[..|steps| - 1];
      RunsKeepJoin(before, g);
      RunsStaySound(before);
      RunsKeepOwners(before);
      StepKeepsJoin(After(before), steps[|steps| - 1], g);
    }
  }

  /**
   The first join of a group that returns without a failure finds every task that was told to have begun
   told to have ended.
   */
  lemma JoinAccountsForAll(steps: seq<Step>, g: GroupId, id: TaskId)
    requires Join(g) !in steps && Joinable(After(steps), g) && After(steps).groups[g].failure.None?
    requires Owns(After(steps), g, id) && Story(After(steps).recorder.log, id) != []
    ensures var story := Story(After(steps).recorder.log, id);
            || (|story| == 1 && story[0].kind.TaskRejected?)
            || (|story| == 2 && story[0].kind.TaskSpawned? && Terminal(story[1].kind))
  {
    hide After, Story;
    RunsKeepJoin(steps, g);
    RunsKeepOwners(steps);
    StoriesAreTold(steps, id);
    RunsStaySound(steps);
    var s := After(steps);
    assert Accounted(s, g, id);
    if id in s.observing { OneOwner(s, g, s.observing[id].group, id); }
  }
}
