/** Sequence numbers, identifiers, ordinals and capacity of task groups, under every interleaving. */
module TaskGroupBounds {
  import opened Base
  import opened RuntimeIds
  import opened TaskGroups
  import opened TaskGroupSafety

  // ---------------------------------------------------------------- sequence numbers

  function SequenceOf(s: System, id: TaskId): Option<nat> {
    if id in s.observing then s.observing[id].sequence else None
  }

  /** No two events, recorded or on their way to the sink, carry the same sequence number. */
  ghost predicate SequenceInv(s: System) {
    && Sequenced(s.recorder)
    && (forall id | SequenceOf(s, id).Some? :: Issued(s.recorder.next, SequenceOf(s, id).value))
    && (forall id, i | SequenceOf(s, id).Some?
                       && 0 <= i < |s.recorder.log| :: s.recorder.log[i].sequence != SequenceOf(s, id).value)
    && (forall id, id' | SequenceOf(s, id).Some? && SequenceOf(s, id) == SequenceOf(s, id') :: id == id')
  }

  ghost predicate SameSequences(s: System, next: System, except: set<TaskId>) {
    forall id | id !in except :: SequenceOf(next, id) == SequenceOf(s, id) || SequenceOf(next, id) == None
  }

  lemma QuietKeepsSequence(s: System, next: System)
    requires SequenceInv(s) && SameSequences(s, next, {})
    requires next.recorder.next == s.recorder.next && next.recorder.log == s.recorder.log
    ensures SequenceInv(next)
  {
    hide SequenceOf;
  }

  lemma TakenKeepsSequence(s: System, next: System, taker: TaskId)
    requires SequenceInv(s) && SameSequences(s, next, {taker})
    requires Allocation(s.recorder.next) == (Ok(s.recorder.next), next.recorder.next)
             && next.recorder.log == s.recorder.log
    requires SequenceOf(next, taker) == Some(s.recorder.next)
    ensures SequenceInv(next)
  {
    hide SequenceOf;
    AllocationIsFresh(s.recorder.next);
  }

  lemma ToldKeepsSequence(s: System, next: System, teller: TaskId)
    requires SequenceInv(s) && SameSequences(s, next, {teller})
    requires SequenceOf(s, teller).Some? && SequenceOf(next, teller) == None && next.recorder.next == s.recorder.next
    requires |next.recorder.log| == |s.recorder.log| + 1 && next.recorder.log[..|s.recorder.log|] == s.recorder.log
    requires next.recorder.log[|s.recorder.log|].sequence == SequenceOf(s, teller).value
    ensures SequenceInv(next)
  {
    hide SequenceOf;
  }

  lemma SpawnKeepsSequence(s: System, g: GroupId, name: Bytes)
    requires SequenceInv(s) && TraceInv(s) && g in s.groups && g !in s.locked
    ensures SequenceInv(Spawning(s, g, name))
  {
    hide TraceInv, Admit, SequenceInv;
    AdmittedIsFresh(s, g, name);
    QuietKeepsSequence(s, Spawning(s, g, name));
  }

  /** Giving an observation up takes it away and frees its group at most; it opens and closes nothing. */
  predicate GivenUp(s: System, id: TaskId, next: System) {
    && next.observing == s.observing - {id} && next.recorder == s.recorder
    && next.admissions == s.admissions && next.nextId == s.nextId
    && next.locked.Keys <= s.locked.Keys && next.groups.Keys == s.groups.Keys
    && forall g | g in s.groups :: next.groups[g].closed == s.groups[g].closed
  }

  lemma AbandonGivesUp()
    ensures forall s: System, id, cause | id in s.observing :: GivenUp(s, id, Abandoned(s, id, cause))
  {
    forall s: System, id, cause | id in s.observing ensures GivenUp(s, id, Abandoned(s, id, cause)) {}
  }

  lemma StepKeepsSequence(s: System, step: Step)
    requires SequenceInv(s) && TraceInv(s)
    ensures SequenceInv(Next(s, step))
  {
    hide TraceInv, Spawning, SequenceInv, Abandoned, Latch;
    AbandonGivesUp();
    var next := Next(s, step);
    if next != s {
      match step
      case Spawn(g, name) =>
        SpawnKeepsSequence(s, g, name);
      case Finish(g, id, _) =>
        FinishedIsUnobserved(s, g, id);
        QuietKeepsSequence(s, next);
      case Number(id, clockWorks) =>
        if clockWorks && Allocation(s.recorder.next).0.Ok? {
          TakenKeepsSequence(s, next, id);
        } else {
          QuietKeepsSequence(s, next);
        }
      case Sink(id, accepts) =>
        if accepts { ToldKeepsSequence(s, next, id); } else { QuietKeepsSequence(s, next); }
      case _ =>
        QuietKeepsSequence(s, next);
    }
  }

  // ---------------------------------------------------------------- one group at a time

  function AnswersOf(answers: seq<(GroupId, Answer)>, g: GroupId): seq<Answer> {
    if answers == [] then [] else
    var last := answers[|answers| - 1];
    AnswersOf(answers[..|answers| - 1], g) + (if last.0 == g then [last.1] else [])
  }

  function Rejections(answers: seq<Answer>): nat {
    if answers == [] then 0 else
    Rejections(answers[..|answers| - 1]) + (if answers[|answers| - 1].ResourceLimit? then 1 else 0)
  }

  lemma AnswersStep(answers: seq<(GroupId, Answer)>, a: (GroupId, Answer), g: GroupId)
    ensures AnswersOf(answers + [a], g) == AnswersOf(answers, g) + (if a.0 == g then [a.1] else [])
  {
    assert (answers + [a])[..|answers|] == answers;
  }

  lemma RejectionsStep(answers: seq<Answer>, a: Answer)
    ensures Rejections(answers + [a]) == Rejections(answers) + (if a.ResourceLimit? then 1 else 0)
  {
    assert (answers + [a])[..|answers|] == answers;
  }

  /**
   The capacity law of one group, given all the answers its spawns have had: live tasks are within the
   high-water mark, which is within the limit; every `ResourceLimit` answer is counted; and a counter
   that ran out left the group closed.
   */
  predicate GroupOk(g: Group, answers: seq<Answer>) {
    && |g.tasks| <= g.highWater <= g.limit
    && g.rejectedSpawns == Rejections(answers) <= U64_MAX
    && (g.counterExhausted <==> CounterExhausted in answers)
    && (g.counterExhausted ==> g.closed && g.rejectedSpawns == U64_MAX)
    && g.nextOrdinal <= U64_MAX
  }

  function New(answer: Option<Answer>): seq<Answer> {
    if answer.Some? then [answer.value] else []
  }

  /**
   What one step may do to a group, with the answer it gives to a spawn, if any: counts only grow, a
   closed group stays closed and takes no task, and the rejection counter follows the answers.
   */
  predicate GroupMoves(before: Group, after: Group, answer: Option<Answer>) {
    && after.parent == before.parent && after.limit == before.limit
    && before.nextOrdinal <= after.nextOrdinal <= Max(before.nextOrdinal, U64_MAX)
    && before.highWater <= after.highWater <= Max(before.highWater, before.limit)
    && |after.tasks| <= Max(|before.tasks|, after.highWater)
    && after.rejectedSpawns == before.rejectedSpawns + (if answer.Some? && answer.value.ResourceLimit? then 1 else 0)
    && after.rejectedSpawns <= Max(before.rejectedSpawns, U64_MAX)
    && (before.closed ==> after.closed && after.tasks.Keys <= before.tasks.Keys && after.highWater == before.highWater)
    && (after.counterExhausted <==> before.counterExhausted || answer == Some(CounterExhausted))
    && (answer == Some(CounterExhausted) ==> after.closed && before.rejectedSpawns >= U64_MAX)
    && (before.closed && answer.Some? ==> TurnedAway(answer.value))
  }

  /** An answer that gives no task and blames no limit. */
  predicate TurnedAway(a: Answer) {
    a.Closed? || a.NoIdLeft? || a.NoOrdinalLeft? || a.NotObserved?
  }

  lemma MovesKeepOk(before: Group, after: Group, answer: Option<Answer>, told: seq<Answer>)
    requires GroupOk(before, told) && GroupMoves(before, after, answer)
    ensures GroupOk(after, told + New(answer))
  {
    if answer.Some? { RejectionsStep(told, answer.value); } else { assert told + New(answer) == told; }
  }

  lemma RemovedSize(tasks: map<TaskId, Metadata>, id: TaskId)
    ensures |tasks - {id}| <= |tasks|
    ensures (tasks - {id}).Keys <= tasks.Keys
  {
    var fewer := tasks - {id};
    assert fewer.Keys == tasks.Keys - {id};
    assert |fewer.Keys| == |fewer| && |tasks.Keys| == |tasks|;
    if id in tasks { assert fewer.Keys + {id} == tasks.Keys; } else { assert fewer.Keys == tasks.Keys; }
  }

  /** Group `g` moved and no other, with at most one answer to its spawns. */
  ghost predicate Moves(s: System, next: System, g: GroupId, answer: Option<Answer>) {
    && g in s.groups && g in next.groups && next.groups == s.groups[g := next.groups[g]]
    && GroupMoves(s.groups[g], next.groups[g], answer)
    && next.answers == s.answers + (if answer.Some? then [(g, answer.value)] else [])
  }

  lemma AdmitMoves(g: Group, nextId: nat, name: Bytes)
    ensures var (after, _, a) := Admit(g, nextId, name);
            GroupMoves(g, after, if a.Refused? then Some(a.answer) else None)
  {
  }

  /** Holding a group's lock for a spawn means the group is open. */
  predicate LockedOpen(s: System) {
    forall g | g in s.locked :: g in s.groups && !s.groups[g].closed
  }

  lemma SpawnMoves(s: System, g: GroupId, name: Bytes)
    requires g in s.groups && g !in s.locked
    ensures exists answer :: Moves(s, Spawning(s, g, name), g, answer)
  {
    hide Admit;
    AdmitMoves(s.groups[g], s.nextId, name);
    var next := Spawning(s, g, name);
    var a := Admit(s.groups[g], s.nextId, name).2;
    if |next.answers| > |s.answers| {
      assert Moves(s, next, g, Some(next.answers[|s.answers|].1));
    } else {
      assert Moves(s, next, g, None);
    }
  }

  /** Losing a task, latching a failure or closing moves a group whatever is answered, short of a refusal. */
  lemma ShrinkMoves(before: Group, id: TaskId, closed: bool, failure: Option<GroupError>, answer: Option<Answer>)
    requires answer.Some? ==> answer.value.NotObserved?
    ensures GroupMoves(before, before.(tasks := before.tasks - {id}), answer)
    ensures GroupMoves(before, before.(closed := before.closed || closed, failure := failure), answer)
  {
    RemovedSize(before.tasks, id);
  }

  lemma MovesTo(s: System, next: System, g: GroupId, after: Group, answer: Option<Answer>)
    requires g in s.groups && (next.groups == s.groups[g := after] || (after == s.groups[g] && next.groups == s.groups))
    requires next.answers == s.answers + (if answer.Some? then [(g, answer.value)] else [])
    requires GroupMoves(s.groups[g], after, answer)
    ensures Moves(s, next, g, answer)
  {
    hide GroupMoves;
    assert s.groups[g := s.groups[g]] == s.groups;
  }

  lemma AbandonMoves(s: System, recorder: Recorder<EventKind>, id: TaskId, cause: GroupError)
    requires id in s.observing && s.observing[id].group in s.groups
    ensures exists answer :: Moves(s, Abandoned(s.(recorder := recorder), id, cause), s.observing[id].group, answer)
  {
    hide GroupMoves, Moves, Latch;
    var o := s.observing[id];
    var g := s.groups[o.group];
    var next := Abandoned(s.(recorder := recorder), id, cause);
    var answer := Some(NotObserved(id, cause));
    ShrinkMoves(g, id, false, Latch(g.failure, cause), None);
    ShrinkMoves(g, id, false, g.failure, answer);
    if Terminal(o.kind) {
      MovesTo(s, next, o.group, g.(failure := Latch(g.failure, cause)), None);
    } else if o.kind.TaskSpawned? {
      MovesTo(s, next, o.group, g.(tasks := g.tasks - {id}), answer);
    } else {
      MovesTo(s, next, o.group, g, answer);
    }
  }

  lemma SinkMoves(s: System, id: TaskId)
    requires id in s.observing && s.observing[id].sequence.Some? && s.observing[id].group in s.groups
    requires LockedOpen(s) && (s.observing[id].kind.TaskSpawned? ==> s.observing[id].group in s.locked)
    ensures exists answer :: Moves(s, Sinking(s, id, true), s.observing[id].group, answer)
  {
    hide Moves;
    var o := s.observing[id];
    var next := Sinking(s, id, true);
    var answer := if Terminal(o.kind) then None else Some(next.answers[|s.answers|].1);
    MovesTo(s, next, o.group, s.groups[o.group], answer);
  }

  /** Every step that does anything opens a group or moves exactly one. */
  lemma StepMoves(s: System, step: Step)
    requires TraceInv(s) && LockedOpen(s) && Next(s, step) != s && !step.OpenGroup?
    ensures exists g, answer :: Moves(s, Next(s, step), g, answer)
  {
    hide Moves, GroupMoves, Abandoned, Spawning, Tasks, Stories, Story, Latch;
    var next := Next(s, step);
    if step.Number? || step.Sink? {
      var o := s.observing[step.id];
      assert Fitting(s, step.id, o);
      var error := if step.Number? then SequenceExhausted else SinkRejected;
      var latched := s.recorder.(failure := Latch(s.recorder.failure, error));
      AbandonMoves(s, s.recorder, step.id, ClockFailed);
      AbandonMoves(s, latched, step.id, TraceFailed(error));
      assert s.(recorder := s.recorder) == s;
      if step.Number? {
        ShrinkMoves(s.groups[o.group], 0, false, s.groups[o.group].failure, None);
        if next.groups == s.groups && next.answers == s.answers { MovesTo(s, next, o.group, s.groups[o.group], None); }
      } else {
        SinkMoves(s, step.id);
      }
    } else if step.Spawn? {
      SpawnMoves(s, step.g, step.name);
    } else {
      var g := s.groups[step.g];
      ShrinkMoves(g, if step.Finish? then step.id else 0, step.Close?, if step.Join? then None else g.failure, None);
      MovesTo(s, next, step.g, next.groups[step.g], None);
    }
  }

  // ---------------------------------------------------------------- capacity

  ghost predicate CapacityInv(s: System) {
    && (forall g | g in s.groups :: GroupOk(s.groups[g], AnswersOf(s.answers, g)))
    && (forall g | g !in s.groups :: AnswersOf(s.answers, g) == [])
  }

  lemma MovesKeepCapacity(s: System, next: System, g: GroupId, answer: Option<Answer>)
    requires CapacityInv(s) && Moves(s, next, g, answer)
    ensures CapacityInv(next)
  {
    hide GroupOk, GroupMoves, AnswersOf;
    MovesKeepOk(s.groups[g], next.groups[g], answer, AnswersOf(s.answers, g));
    forall g'
      ensures AnswersOf(next.answers, g')
           == if g' == g then AnswersOf(s.answers, g') + New(answer) else AnswersOf(s.answers, g')
    {
      if answer.Some? { AnswersStep(s.answers, (g, answer.value), g'); } else { assert next.answers == s.answers; }
    }
  }

  lemma StepKeepsCapacity(s: System, step: Step)
    requires TraceInv(s) && LockedOpen(s) && CapacityInv(s)
    ensures CapacityInv(Next(s, step))
  {
    hide TraceInv, Moves, AnswersOf;
    var next := Next(s, step);
    if next != s && !step.OpenGroup? {
      StepMoves(s, step);
      var g, answer :| Moves(s, next, g, answer);
      MovesKeepCapacity(s, next, g, answer);
    }
  }

  lemma SpawnKeepsLocked(s: System, g: GroupId, name: Bytes)
    requires LockedOpen(s) && g in s.groups && g !in s.locked
    ensures LockedOpen(Spawning(s, g, name))
  {
    hide Allocation;
  }

  lemma StepKeepsLocked(s: System, step: Step)
    requires LockedOpen(s)
    ensures LockedOpen(Next(s, step))
  {
    hide Spawning, Abandoned, Latch;
    AbandonGivesUp();
    if step.Spawn? && Next(s, step) != s { SpawnKeepsLocked(s, step.g, step.name); }
  }

  // ---------------------------------------------------------------- identifiers and ordinals

  /** An event that carries metadata carries metadata that was handed out. */
  predicate Vouched(s: System, kind: EventKind) {
    Terminal(kind) || exists i :: 0 <= i < |s.admissions| && s.admissions[i].1 == kind.metadata
  }

  /** Identifiers grow along the admissions of all groups, ordinals along those of one group. */
  ghost predicate AdmissionInv(s: System) {
    && (forall i | 0 <= i < |s.admissions| ::
          && Issued(s.nextId, s.admissions[i].1.id) && s.admissions[i].0 in s.groups
          && s.admissions[i].1.parent == s.groups[s.admissions[i].0].parent
          && s.admissions[i].1.childOrdinal < s.groups[s.admissions[i].0].nextOrdinal)
    && (forall i, j | 0 <= i < j < |s.admissions| :: s.admissions[i].1.id < s.admissions[j].1.id)
    && (forall i, j | 0 <= i < j < |s.admissions| && s.admissions[i].0 == s.admissions[j].0 ::
          s.admissions[i].1.childOrdinal < s.admissions[j].1.childOrdinal)
  }

  ghost predicate VouchedInv(s: System) {
    && (forall id | id in s.observing :: Vouched(s, s.observing[id].kind))
    && (forall i | 0 <= i < |s.recorder.log| :: Vouched(s, s.recorder.log[i].kind))
  }

  lemma MovesKeepAdmissions(s: System, next: System, g: GroupId, answer: Option<Answer>)
    requires AdmissionInv(s) && Moves(s, next, g, answer) && next.admissions == s.admissions && next.nextId == s.nextId
    ensures AdmissionInv(next)
  {
  }

  lemma AdmitIssues(g: Group, nextId: nat, name: Bytes)
    requires nextId <= U64_MAX
    ensures var (after, next, a) := Admit(g, nextId, name);
            && after.parent == g.parent && g.nextOrdinal <= after.nextOrdinal
            && (forall id: nat | Issued(nextId, id) :: Issued(next, id))
            && (!a.Refused? ==>
                  && Issued(next, a.metadata.id) && (forall id: nat | Issued(nextId, id) :: id < a.metadata.id)
                  && a.metadata.parent == g.parent && g.nextOrdinal <= a.metadata.childOrdinal < after.nextOrdinal)
  {
    AllocationIsFresh(nextId);
  }

  /** A spawn hands out at most one piece of metadata, the next in line. */
  lemma SpawnHandsOut(s: System, g: GroupId, name: Bytes)
    requires g in s.groups && g !in s.locked
    ensures var next := Spawning(s, g, name);
            var (after, nextId, a) := Admit(s.groups[g], s.nextId, name);
            && next.nextId == nextId && g in next.groups && next.groups.Keys == s.groups.Keys
            && (forall g' | g' in s.groups && g' != g :: next.groups[g'] == s.groups[g'])
            && next.groups[g].parent == after.parent && next.groups[g].nextOrdinal == after.nextOrdinal
            && next.admissions == if a.Refused? then s.admissions else s.admissions + [(g, a.metadata)]
  {
    hide Admit, Allocation, Latch;
  }

  lemma SpawnKeepsAdmissions(s: System, g: GroupId, name: Bytes)
    requires AdmissionInv(s) && g in s.groups && g !in s.locked && s.nextId <= U64_MAX
    ensures AdmissionInv(Spawning(s, g, name))
  {
    hide Admit, Issued, Spawning;
    AdmitIssues(s.groups[g], s.nextId, name);
    SpawnHandsOut(s, g, name);
  }

  lemma StepKeepsAdmissions(s: System, step: Step)
    requires TraceInv(s) && LockedOpen(s) && AdmissionInv(s)
    ensures AdmissionInv(Next(s, step))
  {
    hide Observations, Tasks, Stories, Moves, AdmissionInv, Spawning;
    var next := Next(s, step);
    if next != s {
      if step.Spawn? {
        SpawnKeepsAdmissions(s, step.g, step.name);
      } else if step.OpenGroup? {
        OpenKeepsAdmissions(s, next);
      } else {
        StepMoves(s, step);
        var g, answer :| Moves(s, next, g, answer);
        MovesKeepAdmissions(s, next, g, answer);
      }
    }
  }

  lemma OpenKeepsAdmissions(s: System, next: System)
    requires AdmissionInv(s) && next.admissions == s.admissions && next.nextId == s.nextId
    requires forall g | g in s.groups :: g in next.groups && next.groups[g] == s.groups[g]
    ensures AdmissionInv(next)
  {
  }

  lemma SpawnKeepsVouched(s: System, g: GroupId, name: Bytes)
    requires VouchedInv(s) && g in s.groups && g !in s.locked
    ensures VouchedInv(Spawning(s, g, name))
  {
    hide Admit;
    var next := Spawning(s, g, name);
    forall kind | Vouched(s, kind) ensures Vouched(next, kind) {
      if !Terminal(kind) {
        var i :| 0 <= i < |s.admissions| && s.admissions[i].1 == kind.metadata;
        assert next.admissions[i] == s.admissions[i];
      }
    }
    if |next.admissions| > |s.admissions| {
      assert next.admissions[|s.admissions|] == (g, Admit(s.groups[g], s.nextId, name).2.metadata);
    }
  }

  lemma StepKeepsVouched(s: System, step: Step)
    requires VouchedInv(s)
    ensures VouchedInv(Next(s, step))
  {
    hide Spawning, Abandoned, Allocation, Latch, Vouched;
    AbandonGivesUp();
    var next := Next(s, step);
    if step.Spawn? {
      if next != s { SpawnKeepsVouched(s, step.g, step.name); }
    } else {
      SameAdmissionsVouch(s, next);
    }
  }

  lemma SameAdmissionsVouch(s: System, next: System)
    requires next.admissions == s.admissions
    ensures forall kind :: Vouched(next, kind) <==> Vouched(s, kind)
    ensures forall kind | Terminal(kind) :: Vouched(next, kind)
  {
  }

  // ---------------------------------------------------------------- every run

  ghost predicate Sound(s: System) {
    TraceInv(s) && SequenceInv(s) && LockedOpen(s) && CapacityInv(s) && AdmissionInv(s) && VouchedInv(s)
  }

  lemma InitiallySound()
    ensures Sound(INITIAL)
  {
    TraceInitially();
  }

  lemma {:induction false} RunsStaySound(steps: seq<Step>)
    ensures Sound(After(steps))
  {
    hide TraceInv, SequenceInv, LockedOpen, CapacityInv, AdmissionInv, VouchedInv, Next;
    if steps == [] {
      InitiallySound();
    } else {
      var s, step := After(steps[..|steps| - 1]), steps[|steps| - 1];
      RunsStaySound(steps[..|steps| - 1]);
      StepKeepsTrace(s, step);
      StepKeepsSequence(s, step);
      StepKeepsLocked(s, step);
      StepKeepsCapacity(s, step);
      StepKeepsAdmissions(s, step);
      StepKeepsVouched(s, step);
    }
  }

  /** Capacity: live tasks within the high-water mark within the limit, and an exact rejection count. */
  lemma CapacityIsKept(steps: seq<Step>, g: GroupId)
    requires g in After(steps).groups
    ensures var s := After(steps);
            var group, answers := s.groups[g], AnswersOf(s.answers, g);
            && |group.tasks| <= group.highWater <= group.limit
            && group.rejectedSpawns == Rejections(answers)
            && (CounterExhausted in answers <==> group.counterExhausted)
            && (CounterExhausted in answers ==> group.closed && Rejections(answers) == U64_MAX)
  {
    hide After, AnswersOf, Rejections, TraceInv, SequenceInv, LockedOpen, AdmissionInv, VouchedInv;
    RunsStaySound(steps);
  }

  /** Identifiers are never reused, by any two spawns of any groups, and a group's ordinals only grow. */
  lemma IdentifiersAreUnique(steps: seq<Step>, i: nat, j: nat)
    requires i < j < |After(steps).admissions|
    ensures var (g, m), (g', m') := After(steps).admissions[i], After(steps).admissions[j];
            && 1 <= m.id < m'.id <= U64_MAX
            && (g == g' ==> m.childOrdinal < m'.childOrdinal)
  {
    hide After, TraceInv, SequenceInv, LockedOpen, CapacityInv, VouchedInv;
    RunsStaySound(steps);
  }

  /** No two recorded events share a sequence number. */
  lemma EventsAreNumbered(steps: seq<Step>, i: nat, j: nat)
    requires i < j < |After(steps).recorder.log|
    ensures After(steps).recorder.log[i].sequence != After(steps).recorder.log[j].sequence
  {
    hide After, TraceInv, AdmissionInv, LockedOpen, CapacityInv, VouchedInv;
    RunsStaySound(steps);
  }

  /** All answers after the first ones turn the spawn away. */
  predicate OnlyTurnsAway(before: seq<Answer>, after: seq<Answer>) {
    before <= after && forall i | |before| <= i < |after| :: TurnedAway(after[i])
  }

  lemma ClosedAnswers(s: System, next: System, g: GroupId, g': GroupId, answer: Option<Answer>)
    requires Moves(s, next, g', answer) && g in s.groups && s.groups[g].closed
    ensures OnlyTurnsAway(AnswersOf(s.answers, g), AnswersOf(next.answers, g))
  {
    hide AnswersOf;
    if answer.Some? { AnswersStep(s.answers, (g', answer.value), g); } else { assert next.answers == s.answers; }
  }

  lemma ClosedStep(s: System, step: Step, g: GroupId)
    requires Sound(s) && g in s.groups && s.groups[g].closed
    ensures var next := Next(s, step);
            && g in next.groups && next.groups[g].closed && next.groups[g].tasks.Keys <= s.groups[g].tasks.Keys
            && next.groups[g].highWater == s.groups[g].highWater
            && next.groups[g].rejectedSpawns == s.groups[g].rejectedSpawns
            && OnlyTurnsAway(AnswersOf(s.answers, g), AnswersOf(next.answers, g))
  {
    hide TraceInv, SequenceInv, LockedOpen, CapacityInv, AdmissionInv, VouchedInv;
    hide Spawning, Numbering, Sinking, AnswersOf;
    if Next(s, step) != s && !step.OpenGroup? {
      StepMoves(s, step);
      var g', answer :| Moves(s, Next(s, step), g', answer);
      ClosedAnswers(s, Next(s, step), g, g', answer);
    }
  }

  /** Once a group is closed it stays closed, never takes another task and turns every spawn away, whatever happens. */
  lemma {:induction false} ClosedForGood(steps: seq<Step>, more: seq<Step>, g: GroupId)
    requires g in After(steps).groups && After(steps).groups[g].closed
    ensures var s, later := After(steps), After(steps + more);
            && g in later.groups && later.groups[g].closed && later.groups[g].tasks.Keys <= s.groups[g].tasks.Keys
            && later.groups[g].highWater == s.groups[g].highWater
            && later.groups[g].rejectedSpawns == s.groups[g].rejectedSpawns
            && OnlyTurnsAway(AnswersOf(s.answers, g), AnswersOf(later.answers, g))
  {
    hide Sound, Next, AnswersOf;
    if more == [] {
      assert steps + more == steps;
    } else {
      var most := steps + more[..|more| - 1];
      assert (steps + more)[..|steps + more| - 1] == most;
      ClosedForGood(steps, more[..|more| - 1], g);
      RunsStaySound(most);
      ClosedStep(After(most), more[|more| - 1], g);
    }
  }

  lemma AfterOne(steps: seq<Step>, step: Step)
    ensures After(steps + [step]) == Next(After(steps), step)
  {
    hide Next;
    assert (steps + [step])[..|steps|] == steps;
  }

  /** Closing a group that no spawn has locked closes it and nothing else, and every spawn since is turned away. */
  lemma ClosingCloses(steps: seq<Step>, more: seq<Step>, g: GroupId)
    requires g in After(steps).groups && g !in After(steps).locked
    ensures var s, closed, later := After(steps), After(steps + [Close(g)]), After(steps + [Close(g)] + more);
            && closed == s.(groups := s.groups[g := s.groups[g].(closed := true)])
            && g in later.groups && later.groups[g].closed && later.groups[g].tasks.Keys <= s.groups[g].tasks.Keys
            && OnlyTurnsAway(AnswersOf(s.answers, g), AnswersOf(later.answers, g))
  {
    hide After, AnswersOf;
    AfterOne(steps, Close(g));
    ClosedForGood(steps + [Close(g)], more, g);
  }
}
