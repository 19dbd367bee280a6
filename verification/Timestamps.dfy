/**
 Strictly monotonic packet timestamps: calls on any number of threads share one cell and advance it
 with a weak compare-and-exchange. Clock readings are arbitrary, a plain load may return any value
 the cell ever held, and an exchange may fail for no reason.
 */
module Timestamps {
  import opened Base

  type Thread = nat

  function NextTimestamp(micros: nat, last: nat): Option<nat> {
    if last >= U64_MAX then None else Some(Max(micros, last + 1))
  }

  /** A call that has read the clock, and then one that also holds a value it loaded from the cell. */
  datatype Call = Started(micros: nat) | Trying(micros: nat, last: nat)

  datatype Return = Return(thread: Thread, micros: nat, value: nat)

  /** The values the cell has held, oldest first, the calls under way, and how calls have ended. */
  datatype System = System(held: seq<nat>, calls: map<Thread, Call>, returned: seq<Return>, exhausted: set<Thread>)

  const INITIAL: System := System([0], map[], [], {})

  function Cell(s: System): nat {
    if s.held == [] then 0 else s.held[|s.held| - 1]
  }

  datatype Step =
    | Begin(t: Thread, micros: nat)
    | Load(t: Thread, seen: nat)
    | Exchange(t: Thread, spurious: bool, seen: nat)

  function Next(s: System, step: Step): System {
    match step
    case Begin(t, micros) =>
      if t in s.calls || micros > U64_MAX then s else s.(calls := s.calls[t := Started(micros)])
    case Load(t, seen) =>
      if t !in s.calls || !s.calls[t].Started? || seen !in s.held then s
      else s.(calls := s.calls[t := Trying(s.calls[t].micros, seen)])
    case Exchange(t, spurious, seen) =>
      if t !in s.calls || !s.calls[t].Trying? || seen !in s.held then s else
      var Trying(micros, last) := s.calls[t];
      match NextTimestamp(micros, last)
      case None => s.(calls := s.calls - {t}, exhausted := s.exhausted + {t})
      case Some(next) =>
        if last == Cell(s) && !spurious then
          System(s.held + [next], s.calls - {t}, s.returned + [Return(t, micros, next)], s.exhausted)
        else s.(calls := s.calls[t := Trying(micros, seen)])
  }

  function After(steps: seq<Step>): System {
    if steps == [] then INITIAL else Next(After(steps[..|steps| - 1]), steps[|steps| - 1])
  }

  /** What one thread alone would get for these clock readings, one after the other. */
  function Sequential(readings: seq<nat>): Option<seq<nat>> {
    if readings == [] then Some([]) else
    var earlier := Sequential(readings[..|readings| - 1]);
    if earlier.None? then None else
    var last := if earlier.value == [] then 0 else earlier.value[|earlier.value| - 1];
    var next := NextTimestamp(readings[|readings| - 1], last);
    if next.None? then None else Some(earlier.value + [next.value])
  }

  function Readings(returned: seq<Return>): seq<nat> {
    seq(|returned|, i requires 0 <= i < |returned| => returned[i].micros)
  }

  function Values(returned: seq<Return>): seq<nat> {
    seq(|returned|, i requires 0 <= i < |returned| => returned[i].value)
  }

  // ---------------------------------------------------------------- every run

  predicate Increasing(held: seq<nat>) {
    forall i, j | 0 <= i < j < |held| :: held[i] < held[j]
  }

  predicate Inv(s: System) {
    && s.held == [0] + Values(s.returned)
    && Increasing(s.held) && (forall i | 0 <= i < |s.held| :: s.held[i] <= U64_MAX)
    && (forall i | 0 <= i < |s.returned| :: s.returned[i].micros <= s.returned[i].value)
    && (forall t | t in s.calls && s.calls[t].Trying? :: s.calls[t].last in s.held)
    && (forall t | t in s.calls :: s.calls[t].micros <= U64_MAX)
    && (s.exhausted != {} ==> Cell(s) == U64_MAX)
    && Sequential(Readings(s.returned)) == Some(Values(s.returned))
  }

  lemma SequentialStep(s: System, t: Thread, micros: nat)
    requires Inv(s) && Cell(s) < U64_MAX
    ensures var r := s.returned + [Return(t, micros, Max(micros, Cell(s) + 1))];
            Sequential(Readings(r)) == Some(Values(r))
  {
    var next := Max(micros, Cell(s) + 1);
    var r := s.returned + [Return(t, micros, next)];
    assert Readings(r)[..|s.returned|] == Readings(s.returned);
    assert Values(r) == Values(s.returned) + [next];
    assert Cell(s) == if Values(s.returned) == [] then 0 else Values(s.returned)[|s.returned| - 1];
  }

  lemma ReturnKeepsInv(s: System, next: System, t: Thread, micros: nat, value: nat)
    requires Inv(s) && Cell(s) < U64_MAX && micros <= U64_MAX && value == Max(micros, Cell(s) + 1)
    requires next == System(s.held + [value], s.calls - {t}, s.returned + [Return(t, micros, value)], s.exhausted)
    ensures Inv(next)
  {
    hide Sequential;
    SequentialStep(s, t, micros);
    assert s.held[|s.held| - 1] == Cell(s);
    assert Values(next.returned) == Values(s.returned) + [value];
  }

  lemma StepKeepsInv(s: System, step: Step)
    requires Inv(s)
    ensures Inv(Next(s, step))
  {
    hide Sequential, Increasing, Values, Readings;
    var next := Next(s, step);
    if |next.returned| > |s.returned| {
      ReturnKeepsInv(s, next, step.t, s.calls[step.t].micros, next.returned[|s.returned|].value);
    } else if step.Exchange? && next.exhausted > s.exhausted {
      LargestIsLast(s.held);
    }
  }

  lemma LargestIsLast(held: seq<nat>)
    requires held != [] && Increasing(held) && forall i | 0 <= i < |held| :: held[i] <= U64_MAX
    ensures forall x | x in held && x >= U64_MAX :: held[|held| - 1] == U64_MAX
  {
  }

  lemma {:induction false} RunsKeepInv(steps: seq<Step>)
    ensures Inv(After(steps))
  {
    hide Inv, Next;
    if steps == [] {
      InitiallyInv();
    } else {
      RunsKeepInv(steps[..|steps| - 1]);
      StepKeepsInv(After(steps[..|steps| - 1]), steps[|steps| - 1]);
    }
  }

  lemma InitiallyInv()
    ensures Inv(INITIAL)
  {
    assert Readings([]) == [];
  }

  /** Timestamps strictly increase in the order the exchanges succeeded, and none is behind its caller's clock. */
  lemma TimestampsIncrease(steps: seq<Step>, i: nat, j: nat)
    requires i < j < |After(steps).returned|
    ensures After(steps).returned[i].value < After(steps).returned[j].value
    ensures After(steps).returned[i].micros <= After(steps).returned[i].value
  {
    hide After, Sequential;
    RunsKeepInv(steps);
    var s := After(steps);
    assert s.held[i + 1] == s.returned[i].value && s.held[j + 1] == s.returned[j].value;
  }

  /** Whatever the interleaving, the timestamps are those of one thread making the calls in that order. */
  lemma ConcurrentIsSequential(steps: seq<Step>)
    ensures Sequential(Readings(After(steps).returned)) == Some(Values(After(steps).returned))
  {
    hide After, Sequential;
    RunsKeepInv(steps);
  }

  lemma ReturnsExtend(s: System, step: Step)
    ensures s.returned <= Next(s, step).returned
  {
  }

  lemma {:induction false} ReturnsOnlyExtend(steps: seq<Step>, more: seq<Step>)
    ensures After(steps).returned <= After(steps + more).returned
  {
    hide Next;
    if more == [] {
      assert steps + more == steps;
    } else {
      var most := steps + more[..|more| - 1];
      assert (steps + more)[..|steps + more| - 1] == most;
      ReturnsOnlyExtend(steps, more[..|more| - 1]);
      ReturnsExtend(After(most), more[|more| - 1]);
    }
  }

  /** A call that returns after another one had returned gets the later timestamp, on any threads. */
  lemma LaterCallsGetLaterTimestamps(steps: seq<Step>, more: seq<Step>, i: nat, j: nat)
    requires i < |After(steps).returned| <= j < |After(steps + more).returned|
    ensures After(steps).returned[i].value < After(steps + more).returned[j].value
  {
    hide After;
    ReturnsOnlyExtend(steps, more);
    TimestampsIncrease(steps + more, i, j);
  }

  lemma ExhaustedStep(s: System, step: Step)
    requires Inv(s) && s.exhausted != {}
    ensures Next(s, step).returned == s.returned && Next(s, step).exhausted >= s.exhausted
  {
    hide Sequential, Increasing, Values, Readings;
    assert s.held[|s.held| - 1] == Cell(s);
  }

  /** Once a call has given up, no call ever returns again, on any thread. */
  lemma {:induction false} ExhaustionIsFinal(steps: seq<Step>, more: seq<Step>)
    requires After(steps).exhausted != {}
    ensures After(steps + more).returned == After(steps).returned && After(steps + more).exhausted != {}
  {
    hide Next, Inv;
    if more == [] {
      assert steps + more == steps;
    } else {
      var most := steps + more[..|more| - 1];
      assert (steps + more)[..|steps + more| - 1] == most;
      ExhaustionIsFinal(steps, more[..|more| - 1]);
      RunsKeepInv(most);
      ExhaustedStep(After(most), more[|more| - 1]);
    }
  }

  /** A call gives up only when the cell stands at the largest value there is. */
  lemma ExhaustionIsReal(steps: seq<Step>)
    requires After(steps).exhausted != {}
    ensures Cell(After(steps)) == U64_MAX
  {
    hide After, Sequential, Values, Readings;
    RunsKeepInv(steps);
  }

  /** A thread left alone for one load and one exchange returns, unless the range is used up. */
  lemma UndisturbedCallReturns(steps: seq<Step>, t: Thread, seen: nat)
    requires t in After(steps).calls && After(steps).calls[t].Started? && seen in After(steps).held
    requires Cell(After(steps)) < U64_MAX
    ensures var s := After(steps);
            var next := Next(Next(s, Load(t, Cell(s))), Exchange(t, false, seen));
            next.returned == s.returned + [Return(t, s.calls[t].micros, Max(s.calls[t].micros, Cell(s) + 1))]
  {
    hide After, Sequential;
    RunsKeepInv(steps);
    var s := After(steps);
    assert s.held[|s.held| - 1] == Cell(s);
  }

  // ---------------------------------------------------------------- the call as a loop

  /** Before an attempt other calls finish, the exchange may fail for no reason, and a load may be stale. */
  datatype Turn = Turn(others: seq<nat>, spurious: bool, seen: nat)

  predicate Reading(micros: nat) {
    micros <= U64_MAX
  }

  class TimestampCell {
    var held: seq<nat>

    ghost predicate Valid()
      reads this
    {
      held != [] && Increasing(held) && forall i | 0 <= i < |held| :: held[i] <= U64_MAX
    }

    constructor ()
      ensures Valid() && held == [0]
    {
      held := [0];
    }

    function Last(): nat
      requires held != []
      reads this
    {
      held[|held| - 1]
    }

    /** A load: any value the cell has held; asking beyond them gives the newest. */
    function Loaded(seen: nat): (v: nat)
      requires held != []
      reads this
      ensures v in held
    {
      if seen < |held| then held[seen] else Last()
    }

    method Advance(next: nat)
      requires Valid() && Last() < next <= U64_MAX
      modifies this
      ensures Valid() && held == old(held) + [next]
    {
      held := held + [next];
    }

    /** Other callers finish, one for each clock reading, as long as the range lasts. */
    method Disturb(others: seq<nat>)
      requires Valid() && forall i | 0 <= i < |others| :: Reading(others[i])
      modifies this
      ensures Valid() && old(held) <= held && (others == [] ==> held == old(held))
    {
      for i := 0 to |others|
        invariant Valid() && old(held) <= held && (i == 0 ==> held == old(held))
      {
        var next := NextTimestamp(others[i], Last());
        if next.Some? {
          Advance(next.value);
        }
      }
    }

    /**
     One call, disturbed before its attempts as `turns` says and then left alone: it ends, and either it
     advanced the cell itself, by the rule for the value it replaced, or the range is used up.
     */
    method Now(micros: nat, first: nat, turns: seq<Turn>) returns (r: Option<nat>)
      requires Valid() && Reading(micros)
      requires forall i, j | 0 <= i < |turns| && 0 <= j < |turns[i].others| :: Reading(turns[i].others[j])
      modifies this
      ensures Valid() && old(held) <= held
      ensures r.Some? ==> && |old(held)| < |held| && r.value == Last()
                          && r == NextTimestamp(micros, held[|held| - 2])
      ensures r.None? ==> Last() == U64_MAX
    {
      var last := Loaded(first);
      var i := 0;
      while true
        invariant Valid() && old(held) <= held && last in held
        invariant 0 <= i <= |turns| + 1 && (i > |turns| ==> last == Last())
        decreases |turns| + 1 - i
      {
        var turn := if i < |turns| then turns[i] else Turn([], false, |held|);
        Disturb(turn.others);
        var next := NextTimestamp(micros, last);
        if next.None? {
          return None;
        }
        if last == Last() && !turn.spurious {
          Advance(next.value);
          return next;
        }
        last := if i < |turns| then Loaded(turn.seen) else Last();
        i := i + 1;
      }
    }
  }

  /** Each timestamp is the least one that is neither behind its caller's clock nor at or before the one before it. */
  lemma TimestampsAreLeast(steps: seq<Step>, i: nat, v: nat)
    requires i < |After(steps).returned|
    ensures var returned := After(steps).returned;
            var previous := if i == 0 then 0 else returned[i - 1].value;
            && previous < returned[i].value && returned[i].micros <= returned[i].value
            && (previous < v && returned[i].micros <= v ==> returned[i].value <= v)
  {
    hide After, Sequential, Increasing;
    RunsKeepInv(steps);
    var returned := After(steps).returned;
    SequentialIsLeast(Readings(returned), i);
    assert Values(returned)[i] == returned[i].value && (i > 0 ==> Values(returned)[i - 1] == returned[i - 1].value);
  }

  lemma {:induction false} SequentialIsLeast(readings: seq<nat>, i: nat)
    requires Sequential(readings).Some? && i < |Sequential(readings).value|
    ensures |Sequential(readings).value| == |readings|
    ensures var values := Sequential(readings).value;
            var previous := if i == 0 then 0 else values[i - 1];
            values[i] == if previous < readings[i] then readings[i] else previous + 1
  {
    var most := readings[..|readings| - 1];
    var earlier := Sequential(most).value;
    SequentialLength(most);
    if i < |earlier| { SequentialIsLeast(most, i); }
  }

  lemma {:induction false} SequentialLength(readings: seq<nat>)
    requires Sequential(readings).Some?
    ensures |Sequential(readings).value| == |readings|
  {
    if readings != [] { SequentialLength(readings[..|readings| - 1]); }
  }
}
