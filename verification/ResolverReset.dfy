/**
 The resolver swap protocol: `reset` loads the current resolver, builds a replacement, swaps it in
 if nobody was faster, and then wakes waiters; each lookup attempt registers for the wake-up
 before it loads the resolver it will query. Waiting, it polls the lookup, then the wake-up, then the
 timer, over and over. Threads interleave at every shared access, so also between two polls.
 */
module ResolverReset {
  type Thread = nat
  /** A resolver object; every built one is distinct from all others. */
  type Resolver = nat

  datatype Resetter =
    | Idle
    | Loaded(seen: Resolver, replacement: Resolver, began: nat)
    | Swapped(began: nat)

  datatype Attempt =
    | Outside
    | Listening(woken: bool)
    | Looking(resolver: Resolver, notified: bool)
    | TimerNext(resolver: Resolver, notified: bool)
    | Completed
    | TimedOut(last: Resolver)

  /** A swap that landed: who made it and which resolver it replaced. */
  datatype Swap = Swap(winner: Thread, replaced: Resolver)

  /** A finished `reset` call: how many resolvers had been installed when it began and when it returned. */
  datatype Finished = Finished(began: nat, ended: nat)

  datatype Shared = Shared(
    cell: Resolver,
    built: nat,
    resetters: map<Thread, Resetter>,
    attempts: map<Thread, Attempt>,
    installed: seq<Resolver>,
    swaps: seq<Swap>,
    finished: seq<Finished>)

  const INITIAL: Shared := Shared(0, 1, map[], map[], [0], [], [])

  datatype Step =
    | Load(t: Thread)
    | CompareAndSwap(t: Thread)
    | NotifyWaiters(t: Thread)
    | Enable(t: Thread)
    | LoadFull(t: Thread)
    | LookupDone(t: Thread)
    | PollWakeUp(t: Thread)
    | PollTimer(t: Thread, elapsed: bool)

  function ResetterOf(s: Shared, t: Thread): Resetter {
    if t in s.resetters then s.resetters[t] else Idle
  }

  function AttemptOf(s: Shared, t: Thread): Attempt {
    if t in s.attempts then s.attempts[t] else Outside
  }

  function Wake(a: Attempt): Attempt {
    match a
    case Listening(_) => Listening(true)
    case Looking(r, _) => Looking(r, true)
    case TimerNext(r, _) => TimerNext(r, true)
    case _ => a
  }

  function SetResetter(s: Shared, t: Thread, r: Resetter): Shared {
    s.(resetters := s.resetters[t := r])
  }

  function SetAttempt(s: Shared, t: Thread, a: Attempt): Shared {
    s.(attempts := s.attempts[t := a])
  }

  /** One atomic access by one thread; a step its thread cannot take now changes nothing. */
  function Next(s: Shared, step: Step): Shared {
    match step
    case Load(t) =>
      if ResetterOf(s, t) != Idle then s
      else SetResetter(s, t, Loaded(s.cell, s.built, |s.installed|)).(built := s.built + 1)
    case CompareAndSwap(t) => Swapping(s, t)
    case NotifyWaiters(t) =>
      if !ResetterOf(s, t).Swapped? then s
      else SetResetter(s, t, Idle).(
           finished := s.finished + [Finished(ResetterOf(s, t).began, |s.installed|)],
           attempts := map a | a in s.attempts :: Wake(s.attempts[a]))
    case Enable(t) => if AttemptOf(s, t).Outside? then SetAttempt(s, t, Listening(false)) else s
    case LoadFull(t) =>
      if AttemptOf(s, t).Listening? then SetAttempt(s, t, Looking(s.cell, AttemptOf(s, t).woken)) else s
    case LookupDone(t) => if AttemptOf(s, t).Looking? then SetAttempt(s, t, Completed) else s
    case PollWakeUp(t) =>
      var a := AttemptOf(s, t);
      if !a.Looking? then s
      else if a.notified then SetAttempt(s, t, Outside)
      else SetAttempt(s, t, TimerNext(a.resolver, false))
    case PollTimer(t, elapsed) =>
      var a := AttemptOf(s, t);
      if !a.TimerNext? then s
      else if elapsed then SetAttempt(s, t, TimedOut(a.resolver))
      else SetAttempt(s, t, Looking(a.resolver, a.notified))
  }

  /** The replacement lands only if the cell still holds the resolver this thread loaded. */
  function Swapping(s: Shared, t: Thread): Shared {
    match ResetterOf(s, t)
    case Loaded(seen, replacement, began) =>
      if s.cell == seen then
        SetResetter(s, t, Swapped(began)).(
        cell := replacement,
        installed := s.installed + [replacement],
        swaps := s.swaps + [Swap(t, seen)])
      else SetResetter(s, t, Idle).(finished := s.finished + [Finished(began, |s.installed|)])
    case _ => s
  }

  function After(steps: seq<Step>): Shared {
    if steps == [] then INITIAL else Next(After(steps[..|steps| - 1]), steps[|steps| - 1])
  }

  // ---------------------------------------------------------------- the inductive invariant

  predicate SwapInFlight(s: Shared) {
    exists t | t in s.resetters :: s.resetters[t].Swapped?
  }

  /** A waiting attempt that was not woken holds the current resolver, unless a swap still owes its wake-up. */
  predicate NoLostReset(s: Shared) {
    forall t | t in s.attempts :: Current(s, s.attempts[t])
  }

  predicate Current(s: Shared, a: Attempt) {
    (a.Looking? || a.TimerNext?) && !a.notified ==> a.resolver == s.cell || SwapInFlight(s)
  }

  /** What a resetter remembers is where the installation history stood when it loaded. */
  predicate Remembers(s: Shared, r: Resetter) {
    match r
    case Idle => true
    case Loaded(seen, replacement, began) =>
      1 <= began <= |s.installed| && seen == s.installed[began - 1] && replacement < s.built
      && replacement !in s.installed
    case Swapped(began) => 1 <= began < |s.installed|
  }

  predicate Distinct<T(==)>(xs: seq<T>) {
    forall i, j | 0 <= i < j < |xs| :: xs[i] != xs[j]
  }

  predicate History(s: Shared) {
    && s.installed != [] && s.cell == s.installed[|s.installed| - 1]
    && Distinct(s.installed)
    && (forall i | 0 <= i < |s.installed| :: s.installed[i] < s.built)
    && |s.installed| == |s.swaps| + 1
    && (forall i | 0 <= i < |s.swaps| :: s.swaps[i].replaced == s.installed[i])
    && (forall i | 0 <= i < |s.finished| :: s.finished[i].began < s.finished[i].ended <= |s.installed|)
  }

  /** Replacements under construction belong to one resetter each. */
  predicate OwnReplacements(s: Shared) {
    forall t, u | t in s.resetters && u in s.resetters && t != u && s.resetters[t].Loaded? && s.resetters[u].Loaded? ::
      s.resetters[t].replacement != s.resetters[u].replacement
  }

  ghost predicate Inv(s: Shared) {
    && NoLostReset(s)
    && History(s)
    && (forall t | t in s.resetters :: Remembers(s, s.resetters[t]))
    && OwnReplacements(s)
  }

  lemma SwapKeepsCurrent(s: Shared, t: Thread)
    requires NoLostReset(s)
    ensures NoLostReset(Swapping(s, t))
  {
    var next := Swapping(s, t);
    if ResetterOf(s, t).Loaded? && s.cell == ResetterOf(s, t).seen {
      assert next.resetters[t].Swapped?;
    } else {
      assert forall u | u in s.resetters && s.resetters[u].Swapped? :: next.resetters[u].Swapped?;
      forall a | a in next.attempts ensures Current(next, next.attempts[a]) { assert Current(s, s.attempts[a]); }
    }
  }

  lemma SwapKeeps(s: Shared, t: Thread)
    requires Inv(s)
    ensures Inv(Swapping(s, t))
  {
    hide NoLostReset;
    SwapKeepsCurrent(s, t);
  }

  lemma NotifyKeeps(s: Shared, t: Thread)
    requires Inv(s)
    ensures Inv(Next(s, NotifyWaiters(t)))
  {
  }

  lemma LoadKeeps(s: Shared, t: Thread)
    requires Inv(s)
    ensures Inv(Next(s, Load(t)))
  {
    var next := Next(s, Load(t));
    assert forall u | u in s.resetters && s.resetters[u].Swapped? ::
        u in next.resetters && next.resetters[u] == s.resetters[u];
    forall a | a in next.attempts ensures Current(next, next.attempts[a]) { assert Current(s, s.attempts[a]); }
  }

  lemma AttemptKeeps(s: Shared, step: Step)
    requires Inv(s) && !step.Load? && !step.CompareAndSwap? && !step.NotifyWaiters?
    ensures Inv(Next(s, step))
  {
    hide History, Remembers, Distinct, Swapping;
    var next := Next(s, step);
    assert SwapInFlight(next) == SwapInFlight(s);
    forall a | a in next.attempts ensures Current(next, next.attempts[a]) {
      if a in s.attempts { assert Current(s, s.attempts[a]); }
    }
    SameHistory(s, next);
  }

  lemma SameHistory(s: Shared, next: Shared)
    requires next == s.(attempts := next.attempts)
    ensures History(next) == History(s) && (forall r :: Remembers(next, r) == Remembers(s, r))
  {
  }

  lemma {:induction false} RunsKeepInv(steps: seq<Step>)
    ensures Inv(After(steps))
  {
    hide Inv, Next;
    if steps == [] {
      InitialInv();
    } else {
      var before, step := After(steps[..|steps| - 1]), steps[|steps| - 1];
      RunsKeepInv(steps[..|steps| - 1]);
      StepKeeps(before, step);
    }
  }

  lemma InitialInv()
    ensures Inv(INITIAL)
  {
  }

  lemma StepKeeps(s: Shared, step: Step)
    requires Inv(s)
    ensures Inv(Next(s, step))
  {
    hide Inv, Swapping;
    match step
    case Load(t) => LoadKeeps(s, t);
    case CompareAndSwap(t) => SwapKeeps(s, t);
    case NotifyWaiters(t) => NotifyKeeps(s, t);
    case _ => AttemptKeeps(s, step);
  }

  // ---------------------------------------------------------------- what callers rely on

  /** With no swap awaiting its wake-up, every attempt on a replaced resolver has been told to retry. */
  lemma StaleAttemptsAreWoken(steps: seq<Step>, t: Thread)
    requires var a := AttemptOf(After(steps), t); a.Looking? || a.TimerNext?
    requires !SwapInFlight(After(steps)) && AttemptOf(After(steps), t).resolver != After(steps).cell
    ensures AttemptOf(After(steps), t).notified
  {
    hide After, History, OwnReplacements;
    RunsKeepInv(steps);
    assert Current(After(steps), AttemptOf(After(steps), t));
  }

  /** The attempt, waiting or timed out, is against `r`. */
  predicate Against(a: Attempt, r: Resolver) {
    ((a.Looking? || a.TimerNext?) && a.resolver == r) || a == TimedOut(r)
  }

  /** Step `i` is the load that gave the attempt `r`, and it has been against `r` ever since. */
  ghost predicate LoadedAt(steps: seq<Step>, t: Thread, i: nat, r: Resolver)
    requires i < |steps|
  {
    var s := After(steps[..i]);
    && steps[i] == LoadFull(t) && AttemptOf(s, t).Listening? && s.cell == r
    && forall j | i < j <= |steps| :: Against(AttemptOf(After(steps[..j]), t), r)
  }

  /** Step `j` is a compare-and-swap that succeeds. */
  predicate Lands(steps: seq<Step>, j: nat)
    requires j < |steps|
  {
    var s := After(steps[..j]);
    steps[j].CompareAndSwap? && ResetterOf(s, steps[j].t).Loaded? && ResetterOf(s, steps[j].t).seen == s.cell
  }

  ghost predicate SwapLanded(steps: seq<Step>, i: nat)
    requires i <= |steps|
  {
    exists j :: i <= j < |steps| && Lands(steps, j)
  }

  lemma AgainstStep(s: Shared, step: Step, t: Thread, r: Resolver)
    requires Against(AttemptOf(Next(s, step), t), r)
    ensures Against(AttemptOf(s, t), r) || (step == LoadFull(t) && AttemptOf(s, t).Listening? && s.cell == r)
  {
    hide Swapping;
    if step.CompareAndSwap? { SwappingKeepsAttempts(s, step.t); }
  }

  /** Every attempt that waits or has timed out got its resolver from one load of the cell. */
  lemma {:induction false} ResolverWasLoaded(steps: seq<Step>, t: Thread, r: Resolver)
    requires Against(AttemptOf(After(steps), t), r)
    ensures exists i :: 0 <= i < |steps| && LoadedAt(steps, t, i, r)
  {
    hide Next;
    var n := |steps| - 1;
    var most := steps[..n];
    AgainstStep(After(most), steps[n], t, r);
    assert steps[..|steps|] == steps;
    if Against(AttemptOf(After(most), t), r) {
      ResolverWasLoaded(most, t, r);
      var i :| 0 <= i < n && LoadedAt(most, t, i, r);
      forall j | 0 <= j <= n ensures most[..j] == steps[..j] {}
      forall j | i < j <= |steps| ensures Against(AttemptOf(After(steps[..j]), t), r) {
        if j <= n { assert most[..j] == steps[..j]; }
      }
      assert LoadedAt(steps, t, i, r);
    } else {
      assert LoadedAt(steps, t, n, r);
    }
  }

  lemma InstallStep(s: Shared, step: Step)
    ensures var landed := step.CompareAndSwap? && ResetterOf(s, step.t).Loaded? && ResetterOf(s, step.t).seen == s.cell;
            && s.installed <= Next(s, step).installed
            && |Next(s, step).installed| == |s.installed| + (if landed then 1 else 0)
  {
  }

  /** The history of installed resolvers only grows, and grows exactly where a swap lands. */
  lemma {:induction false} InstalledSince(steps: seq<Step>, i: nat)
    requires i <= |steps|
    ensures After(steps[..i]).installed <= After(steps).installed
    ensures |After(steps[..i]).installed| < |After(steps).installed| <==> SwapLanded(steps, i)
  {
    hide Next;
    if i == |steps| {
      assert steps[..i] == steps;
    } else {
      var n := |steps| - 1;
      var most := steps[..n];
      assert most[..i] == steps[..i];
      InstalledSince(most, i);
      InstallStep(After(most), steps[n]);
      forall j | 0 <= j < n ensures Lands(most, j) == Lands(steps, j) { assert most[..j] == steps[..j]; }
      if SwapLanded(most, i) {
        var j :| i <= j < n && Lands(most, j);
        assert Lands(steps, j);
      }
      assert Lands(steps, n) ==> SwapLanded(steps, i);
    }
  }

  /** A loaded resolver is the current one exactly as long as no swap has landed since the load. */
  lemma LoadedIsCurrentIff(steps: seq<Step>, t: Thread, i: nat, r: Resolver)
    requires i < |steps| && LoadedAt(steps, t, i, r)
    ensures r == After(steps).cell <==> !SwapLanded(steps, i)
  {
    hide After, Next, NoLostReset, OwnReplacements, Remembers, SwapLanded;
    var before, now := After(steps[..i]).installed, After(steps).installed;
    InstalledSince(steps, i);
    RunsKeepInv(steps[..i]);
    RunsKeepInv(steps);
    assert r == now[|before| - 1] && After(steps).cell == now[|now| - 1];
  }

  /**
   When a timeout is reported: the resolver it is against was loaded by the attempt, and is the current one exactly
   if no swap landed since that load. So the timeout is stale with nothing in flight exactly if one landed and none
   still owes its wake-up, and then the wake-up came after it was polled and before the timer was.
   */
  lemma TimeoutsAreCurrent(steps: seq<Step>, t: Thread)
    requires AttemptOf(After(steps), t).TimerNext?
    ensures var s, final, r := After(steps), After(steps + [PollTimer(t, true)]), AttemptOf(After(steps), t).resolver;
            && AttemptOf(final, t) == TimedOut(r)
            && final.cell == s.cell && SwapInFlight(final) == SwapInFlight(s)
            && (exists i :: 0 <= i < |steps| && LoadedAt(steps, t, i, r))
            && (forall i | 0 <= i < |steps| && LoadedAt(steps, t, i, r) ::
                  && (r == final.cell <==> !SwapLanded(steps, i))
                  && (r != final.cell && !SwapInFlight(final) <==> SwapLanded(steps, i) && !SwapInFlight(s)))
            && (!AttemptOf(s, t).notified ==> r == final.cell || SwapInFlight(final))
  {
    hide After, Next, Inv, LoadedAt, SwapLanded, SwapInFlight;
    var s := After(steps);
    var r := AttemptOf(s, t).resolver;
    AfterTake(steps + [PollTimer(t, true)], |steps|);
    assert (steps + [PollTimer(t, true)])[..|steps|] == steps;
    assert (steps + [PollTimer(t, true)])[..|steps| + 1] == steps + [PollTimer(t, true)];
    TimerFires(s, t);
    RunsKeepInv(steps);
    UnwokenIsCurrent(s, t);
    ResolverWasLoaded(steps, t, r);
    forall i | 0 <= i < |steps| && LoadedAt(steps, t, i, r) ensures r == s.cell <==> !SwapLanded(steps, i) {
      LoadedIsCurrentIff(steps, t, i, r);
    }
  }

  lemma TimerFires(s: Shared, t: Thread)
    requires AttemptOf(s, t).TimerNext?
    ensures var next := Next(s, PollTimer(t, true));
            && AttemptOf(next, t) == TimedOut(AttemptOf(s, t).resolver)
            && next.cell == s.cell && SwapInFlight(next) == SwapInFlight(s)
  {
  }

  /** An attempt on its way out with a timeout against `r`. */
  predicate Leaving(a: Attempt, r: Resolver) {
    (a.TimerNext? && a.resolver == r) || a == TimedOut(r)
  }

  /** At step `i`, its last poll of the wake-up, the attempt was unwoken on `r`, which was current or being replaced. */
  ghost predicate PolledCurrent(steps: seq<Step>, t: Thread, i: nat, r: Resolver)
    requires i < |steps|
  {
    var s := After(steps[..i]);
    && steps[i] == PollWakeUp(t) && AttemptOf(s, t) == Looking(r, false) && (r == s.cell || SwapInFlight(s))
    && forall j | i < j <= |steps| :: Leaving(AttemptOf(After(steps[..j]), t), r)
  }

  /**
   Whatever happens between the polls, a timeout is against a resolver that was current, or being replaced,
   at the last poll of the wake-up.
   */
  lemma {:induction false} TimeoutsWereCurrent(steps: seq<Step>, t: Thread, r: Resolver)
    requires Leaving(AttemptOf(After(steps), t), r)
    ensures exists i :: 0 <= i < |steps| && PolledCurrent(steps, t, i, r)
  {
    hide Inv, Next, SwapInFlight;
    var n := |steps| - 1;
    var most := steps[..n];
    LeavingStep(After(most), steps[n], t, r);
    assert steps[..|steps|] == steps;
    if Leaving(AttemptOf(After(most), t), r) {
      TimeoutsWereCurrent(most, t, r);
      var i :| 0 <= i < n && PolledCurrent(most, t, i, r);
      forall j | 0 <= j < n ensures most[..j] == steps[..j] {}
      forall j | i < j <= |steps| ensures Leaving(AttemptOf(After(steps[..j]), t), r) {
        if j < n { assert most[..j] == steps[..j]; } else if j == n { assert most[..n] == most == steps[..n]; }
      }
      assert PolledCurrent(steps, t, i, r);
    } else {
      RunsKeepInv(most);
      UnwokenIsCurrent(After(most), t);
      assert PolledCurrent(steps, t, n, r);
    }
  }

  lemma LeavingStep(s: Shared, step: Step, t: Thread, r: Resolver)
    requires Leaving(AttemptOf(Next(s, step), t), r)
    ensures Leaving(AttemptOf(s, t), r) || (step == PollWakeUp(t) && AttemptOf(s, t) == Looking(r, false))
  {
    hide Swapping;
    if step.CompareAndSwap? { SwappingKeepsAttempts(s, step.t); }
  }

  lemma SwappingKeepsAttempts(s: Shared, t: Thread)
    ensures Swapping(s, t).attempts == s.attempts
  {
  }

  lemma UnwokenIsCurrent(s: Shared, t: Thread)
    requires Inv(s) && (AttemptOf(s, t).Looking? || AttemptOf(s, t).TimerNext?)
    ensures !AttemptOf(s, t).notified ==> AttemptOf(s, t).resolver == s.cell || SwapInFlight(s)
  {
    hide History, OwnReplacements, Remembers;
    assert Current(s, AttemptOf(s, t));
  }

  /** An attempt polls its wake-up, another thread swaps and notifies, and then the attempt polls its timer. */
  function StaleRun(): seq<Step> {
    [Enable(0), LoadFull(0), PollWakeUp(0), Load(1), CompareAndSwap(1), NotifyWaiters(1), PollTimer(0, true)]
  }

  lemma PolledUnwoken()
    ensures var s := After(StaleRun()[..3]);
            s.attempts == map[0 := TimerNext(0, false)] && s.resetters == map[] && s.cell == 0 && s.built == 1
            && s.installed == [0]
  {
    hide After;
    var run := StaleRun();
    AfterTake(run, 0);
    AfterTake(run, 1);
    AfterTake(run, 2);
  }

  lemma SwappedAndNotified()
    ensures var s := After(StaleRun()[..6]);
            s.attempts == map[0 := TimerNext(0, true)] && s.resetters == map[1 := Idle] && s.cell == 1
  {
    hide After;
    var run := StaleRun();
    PolledUnwoken();
    AfterTake(run, 3);
    assert After(run[..4]).resetters == map[1 := Loaded(0, 1, 1)];
    AfterTake(run, 4);
    assert After(run[..5]).resetters == map[1 := Swapped(1)];
    AfterTake(run, 5);
  }

  /**
   A wake-up between the two polls: the timeout is against a resolver that has been replaced, with no swap
   in flight.
   */
  lemma StaleTimeoutHappens()
    ensures var s := After(StaleRun()); AttemptOf(s, 0) == TimedOut(0) && s.cell == 1 && !SwapInFlight(s)
  {
    hide After;
    SwappedAndNotified();
    AfterTake(StaleRun(), 6);
    assert StaleRun()[..7] == StaleRun();
  }

  lemma AfterTake(steps: seq<Step>, k: nat)
    requires k < |steps|
    ensures After(steps[..0]) == INITIAL && After(steps[..k + 1]) == Next(After(steps[..k]), steps[k])
  {
    hide Next;
    assert steps[..k + 1][..k] == steps[..k];
  }

  /** Of the resetters that loaded one resolver, at most one swap lands: no resolver is replaced twice. */
  lemma AtMostOneWinner(steps: seq<Step>, i: nat, j: nat)
    requires i < |After(steps).swaps| && j < |After(steps).swaps|
    requires After(steps).swaps[i].replaced == After(steps).swaps[j].replaced
    ensures i == j
  {
    RunsKeepInv(steps);
    var s := After(steps);
    assert s.installed[i] == s.installed[j];
  }

  /** Every finished reset, winner or loser, saw at least one replacement land since it began. */
  lemma FinishedResetsReplaced(steps: seq<Step>, i: nat)
    requires i < |After(steps).finished|
    ensures var f := After(steps).finished[i]; f.began < f.ended <= |After(steps).swaps| + 1
  {
    RunsKeepInv(steps);
  }

  // ---------------------------------------------------------------- waking, retrying and answering

  predicate Waiting(a: Attempt) {
    a.Listening? || a.Looking? || a.TimerNext?
  }

  predicate IsWoken(a: Attempt) {
    (a.Listening? && a.woken) || ((a.Looking? || a.TimerNext?) && a.notified)
  }

  /** Step `i` is the registration for the wake-up with which the attempt began, and it has been waiting ever since. */
  ghost predicate BeganAt(steps: seq<Step>, t: Thread, i: nat)
    requires i < |steps|
  {
    && steps[i] == Enable(t) && AttemptOf(After(steps[..i]), t).Outside?
    && forall j | i < j <= |steps| :: Waiting(AttemptOf(After(steps[..j]), t))
  }

  /** Step `j` wakes the waiters: the second half of a reset whose swap has landed. */
  predicate Wakes(steps: seq<Step>, j: nat)
    requires j < |steps|
  {
    steps[j].NotifyWaiters? && ResetterOf(After(steps[..j]), steps[j].t).Swapped?
  }

  ghost predicate WokenSince(steps: seq<Step>, i: nat)
    requires i <= |steps|
  {
    exists j :: i <= j < |steps| && Wakes(steps, j)
  }

  lemma WaitingStep(s: Shared, step: Step, t: Thread)
    requires Waiting(AttemptOf(Next(s, step), t))
    ensures Waiting(AttemptOf(s, t)) || (step == Enable(t) && AttemptOf(s, t).Outside?)
    ensures var wakes := step.NotifyWaiters? && ResetterOf(s, step.t).Swapped?;
            IsWoken(AttemptOf(Next(s, step), t)) <==> Waiting(AttemptOf(s, t)) && (wakes || IsWoken(AttemptOf(s, t)))
  {
    hide Swapping;
    if step.CompareAndSwap? { SwappingKeepsAttempts(s, step.t); }
  }

  lemma WakesInPrefix(steps: seq<Step>, n: nat, i: nat)
    requires i <= n < |steps|
    ensures WokenSince(steps[..n + 1], i) <==> WokenSince(steps[..n], i) || Wakes(steps, n)
  {
    hide After;
    forall j | 0 <= j < n ensures Wakes(steps[..n], j) == Wakes(steps[..n + 1], j) {
      assert steps[..n][..j] == steps[..n + 1][..j];
    }
    assert steps[..n + 1][..n] == steps[..n];
    if WokenSince(steps[..n], i) {
      var j :| i <= j < n && Wakes(steps[..n], j);
      assert Wakes(steps[..n + 1], j);
    }
    if Wakes(steps, n) { assert Wakes(steps[..n + 1], n); }
    if WokenSince(steps[..n + 1], i) {
      var j :| i <= j < n + 1 && Wakes(steps[..n + 1], j);
      if j < n { assert Wakes(steps[..n], j); }
    }
  }

  lemma {:induction false} AttemptsBegin(steps: seq<Step>, t: Thread)
    requires Waiting(AttemptOf(After(steps), t))
    ensures exists i :: 0 <= i < |steps| && BeganAt(steps, t, i)
  {
    hide Next;
    var n := |steps| - 1;
    var most := steps[..n];
    WaitingStep(After(most), steps[n], t);
    assert steps[..|steps|] == steps;
    if Waiting(AttemptOf(After(most), t)) {
      AttemptsBegin(most, t);
      var i :| 0 <= i < n && BeganAt(most, t, i);
      forall j | 0 <= j <= n ensures most[..j] == steps[..j] {}
      forall j | i < j <= |steps| ensures Waiting(AttemptOf(After(steps[..j]), t)) {
        if j <= n { assert most[..j] == steps[..j]; }
      }
      assert BeganAt(steps, t, i);
    } else {
      assert BeganAt(steps, t, n);
    }
  }

  lemma {:induction false} WokenFrom(steps: seq<Step>, t: Thread, i: nat, n: nat)
    requires i < n <= |steps| && BeganAt(steps, t, i)
    ensures IsWoken(AttemptOf(After(steps[..n]), t)) <==> WokenSince(steps[..n], i + 1)
    decreases n
  {
    hide Next, WokenSince;
    AfterTake(steps, n - 1);
    WaitingStep(After(steps[..n - 1]), steps[n - 1], t);
    if n == i + 1 {
      NoneWoken(steps[..n]);
    } else {
      WokenFrom(steps, t, i, n - 1);
      WakesInPrefix(steps, n - 1, i + 1);
    }
  }

  lemma NoneWoken(steps: seq<Step>)
    ensures !WokenSince(steps, |steps|)
  {
  }

  /** A waiting attempt is told to retry exactly if waiters were woken since it registered. */
  lemma WokenIff(steps: seq<Step>, t: Thread)
    requires Waiting(AttemptOf(After(steps), t))
    ensures exists i :: 0 <= i < |steps| && BeganAt(steps, t, i)
    ensures forall i | 0 <= i < |steps| && BeganAt(steps, t, i) ::
              IsWoken(AttemptOf(After(steps), t)) <==> WokenSince(steps, i + 1)
  {
    hide After, BeganAt, WokenSince;
    AttemptsBegin(steps, t);
    forall i | 0 <= i < |steps| && BeganAt(steps, t, i)
      ensures IsWoken(AttemptOf(After(steps), t)) <==> WokenSince(steps, i + 1)
    {
      WokenFrom(steps, t, i, |steps|);
      assert steps[..|steps|] == steps;
    }
  }

  /** Step `i` is the answer of the lookup on `r`, which the attempt had loaded. */
  ghost predicate AnsweredAt(steps: seq<Step>, t: Thread, i: nat, r: Resolver)
    requires i < |steps|
  {
    && steps[i] == LookupDone(t) && AttemptOf(After(steps[..i]), t).Looking?
    && AttemptOf(After(steps[..i]), t).resolver == r
    && exists j :: 0 <= j < i && LoadedAt(steps[..i], t, j, r)
  }

  /** An attempt is completed only by the answer of a lookup on a resolver it had loaded. */
  lemma {:induction false} CompletedWasAnswered(steps: seq<Step>, t: Thread)
    requires AttemptOf(After(steps), t) == Completed
    ensures exists i, r :: 0 <= i < |steps| && AnsweredAt(steps, t, i, r)
  {
    hide Next, LoadedAt;
    var n := |steps| - 1;
    var most := steps[..n];
    CompletedStep(After(most), steps[n], t);
    if AttemptOf(After(most), t) == Completed {
      CompletedWasAnswered(most, t);
      var i, r :| 0 <= i < n && AnsweredAt(most, t, i, r);
      assert most[..i] == steps[..i];
      assert AnsweredAt(steps, t, i, r);
    } else {
      var r := AttemptOf(After(most), t).resolver;
      ResolverWasLoaded(most, t, r);
      assert AnsweredAt(steps, t, n, r);
    }
  }

  lemma CompletedStep(s: Shared, step: Step, t: Thread)
    requires AttemptOf(Next(s, step), t) == Completed
    ensures AttemptOf(s, t) == Completed || (step == LookupDone(t) && AttemptOf(s, t).Looking?)
  {
    hide Swapping;
    if step.CompareAndSwap? { SwappingKeepsAttempts(s, step.t); }
  }

  lemma AfterOne(steps: seq<Step>, step: Step)
    ensures After(steps + [step]) == Next(After(steps), step)
  {
    hide Next;
    assert (steps + [step])[..|steps|] == steps;
  }

  /** Left alone, a woken attempt that polls its wake-up starts over: it waits, unwoken, on the current resolver. */
  lemma WokenAttemptsRetry(steps: seq<Step>, t: Thread)
    requires AttemptOf(After(steps), t).Looking? && IsWoken(AttemptOf(After(steps), t))
    ensures var s, later := After(steps), After(steps + [PollWakeUp(t)] + [Enable(t)] + [LoadFull(t)]);
            && AttemptOf(later, t) == Looking(s.cell, false)
            && later == s.(attempts := s.attempts[t := Looking(s.cell, false)])
  {
    hide After;
    AfterOne(steps, PollWakeUp(t));
    AfterOne(steps + [PollWakeUp(t)], Enable(t));
    AfterOne(steps + [PollWakeUp(t)] + [Enable(t)], LoadFull(t));
  }

  /** An attempt that is neither woken nor out of time goes on waiting as it was, and an answer completes it. */
  lemma OthersGoOn(steps: seq<Step>, t: Thread)
    requires AttemptOf(After(steps), t).Looking?
    ensures !IsWoken(AttemptOf(After(steps), t))
            ==> After(steps + [PollWakeUp(t)] + [PollTimer(t, false)]) == After(steps)
    ensures var s := After(steps);
            After(steps + [LookupDone(t)]) == s.(attempts := s.attempts[t := Completed])
  {
    hide After;
    var s := After(steps);
    AfterOne(steps, PollWakeUp(t));
    AfterOne(steps + [PollWakeUp(t)], PollTimer(t, false));
    AfterOne(steps, LookupDone(t));
    assert s.attempts[t := s.attempts[t]] == s.attempts;
  }

  /** A reset left alone replaces the resolver by a new one and wakes everyone who waits. */
  lemma ResetReplaces(steps: seq<Step>, t: Thread)
    requires ResetterOf(After(steps), t) == Idle
    ensures var s, later := After(steps), After(steps + [Load(t)] + [CompareAndSwap(t)] + [NotifyWaiters(t)]);
            && ResetterOf(later, t) == Idle
            && later.cell !in s.installed && later.installed == s.installed + [later.cell]
            && later.swaps == s.swaps + [Swap(t, s.cell)]
            && forall a | Waiting(AttemptOf(s, a)) :: Waiting(AttemptOf(later, a)) && IsWoken(AttemptOf(later, a))
  {
    hide After, NoLostReset, OwnReplacements, Remembers;
    RunsKeepInv(steps);
    AfterOne(steps, Load(t));
    AfterOne(steps + [Load(t)], CompareAndSwap(t));
    AfterOne(steps + [Load(t)] + [CompareAndSwap(t)], NotifyWaiters(t));
  }

  /** A reset that lost the race just returns: the resolver it meant to replace has been replaced already. */
  lemma LosersReturn(steps: seq<Step>, t: Thread)
    requires ResetterOf(After(steps), t).Loaded? && ResetterOf(After(steps), t).seen != After(steps).cell
    ensures var s, later := After(steps), After(steps + [CompareAndSwap(t)]);
            && ResetterOf(later, t) == Idle && later.cell == s.cell && later.attempts == s.attempts
            && later.swaps == s.swaps && later.installed == s.installed && |later.finished| == |s.finished| + 1
  {
    hide After;
    AfterOne(steps, CompareAndSwap(t));
  }
}
