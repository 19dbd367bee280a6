/** Seed campaigns: batches of parallel runs, and what a summary says compared with running every seed in turn. */
module Campaign {
  import opened Base
  import opened Order

  /** Failure signatures, each named by a number. */
  type Signature = nat

  datatype Terminal = Success | Failure(signature: Signature)

  /** What running one seed does: it ends, reports an error, or panics. */
  datatype Outcome = Ended(terminal: Terminal) | Errored(message: string) | Panicked

  type Executor = nat -> Outcome

  /** The hash of a signature's canonical encoding, if it can be encoded. */
  type Fingerprint = Signature -> Option<Bytes>

  datatype Config = Config(seedStart: nat, seedEnd: nat, jobs: nat, failFast: bool, maxRuns: nat)

  datatype RunResult = RunResult(seed: nat, terminal: Option<Terminal>, error: Option<string>, workerPanic: bool)

  datatype UniqueFailure = UniqueFailure(signature: Signature, firstSeed: nat, occurrences: nat)

  type Unique = map<Bytes, UniqueFailure>

  datatype Summary = Summary(results: seq<RunResult>, uniqueFailures: seq<UniqueFailure>, stoppedEarly: bool)

  datatype CampaignError = InvalidRange | ZeroJobs | RunBudget(requested: nat, maximum: nat) | OccurrenceOverflow
                         | Encoding

  function Min(a: nat, b: nat): nat {
    if a < b then a else b
  }

  predicate InRange(c: Config) {
    c.seedStart <= U64_MAX && c.seedEnd <= U64_MAX && c.jobs <= U64_MAX && c.maxRuns <= U64_MAX
  }

  function ResultOf(exec: Executor, seed: nat): RunResult {
    match exec(seed)
    case Ended(terminal) => RunResult(seed, Some(terminal), None, false)
    case Errored(message) => RunResult(seed, None, Some(message), false)
    case Panicked => RunResult(seed, None, Some("worker panic"), true)
  }

  predicate Failed(r: RunResult) {
    r.error.Some? || (r.terminal.Some? && r.terminal.value.Failure?)
  }

  predicate FailsAt(exec: Executor, seed: nat) {
    exec(seed) != Ended(Success)
  }

  lemma FailedIsNotSuccess(exec: Executor, seed: nat)
    ensures Failed(ResultOf(exec, seed)) <==> FailsAt(exec, seed)
  {
  }

  /** Every seed of a range, one after the other. */
  function Sequential(exec: Executor, from: nat, to: nat): seq<RunResult>
    requires from <= to
  {
    seq(to - from, i requires 0 <= i < to - from => ResultOf(exec, from + i))
  }

  /** The first failing seed of a range, or its end. */
  function FirstFailure(exec: Executor, from: nat, to: nat): (f: nat)
    requires from <= to
    ensures from <= f <= to && (forall s | from <= s < f :: !FailsAt(exec, s)) && (f < to ==> FailsAt(exec, f))
    decreases if from < to then to - from else 0
  {
    if from == to || FailsAt(exec, from) then from else FirstFailure(exec, from + 1, to)
  }

  function Jobs(c: Config): nat
    requires c.seedStart < c.seedEnd
  {
    Min(c.jobs, c.seedEnd - c.seedStart)
  }

  /** Where the runs end: at the end of the range or, failing fast, of the batch that holds the first failure. */
  function StopSeed(c: Config, exec: Executor): nat
    requires c.seedStart < c.seedEnd && c.jobs > 0
  {
    var f := FirstFailure(exec, c.seedStart, c.seedEnd);
    if !c.failFast || f == c.seedEnd then c.seedEnd
    else Min(c.seedStart + ((f - c.seedStart) / Jobs(c) + 1) * Jobs(c), c.seedEnd)
  }

  // ---------------------------------------------------------------- batches

  function Seeds(from: nat, to: nat): (seeds: set<nat>)
    requires from <= to
    ensures forall s :: s in seeds <==> from <= s < to
  {
    if from == to then {} else Seeds(from, to - 1) + {to - 1}
  }

  /** Runs every seed of a batch on its own thread; they end in any order and are joined in seed order. */
  method RunBatch(exec: Executor, from: nat, to: nat) returns (batch: seq<RunResult>)
    requires from <= to
    ensures batch == Sequential(exec, from, to)
  {
    var done: map<nat, RunResult> := map[];
    var running := Seeds(from, to);
    while running != {}
      invariant forall s | from <= s < to :: s in running || (s in done && done[s] == ResultOf(exec, s))
      decreases |running|
    {
      var seed :| seed in running;
      running := running - {seed};
      done := done[seed := ResultOf(exec, seed)];
    }
    batch := seq(to - from, i requires 0 <= i < to - from && from + i in done => done[from + i]);
  }

  method AnyFailed(batch: seq<RunResult>) returns (failed: bool)
    ensures failed <==> exists i :: 0 <= i < |batch| && Failed(batch[i])
  {
    failed := false;
    for i := 0 to |batch|
      invariant failed <==> exists k :: 0 <= k < i && Failed(batch[k])
    {
      failed := failed || Failed(batch[i]);
    }
  }

  lemma Quotient(n: nat, d: nat, q: nat)
    requires d > 0 && q * d <= n < q * d + d
    ensures n / d == q
  {
    var p := n / d;
    assert p * d <= n < p * d + d;
    assert p < q ==> (p + 1) * d <= q * d;
    assert q < p ==> (q + 1) * d <= p * d;
  }

  /** The batch a failure falls into decides where the runs end. */
  lemma StopsAfterBatch(c: Config, exec: Executor, k: nat, next: nat)
    requires c.seedStart < c.seedEnd && c.jobs > 0 && c.failFast
    requires next == c.seedStart + k * Jobs(c)
    requires var f := FirstFailure(exec, c.seedStart, c.seedEnd); next <= f < next + Jobs(c) && f < c.seedEnd
    ensures StopSeed(c, exec) == Min(next + Jobs(c), c.seedEnd)
  {
    hide FirstFailure;
    var f, jobs := FirstFailure(exec, c.seedStart, c.seedEnd), Jobs(c);
    Quotient(f - c.seedStart, jobs, k);
    assert (k + 1) * jobs == k * jobs + jobs;
  }

  lemma {:induction false} FirstFailureIs(exec: Executor, from: nat, to: nat, f: nat)
    requires from <= f < to && FailsAt(exec, f) && forall s | from <= s < f :: !FailsAt(exec, s)
    ensures FirstFailure(exec, from, to) == f
    decreases if from < to then to - from else 0
  {
    if from < f { FirstFailureIs(exec, from + 1, to, f); }
  }

  lemma SequentialAppend(exec: Executor, from: nat, mid: nat, to: nat)
    requires from <= mid <= to
    ensures Sequential(exec, from, mid) + Sequential(exec, mid, to) == Sequential(exec, from, to)
  {
  }

  lemma BatchFailure(exec: Executor, from: nat, to: nat)
    requires from <= to
    ensures (exists i :: 0 <= i < |Sequential(exec, from, to)| && Failed(Sequential(exec, from, to)[i]))
       <==> FirstFailure(exec, from, to) < to
  {
    var batch, f := Sequential(exec, from, to), FirstFailure(exec, from, to);
    forall i | 0 <= i < to - from ensures Failed(batch[i]) <==> FailsAt(exec, from + i) {
      FailedIsNotSuccess(exec, from + i);
    }
    if f < to { assert Failed(batch[f - from]); }
  }

  /** Whether a failure in the batch that starts at `next` is the first of the whole range. */
  lemma FirstOfRange(exec: Executor, start: nat, next: nat, stop: nat, end: nat)
    requires start <= next <= stop <= end && forall s | start <= s < next :: !FailsAt(exec, s)
    ensures FirstFailure(exec, next, stop) < stop ==> FirstFailure(exec, start, end) == FirstFailure(exec, next, stop)
    ensures FirstFailure(exec, next, stop) == stop ==> forall s | start <= s < stop :: !FailsAt(exec, s)
  {
    var f := FirstFailure(exec, next, stop);
    if f < stop { FirstFailureIs(exec, start, end, f); }
  }

  /** The first seed of batch `k`. */
  predicate StartsBatch(c: Config, k: nat, next: nat)
    requires c.seedStart < c.seedEnd
  {
    next == c.seedStart + k * Jobs(c)
  }

  lemma NothingYet(c: Config, exec: Executor)
    requires c.seedStart < c.seedEnd
    ensures Sequential(exec, c.seedStart, c.seedStart) == [] && StartsBatch(c, 0, c.seedStart)
  {
  }

  /** What one batch settles. */
  lemma BatchEnds(c: Config, exec: Executor, k: nat, next: nat, end: nat, failed: bool)
    requires c.seedStart < c.seedEnd && c.jobs > 0
    requires StartsBatch(c, k, next) && next < c.seedEnd && end == Min(next + Jobs(c), c.seedEnd)
    requires failed <==> exists i :: 0 <= i < |Sequential(exec, next, end)| && Failed(Sequential(exec, next, end)[i])
    requires c.failFast ==> forall s | c.seedStart <= s < next :: !FailsAt(exec, s)
    ensures end < c.seedEnd ==> StartsBatch(c, k + 1, end)
    ensures c.failFast && failed ==> StopSeed(c, exec) == end
    ensures c.failFast && !failed ==> forall s | c.seedStart <= s < end :: !FailsAt(exec, s)
    ensures end == c.seedEnd ==> StopSeed(c, exec) == c.seedEnd
  {
    hide FailsAt, FirstFailure, Failed, Sequential;
    BatchFailure(exec, next, end);
    assert (k + 1) * Jobs(c) == k * Jobs(c) + Jobs(c);
    if c.failFast {
      FirstOfRange(exec, c.seedStart, next, end, c.seedEnd);
      if failed { StopsAfterBatch(c, exec, k, next); }
    }
  }

  /** Fixed-size batches, one after the other, until the range or, failing fast, the luck runs out. */
  method RunSeeds(c: Config, exec: Executor) returns (results: seq<RunResult>, stoppedEarly: bool)
    requires InRange(c) && c.seedStart < c.seedEnd && c.jobs > 0
    ensures c.seedStart < StopSeed(c, exec) <= c.seedEnd
    ensures results == Sequential(exec, c.seedStart, StopSeed(c, exec))
    ensures stoppedEarly <==> StopSeed(c, exec) < c.seedEnd
  {
    hide FirstFailure, Sequential, StopSeed, FailsAt, Failed, StartsBatch;
    var jobs := Jobs(c);
    StopIsLater(c, exec);
    var next := c.seedStart;
    ghost var k := 0;
    results := [];
    stoppedEarly := false;
    NothingYet(c, exec);
    while next < c.seedEnd
      invariant c.seedStart <= next <= c.seedEnd && results == Sequential(exec, c.seedStart, next)
      invariant next < c.seedEnd ==> StartsBatch(c, k, next)
      invariant next < c.seedEnd && c.failFast ==> forall s | c.seedStart <= s < next :: !FailsAt(exec, s)
      invariant next == c.seedEnd ==> StopSeed(c, exec) == c.seedEnd
      invariant !stoppedEarly
    {
      var end := Min(Min(next + jobs, U64_MAX), c.seedEnd);
      var batch := RunBatch(exec, next, end);
      var batchFailed := AnyFailed(batch);
      BatchEnds(c, exec, k, next, end, batchFailed);
      SequentialAppend(exec, c.seedStart, next, end);
      results := results + batch;
      next := end;
      k := k + 1;
      if c.failFast && batchFailed && next < c.seedEnd {
        stoppedEarly := true;
        break;
      }
    }
  }

  // ---------------------------------------------------------------- unique failures

  /** The fingerprint under which a result is tallied, if it is a failure that has one. */
  function KeyAt(fp: Fingerprint, r: RunResult): Option<Bytes> {
    if IsFailure(r) then fp(r.terminal.value.signature) else None
  }

  predicate IsFailure(r: RunResult) {
    r.terminal.Some? && r.terminal.value.Failure?
  }

  function Tallied(fp: Fingerprint, unique: Unique, r: RunResult): Result<Unique, CampaignError> {
    if !IsFailure(r) then Ok(unique) else
    var key := fp(r.terminal.value.signature);
    if key.None? then Err(Encoding) else
    var u := if key.value in unique then unique[key.value] else UniqueFailure(r.terminal.value.signature, r.seed, 0);
    if u.occurrences >= U64_MAX then Err(OccurrenceOverflow)
    else Ok(unique[key.value := u.(occurrences := u.occurrences + 1)])
  }

  function Tally(fp: Fingerprint, results: seq<RunResult>): Result<Unique, CampaignError> {
    if results == [] then Ok(map[]) else
    var earlier :- Tally(fp, results[..|results| - 1]);
    Tallied(fp, earlier, results[|results| - 1])
  }

  function Occurrences(fp: Fingerprint, results: seq<RunResult>, key: Bytes): nat {
    if results == [] then 0 else
    Occurrences(fp, results[..|results| - 1], key) + (if KeyAt(fp, results[|results| - 1]) == Some(key) then 1 else 0)
  }

  function Failures(results: seq<RunResult>): nat {
    if results == [] then 0
    else Failures(results[..|results| - 1]) + (if IsFailure(results[|results| - 1]) then 1 else 0)
  }

  lemma {:induction false} OccurrencesWithin(fp: Fingerprint, results: seq<RunResult>, key: Bytes)
    ensures Occurrences(fp, results, key) <= |results|
  {
    if results != [] { OccurrencesWithin(fp, results[..|results| - 1], key); }
  }

  predicate Encodable(fp: Fingerprint, r: RunResult) {
    IsFailure(r) ==> fp(r.terminal.value.signature).Some?
  }

  /** The tally of one fingerprint: how often it occurred, and the first result that had it. */
  ghost predicate TallyOf(fp: Fingerprint, results: seq<RunResult>, unique: Unique, key: Bytes) {
    && (key in unique <==> Occurrences(fp, results, key) > 0)
    && (key in unique ==>
          && unique[key].occurrences == Occurrences(fp, results, key)
          && exists i :: && 0 <= i < |results| && KeyAt(fp, results[i]) == Some(key)
                         && (forall j | 0 <= j < i :: KeyAt(fp, results[j]) != Some(key))
                         && unique[key].firstSeed == results[i].seed
                         && unique[key].signature == results[i].terminal.value.signature)
  }

  /** The tally is exact; it fails only on a failure that cannot be encoded, and its counters never run over. */
  lemma {:induction false} TallyIsExact(fp: Fingerprint, results: seq<RunResult>)
    requires |results| <= U64_MAX
    ensures Tally(fp, results).Ok? <==> forall i | 0 <= i < |results| :: Encodable(fp, results[i])
    ensures Tally(fp, results).Err? ==> Tally(fp, results).error == Encoding
    ensures Tally(fp, results).Ok? ==> forall key :: TallyOf(fp, results, Tally(fp, results).value, key)
  {
    if results != [] {
      var most, last := results[..|results| - 1], results[|results| - 1];
      TallyIsExact(fp, most);
      if Tally(fp, most).Ok? && Encodable(fp, last) {
        TallyStep(fp, most, last, Tally(fp, most).value);
        assert results == most + [last];
      }
    }
  }

  lemma TallyStep(fp: Fingerprint, results: seq<RunResult>, last: RunResult, unique: Unique)
    requires |results| < U64_MAX && Encodable(fp, last) && forall key :: TallyOf(fp, results, unique, key)
    ensures Tallied(fp, unique, last).Ok?
    ensures forall key :: TallyOf(fp, results + [last], Tallied(fp, unique, last).value, key)
  {
    if IsFailure(last) {
      var key := fp(last.terminal.value.signature).value;
      assert TallyOf(fp, results, unique, key);
      OccurrencesWithin(fp, results, key);
    }
    forall key ensures TallyOf(fp, results + [last], Tallied(fp, unique, last).value, key) {
      TallyStepAt(fp, results, last, unique, key);
    }
  }

  lemma TallyStepAt(fp: Fingerprint, results: seq<RunResult>, last: RunResult, unique: Unique, key: Bytes)
    requires Encodable(fp, last) && Tallied(fp, unique, last).Ok? && TallyOf(fp, results, unique, key)
    ensures TallyOf(fp, results + [last], Tallied(fp, unique, last).value, key)
  {
    var more := results + [last];
    var after := Tallied(fp, unique, last).value;
    assert more[..|results|] == results;
    if key in unique {
      var i :| && 0 <= i < |results| && KeyAt(fp, results[i]) == Some(key)
               && (forall j | 0 <= j < i :: KeyAt(fp, results[j]) != Some(key))
               && unique[key].firstSeed == results[i].seed
               && unique[key].signature == results[i].terminal.value.signature;
      assert more[i] == results[i];
      assert forall j | 0 <= j < i :: KeyAt(fp, more[j]) != Some(key);
    } else if key in after {
      NoOccurrence(fp, results, key);
      assert more[|results|] == last;
    }
  }

  lemma {:induction false} NoOccurrence(fp: Fingerprint, results: seq<RunResult>, key: Bytes)
    requires Occurrences(fp, results, key) == 0
    ensures forall j | 0 <= j < |results| :: KeyAt(fp, results[j]) != Some(key)
  {
    if results != [] { NoOccurrence(fp, results[..|results| - 1], key); }
  }

  // ---------------------------------------------------------------- totals

  /** The values of an ordered map, in key order. */
  function Values(unique: Unique): seq<UniqueFailure>
    decreases |unique|
  {
    if unique.Keys == {} then [] else
    var key := Least(unique.Keys);
    Removed(unique, key);
    [unique[key]] + Values(unique - {key})
  }

  lemma Removed(unique: Unique, key: Bytes)
    requires key in unique
    ensures |unique - {key}| == |unique| - 1 && (unique - {key}).Keys == unique.Keys - {key}
  {
    assert (unique - {key}).Keys == unique.Keys - {key};
    assert |(unique - {key}).Keys| == |unique - {key}| && |unique.Keys| == |unique|;
  }

  function Total(failures: seq<UniqueFailure>): nat {
    if failures == [] then 0 else failures[0].occurrences + Total(failures[1..])
  }

  lemma LeastStays(keys: set<Bytes>, key: Bytes)
    requires key in keys && key != Least(keys)
    ensures keys - {key} != {} && Least(keys - {key}) == Least(keys)
  {
    LeastIsLeast(keys);
    assert Least(keys) in keys - {key};
    LeastIsLeast(keys - {key});
    LeastUnique(Least(keys - {key}), Least(keys), keys - {key});
  }

  lemma LeastIsLeast(keys: set<Bytes>)
    requires keys != {}
    ensures IsLeast(Least(keys), keys)
  {
    LeastExists(keys);
  }

  lemma {:induction false} TotalWithout(unique: Unique, key: Bytes)
    requires key in unique
    ensures Total(Values(unique)) == unique[key].occurrences + Total(Values(unique - {key}))
    decreases |unique|
  {
    hide Least;
    var least := Least(unique.Keys);
    var rest := unique - {least};
    Removed(unique, least);
    assert Values(unique)[1..] == Values(rest);
    if key != least {
      TotalWithout(rest, key);
      var without := unique - {key};
      Removed(unique, key);
      LeastStays(unique.Keys, key);
      Removed(without, least);
      assert rest - {key} == without - {least};
      assert Values(without)[1..] == Values(without - {least});
    }
  }

  lemma TotalSet(unique: Unique, key: Bytes, u: UniqueFailure)
    ensures Total(Values(unique[key := u])) == u.occurrences + Total(Values(unique - {key}))
  {
    TotalWithout(unique[key := u], key);
    assert unique[key := u] - {key} == unique - {key};
  }

  lemma TalliedTotal(fp: Fingerprint, unique: Unique, r: RunResult)
    requires Tallied(fp, unique, r).Ok?
    ensures Total(Values(Tallied(fp, unique, r).value)) == Total(Values(unique)) + (if IsFailure(r) then 1 else 0)
  {
    hide Total, Values;
    if IsFailure(r) {
      var key := fp(r.terminal.value.signature).value;
      TotalSet(unique, key, Tallied(fp, unique, r).value[key]);
      if key in unique { TotalWithout(unique, key); } else { assert unique - {key} == unique; }
    }
  }

  /** Every failure is counted under exactly one fingerprint. */
  lemma {:induction false} TotalIsFailures(fp: Fingerprint, results: seq<RunResult>)
    requires Tally(fp, results).Ok?
    ensures Total(Values(Tally(fp, results).value)) == Failures(results)
  {
    if results != [] {
      TotalIsFailures(fp, results[..|results| - 1]);
      TalliedTotal(fp, Tally(fp, results[..|results| - 1]).value, results[|results| - 1]);
    }
  }

  // ---------------------------------------------------------------- the summary

  /** What a campaign reports, said without batches, threads or loops. */
  function Expected(c: Config, exec: Executor, fp: Fingerprint): Result<Summary, CampaignError> {
    if c.seedStart >= c.seedEnd then Err(InvalidRange)
    else if c.jobs == 0 then Err(ZeroJobs)
    else if c.seedEnd - c.seedStart > c.maxRuns || c.maxRuns == 0 then
      Err(RunBudget(c.seedEnd - c.seedStart, c.maxRuns))
    else
      var stop := StopSeed(c, exec);
      StopIsLater(c, exec);
      var results := Sequential(exec, c.seedStart, stop);
      var unique :- Tally(fp, results);
      Ok(Summary(results, Values(unique), stop < c.seedEnd))
  }

  lemma StopIsLater(c: Config, exec: Executor)
    requires c.seedStart < c.seedEnd && c.jobs > 0
    ensures c.seedStart < StopSeed(c, exec) <= c.seedEnd
    ensures FirstFailure(exec, c.seedStart, c.seedEnd) < c.seedEnd
            ==> FirstFailure(exec, c.seedStart, c.seedEnd) < StopSeed(c, exec)
  {
    hide FirstFailure;
    var f, jobs := FirstFailure(exec, c.seedStart, c.seedEnd), Jobs(c);
    var q := (f - c.seedStart) / jobs;
    assert (q + 1) * jobs == q * jobs + jobs;
  }

  method Run(c: Config, exec: Executor, fp: Fingerprint) returns (r: Result<Summary, CampaignError>)
    requires InRange(c)
    ensures r == Expected(c, exec, fp)
    ensures r != Err(OccurrenceOverflow)
  {
    hide StopSeed, Sequential, Tallied, Values;
    if c.seedStart >= c.seedEnd {
      return Err(InvalidRange);
    }
    if c.jobs == 0 {
      return Err(ZeroJobs);
    }
    var runs := c.seedEnd - c.seedStart;
    if runs > c.maxRuns || c.maxRuns == 0 {
      return Err(RunBudget(runs, c.maxRuns));
    }
    var results, stoppedEarly := RunSeeds(c, exec);
    SequentialLength(exec, c.seedStart, StopSeed(c, exec));
    TallyIsExact(fp, results);
    var unique: Unique := map[];
    for i := 0 to |results|
      invariant Tally(fp, results[..i]) == Ok(unique)
    {
      assert results[..i + 1][..i] == results[..i];
      var tallied := Tallied(fp, unique, results[i]);
      if tallied.Err? {
        ErrorStays(fp, results, i);
        return Err(tallied.error);
      }
      unique := tallied.value;
    }
    assert results[..|results|] == results;
    return Ok(Summary(results, Values(unique), stoppedEarly));
  }

  lemma SequentialLength(exec: Executor, from: nat, to: nat)
    requires from <= to
    ensures |Sequential(exec, from, to)| == to - from
  {
  }

  lemma {:induction false} ErrorStays(fp: Fingerprint, results: seq<RunResult>, i: nat)
    requires i < |results| && Tally(fp, results[..i]).Ok? && Tallied(fp, Tally(fp, results[..i]).value, results[i]).Err?
    ensures Tally(fp, results) == Err(Tallied(fp, Tally(fp, results[..i]).value, results[i]).error)
    decreases |results|
  {
    hide Tallied;
    var most := results[..|results| - 1];
    if i < |most| {
      assert most[..i] == results[..i];
      ErrorStays(fp, most, i);
    } else {
      assert results[..i] == most;
    }
  }

  /** Without fail-fast, how many jobs run at a time changes nothing in the report. */
  lemma JobsDoNotMatter(c: Config, jobs: nat, exec: Executor, fp: Fingerprint)
    requires !c.failFast && c.jobs > 0 && jobs > 0
    ensures Expected(c.(jobs := jobs), exec, fp) == Expected(c, exec, fp)
  {
    hide Sequential, Tally, Values;
  }

  /**
   With fail-fast, one job at a time stops right after the first failure, and more jobs run at most the rest
   of its batch.
   */
  lemma FailFastStops(c: Config, exec: Executor)
    requires c.seedStart < c.seedEnd && c.jobs > 0 && c.failFast
    ensures var f, stop := FirstFailure(exec, c.seedStart, c.seedEnd), StopSeed(c, exec);
            && (f == c.seedEnd ==> stop == c.seedEnd)
            && (f < c.seedEnd ==> f < stop <= f + Jobs(c))
            && (f < c.seedEnd && c.jobs == 1 ==> stop == f + 1)
  {
    hide FirstFailure;
    StopIsLater(c, exec);
    var f, jobs := FirstFailure(exec, c.seedStart, c.seedEnd), Jobs(c);
    var q := (f - c.seedStart) / jobs;
    assert q * jobs <= f - c.seedStart && (q + 1) * jobs == q * jobs + jobs;
  }

  /** Seeds `from` to `to - 1` are batch `k`: as many seeds as there are jobs, unless the range has fewer or ends. */
  predicate IsBatch(c: Config, k: nat, from: nat, to: nat)
    requires c.seedStart < c.seedEnd
  {
    var size := if c.jobs < c.seedEnd - c.seedStart then c.jobs else c.seedEnd - c.seedStart;
    from == c.seedStart + k * size && to == if from + size < c.seedEnd then from + size else c.seedEnd
  }

  /** Failing fast, the runs end with the batch that holds the first failure. */
  lemma StopsWithBatch(c: Config, exec: Executor)
    requires c.seedStart < c.seedEnd && c.jobs > 0 && c.failFast
    requires FirstFailure(exec, c.seedStart, c.seedEnd) < c.seedEnd
    ensures var f := FirstFailure(exec, c.seedStart, c.seedEnd);
            exists k: nat, from: nat :: IsBatch(c, k, from, StopSeed(c, exec)) && from <= f < StopSeed(c, exec)
  {
    hide FirstFailure, StopSeed;
    var f, jobs := FirstFailure(exec, c.seedStart, c.seedEnd), Jobs(c);
    var k, offset := QuotientOf(f - c.seedStart, jobs);
    var from := c.seedStart + offset;
    StopsAfterBatch(c, exec, k, from);
    assert IsBatch(c, k, from, StopSeed(c, exec));
  }

  lemma QuotientOf(n: nat, d: nat) returns (q: nat, product: nat)
    requires d > 0
    ensures product == q * d && product <= n < product + d
  {
    q, product := n / d, n / d * d;
  }

  lemma {:induction false} ValuesHold(unique: Unique, i: nat)
    requires i < |Values(unique)|
    ensures exists key :: key in unique && unique[key] == Values(unique)[i]
    decreases |unique|
  {
    hide Least;
    var least := Least(unique.Keys);
    Removed(unique, least);
    if i > 0 {
      ValuesHold(unique - {least}, i - 1);
      var key :| key in unique - {least} && (unique - {least})[key] == Values(unique - {least})[i - 1];
      assert key in unique && unique[key] == Values(unique)[i];
    }
  }

  /** A tallied failure is that of the least seed whose failure has its fingerprint. */
  ghost predicate LeastSeed(exec: Executor, fp: Fingerprint, from: nat, to: nat, u: UniqueFailure, key: Bytes) {
    && from <= u.firstSeed < to && exec(u.firstSeed) == Ended(Failure(u.signature)) && fp(u.signature) == Some(key)
    && forall seed | from <= seed < u.firstSeed :: KeyAt(fp, ResultOf(exec, seed)) != Some(key)
  }

  lemma FirstIsLeast(exec: Executor, fp: Fingerprint, from: nat, to: nat, unique: Unique, key: Bytes)
    requires from <= to && key in unique && TallyOf(fp, Sequential(exec, from, to), unique, key)
    ensures LeastSeed(exec, fp, from, to, unique[key], key)
  {
    hide Occurrences;
    var results := Sequential(exec, from, to);
    var k :| && 0 <= k < |results| && KeyAt(fp, results[k]) == Some(key)
             && (forall j | 0 <= j < k :: KeyAt(fp, results[j]) != Some(key))
             && unique[key].firstSeed == results[k].seed
             && unique[key].signature == results[k].terminal.value.signature;
    assert results[k] == ResultOf(exec, from + k);
    forall seed | from <= seed < from + k ensures KeyAt(fp, ResultOf(exec, seed)) != Some(key) {
      assert results[seed - from] == ResultOf(exec, seed);
    }
  }

  /** Everything a summary says about failures, in terms of the executor alone. */
  lemma SummaryIsExact(c: Config, exec: Executor, fp: Fingerprint, i: nat)
    requires InRange(c) && Expected(c, exec, fp).Ok? && i < |Expected(c, exec, fp).value.uniqueFailures|
    ensures var summary := Expected(c, exec, fp).value;
            var u := summary.uniqueFailures[i];
            && Total(summary.uniqueFailures) == Failures(summary.results)
            && exists key :: u.occurrences == Occurrences(fp, summary.results, key) > 0
                             && LeastSeed(exec, fp, c.seedStart, StopSeed(c, exec), u, key)
  {
    hide Values, Total, Occurrences, Failures, Tallied, StopSeed, Sequential, LeastSeed;
    StopIsLater(c, exec);
    var stop := StopSeed(c, exec);
    var results := Sequential(exec, c.seedStart, stop);
    SequentialLength(exec, c.seedStart, stop);
    var unique := Tally(fp, results).value;
    TallyIsExact(fp, results);
    TotalIsFailures(fp, results);
    ValuesHold(unique, i);
    var key :| key in unique && unique[key] == Values(unique)[i];
    assert TallyOf(fp, results, unique, key);
    FirstIsLeast(exec, fp, c.seedStart, stop, unique, key);
  }

  // ---------------------------------------------------------------- the whole report

  /** A result says what running its seed did. */
  predicate Reports(exec: Executor, r: RunResult) {
    match exec(r.seed)
    case Ended(terminal) => r.terminal == Some(terminal) && r.error == None && !r.workerPanic
    case Errored(message) => r.terminal == None && r.error == Some(message) && !r.workerPanic
    case Panicked => r.terminal == None && r.error.Some? && r.workerPanic
  }

  /** Every failure of a seed in the range can be encoded. */
  ghost predicate AllEncodable(exec: Executor, fp: Fingerprint, from: nat, to: nat) {
    forall seed | from <= seed < to :: exec(seed).Ended? && exec(seed).terminal.Failure?
                                       ==> fp(exec(seed).terminal.signature).Some?
  }

  lemma EncodableResults(exec: Executor, fp: Fingerprint, from: nat, to: nat)
    requires from <= to
    ensures AllEncodable(exec, fp, from, to)
       <==> forall i | 0 <= i < |Sequential(exec, from, to)| :: Encodable(fp, Sequential(exec, from, to)[i])
  {
    var results := Sequential(exec, from, to);
    forall i | 0 <= i < |results| ensures results[i] == ResultOf(exec, from + i) {}
    if forall i | 0 <= i < |results| :: Encodable(fp, results[i]) {
      forall seed | from <= seed < to
        ensures exec(seed).Ended? && exec(seed).terminal.Failure? ==> fp(exec(seed).terminal.signature).Some?
      {
        assert Encodable(fp, results[seed - from]);
      }
    }
  }

  /** The seeds that were run. */
  predicate RunSeedsAre(c: Config, exec: Executor, results: seq<RunResult>) {
    forall i | 0 <= i < |results| :: results[i].seed == c.seedStart + i && Reports(exec, results[i])
  }

  lemma SequentialReports(c: Config, exec: Executor, stop: nat)
    requires c.seedStart <= stop
    ensures RunSeedsAre(c, exec, Sequential(exec, c.seedStart, stop))
  {
    var results := Sequential(exec, c.seedStart, stop);
    forall i | 0 <= i < |results| ensures results[i].seed == c.seedStart + i && Reports(exec, results[i]) {
      assert results[i] == ResultOf(exec, c.seedStart + i);
    }
  }

  /**
   Which report a campaign gives: an empty range, no jobs and too long a range are refused in that order; otherwise
   it fails only on a failure that cannot be encoded, and reports every seed up to where it stopped.
   */
  lemma ReportIsExact(c: Config, exec: Executor, fp: Fingerprint)
    requires InRange(c)
    ensures var r, runs := Expected(c, exec, fp), c.seedEnd - c.seedStart;
            if runs <= 0 then r == Err(InvalidRange)
            else if c.jobs == 0 then r == Err(ZeroJobs)
            else if runs > c.maxRuns then r == Err(RunBudget(runs, c.maxRuns))
            else
              var stop := StopSeed(c, exec);
              && (AllEncodable(exec, fp, c.seedStart, stop) <==> r.Ok?)
              && (r.Err? ==> r.error == Encoding)
              && (r.Ok? ==>
                    && |r.value.results| == stop - c.seedStart && RunSeedsAre(c, exec, r.value.results)
                    && (r.value.stoppedEarly <==> stop < c.seedEnd))
              && (!c.failFast ==> stop == c.seedEnd)
  {
    hide Tally, Values, FirstFailure, AllEncodable, Encodable, RunSeedsAre;
    if c.seedStart < c.seedEnd && c.jobs > 0 {
      StopIsLater(c, exec);
      var results := Sequential(exec, c.seedStart, StopSeed(c, exec));
      TallyIsExact(fp, results);
      EncodableResults(exec, fp, c.seedStart, StopSeed(c, exec));
      SequentialReports(c, exec, StopSeed(c, exec));
    }
  }

  lemma {:induction false} ValuesInKeyOrder(unique: Unique)
    ensures |Values(unique)| == |Ascending(unique.Keys)|
    ensures forall i | 0 <= i < |Values(unique)| ::
              Ascending(unique.Keys)[i] in unique && Values(unique)[i] == unique[Ascending(unique.Keys)[i]]
    decreases |unique|
  {
    hide Least;
    if unique.Keys != {} {
      var least := Least(unique.Keys);
      Removed(unique, least);
      var rest := unique - {least};
      ValuesInKeyOrder(rest);
      assert Ascending(unique.Keys) == [least] + Ascending(rest.Keys);
      assert Values(unique) == [unique[least]] + Values(rest);
    }
  }

  /** The fingerprints of the failures among the results. */
  function Fingerprints(fp: Fingerprint, results: seq<RunResult>): set<Bytes> {
    set r | r in results && KeyAt(fp, r).Some? :: KeyAt(fp, r).value
  }

  lemma {:induction false} OccursIff(fp: Fingerprint, results: seq<RunResult>, key: Bytes)
    ensures Occurrences(fp, results, key) > 0 <==> key in Fingerprints(fp, results)
  {
    hide KeyAt;
    if results != [] {
      var most, last := results[..|results| - 1], results[|results| - 1];
      OccursIff(fp, most, key);
      assert results == most + [last];
    }
  }

  /** The failures reported are one for each fingerprint that occurred, in the order of the fingerprints. */
  lemma SummaryListsAll(c: Config, exec: Executor, fp: Fingerprint)
    requires InRange(c) && Expected(c, exec, fp).Ok?
    ensures var summary := Expected(c, exec, fp).value;
            var keys := Ascending(Fingerprints(fp, summary.results));
            && InOrder(keys, Fingerprints(fp, summary.results)) && |summary.uniqueFailures| == |keys|
            && forall i | 0 <= i < |keys| ::
                 && summary.uniqueFailures[i].occurrences == Occurrences(fp, summary.results, keys[i])
                 && fp(summary.uniqueFailures[i].signature) == Some(keys[i])
  {
    hide Values, Occurrences, Tallied, StopSeed, Sequential, Ascending, Fingerprints, Expected;
    var summary := Expected(c, exec, fp).value;
    ExpectedParts(c, exec, fp);
    var results := summary.results;
    var unique := Tally(fp, results).value;
    TallyIsExact(fp, results);
    forall key ensures key in unique.Keys <==> key in Fingerprints(fp, results) {
      assert TallyOf(fp, results, unique, key);
      OccursIff(fp, results, key);
    }
    assert unique.Keys == Fingerprints(fp, results);
    AscendingIsInOrder(unique.Keys);
    ValuesInKeyOrder(unique);
    forall i | 0 <= i < |Values(unique)|
      ensures Values(unique)[i].occurrences == Occurrences(fp, results, Ascending(unique.Keys)[i])
      ensures fp(Values(unique)[i].signature) == Some(Ascending(unique.Keys)[i])
    {
      assert TallyOf(fp, results, unique, Ascending(unique.Keys)[i]);
    }
  }

  lemma ExpectedParts(c: Config, exec: Executor, fp: Fingerprint)
    requires InRange(c) && Expected(c, exec, fp).Ok?
    ensures var summary := Expected(c, exec, fp).value;
            && Tally(fp, summary.results).Ok? && summary.uniqueFailures == Values(Tally(fp, summary.results).value)
            && |summary.results| <= U64_MAX
  {
    hide Tally, Values, FirstFailure;
    StopIsLater(c, exec);
  }
}
