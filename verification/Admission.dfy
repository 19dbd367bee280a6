/** The accept-rate token bucket, with token arithmetic over the reals and instants in seconds. */
module Admission {

  datatype Bucket = Bucket(tokens: real, rate: real, burst: real, lastRefill: real)

  predicate Sane(b: Bucket) {
    b.rate >= 0.0 && b.burst >= 0.0 && b.tokens <= b.burst
  }

  function NewBucket(rate: real, burst: nat, now: real): Bucket {
    Bucket(burst as real, rate, burst as real, now)
  }

  function MinReal(a: real, b: real): real {
    if a < b then a else b
  }

  /** Time that passed; none if the clock went back. */
  function Elapsed(from: real, to: real): real {
    if to < from then 0.0 else to - from
  }

  /** The tokens that time is worth. */
  function Earned(rate: real, from: real, to: real): real {
    Elapsed(from, to) * rate
  }

  function Refilled(b: Bucket, now: real): Bucket {
    b.(tokens := MinReal(b.tokens + Earned(b.rate, b.lastRefill, now), b.burst), lastRefill := now)
  }

  function Take(b: Bucket, now: real): (Bucket, bool) {
    var refilled := Refilled(b, now);
    if refilled.tokens < 1.0 then (refilled, false) else (refilled.(tokens := refilled.tokens - 1.0), true)
  }

  /** The bucket after attempts at the given instants. */
  function After(b: Bucket, times: seq<real>): Bucket {
    if times == [] then b else Take(After(b, times[..|times| - 1]), times[|times| - 1]).0
  }

  predicate Accepted(b: Bucket, times: seq<real>, n: nat)
    requires n < |times|
  {
    Take(After(b, times[..n]), times[n]).1
  }

  /** How many of the attempts `i` to `j - 1` were accepted. */
  function Count(b: Bucket, times: seq<real>, i: nat, j: nat): nat
    requires i <= j <= |times|
  {
    if i == j then 0 else Count(b, times, i, j - 1) + (if Accepted(b, times, j - 1) then 1 else 0)
  }

  /** Clock time that passed forward between attempts `i` and `j`. */
  function Passed(times: seq<real>, i: nat, j: nat): (t: real)
    requires i <= j < |times|
    ensures t >= 0.0
  {
    if i == j then 0.0 else Passed(times, i, j - 1) + Elapsed(times[j - 1], times[j])
  }

  /** The tokens earned between attempts `i` and `j`. */
  function Credit(rate: real, times: seq<real>, i: nat, j: nat): real
    requires i <= j < |times|
  {
    if i == j then 0.0 else Credit(rate, times, i, j - 1) + Earned(rate, times[j - 1], times[j])
  }

  lemma {:induction false} CreditIsRate(rate: real, times: seq<real>, i: nat, j: nat)
    requires i <= j < |times|
    ensures Credit(rate, times, i, j) == rate * Passed(times, i, j)
    decreases j
  {
    if i < j { CreditIsRate(rate, times, i, j - 1); }
  }

  /** The instants of attempts `i` to `j` do not decrease. */
  predicate NeverBack(times: seq<real>, i: nat, j: nat)
    requires i <= j < |times|
  {
    forall k | i <= k < j :: times[k] <= times[k + 1]
  }

  /** Forward time is the length of the window exactly when the instants never go back. */
  lemma {:induction false} PassedIsLength(times: seq<real>, i: nat, j: nat)
    requires i <= j < |times|
    ensures Passed(times, i, j) >= times[j] - times[i]
    ensures Passed(times, i, j) == times[j] - times[i] <==> NeverBack(times, i, j)
    decreases j
  {
    if i < j { PassedIsLength(times, i, j - 1); }
  }

  /** The tokens that attempt `n` finds. */
  function Level(b: Bucket, times: seq<real>, n: nat): real
    requires n < |times|
  {
    Refilled(After(b, times[..n]), times[n]).tokens
  }

  /** What the window from attempt `k` leaves for attempt `n`. */
  function Room(b: Bucket, times: seq<real>, k: nat, n: nat): real
    requires k <= n < |times|
  {
    b.burst + Credit(b.rate, times, k, n) - Count(b, times, k, n) as real
  }

  lemma {:induction false} AfterKeeps(b: Bucket, times: seq<real>)
    requires Sane(b)
    ensures Sane(After(b, times)) && After(b, times).rate == b.rate && After(b, times).burst == b.burst
    ensures times != [] ==> After(b, times).lastRefill == times[|times| - 1]
  {
    if times != [] { AfterKeeps(b, times[..|times| - 1]); }
  }

  function Spent(b: Bucket, times: seq<real>, n: nat): real
    requires n < |times|
  {
    if Accepted(b, times, n) then 1.0 else 0.0
  }

  lemma LevelStep(b: Bucket, times: seq<real>, n: nat)
    requires Sane(b) && n + 1 < |times|
    ensures Level(b, times, n + 1)
         == MinReal(Level(b, times, n) - Spent(b, times, n) + Earned(b.rate, times[n], times[n + 1]), b.burst)
  {
    hide Earned;
    AfterKeeps(b, times[..n]);
    AfterKeeps(b, times[..n + 1]);
    assert times[..n + 1][..n] == times[..n];
  }

  lemma RoomStep(b: Bucket, times: seq<real>, k: nat, n: nat)
    requires k <= n && n + 1 < |times|
    ensures Room(b, times, k, n + 1)
         == Room(b, times, k, n) - Spent(b, times, n) + Earned(b.rate, times[n], times[n + 1])
  {
    hide Earned, Accepted;
  }

  lemma FullStart(b: Bucket, times: seq<real>, n: nat)
    requires Sane(b) && n < |times|
    ensures Room(b, times, n, n) == b.burst
    ensures n == 0 && b.tokens == b.burst ==> Level(b, times, n) == b.burst
  {
    assert Earned(b.rate, b.lastRefill, times[n]) >= 0.0;
  }

  /** A bucket that started full holds exactly the room of its tightest window. */
  lemma {:induction false} LevelIsTightest(b: Bucket, times: seq<real>, n: nat)
    requires Sane(b) && b.tokens == b.burst && n < |times|
    ensures forall k | 0 <= k <= n :: Level(b, times, n) <= Room(b, times, k, n)
    ensures exists k :: 0 <= k <= n && Level(b, times, n) == Room(b, times, k, n)
  {
    hide Spent, Earned, Level, Room;
    FullStart(b, times, n);
    if n > 0 {
      LevelIsTightest(b, times, n - 1);
      LevelStep(b, times, n - 1);
      forall k | 0 <= k < n
        ensures Room(b, times, k, n)
             == Room(b, times, k, n - 1) - Spent(b, times, n - 1) + Earned(b.rate, times[n - 1], times[n])
      {
        RoomStep(b, times, k, n - 1);
      }
      var k :| 0 <= k <= n - 1 && Level(b, times, n - 1) == Room(b, times, k, n - 1);
      assert Level(b, times, n) == Room(b, times, if Room(b, times, k, n) < b.burst then k else n, n);
    }
  }

  /** What a window may accept: burst plus rate times the time that passed forward in it. */
  function Allowance(b: Bucket, times: seq<real>, i: nat, j: nat): real
    requires i <= j < |times|
  {
    b.burst + b.rate * Passed(times, i, j)
  }

  lemma RoomIsAllowance(b: Bucket, times: seq<real>, k: nat, n: nat)
    requires k <= n < |times|
    ensures Room(b, times, k, n) == Allowance(b, times, k, n) - Count(b, times, k, n) as real
  {
    hide Credit, Passed, Count;
    CreditIsRate(b.rate, times, k, n);
  }

  /** An attempt is accepted exactly when that keeps every window that ends with it within its allowance. */
  lemma AcceptedIff(b: Bucket, times: seq<real>, n: nat)
    requires Sane(b) && b.tokens == b.burst && n < |times|
    ensures Accepted(b, times, n)
       <==> forall k | 0 <= k <= n :: (Count(b, times, k, n) + 1) as real <= Allowance(b, times, k, n)
  {
    hide Count, Allowance, After, Refilled, Room;
    LevelIsTightest(b, times, n);
    forall k | 0 <= k <= n ensures Room(b, times, k, n) == Allowance(b, times, k, n) - Count(b, times, k, n) as real {
      RoomIsAllowance(b, times, k, n);
    }
    var k :| 0 <= k <= n && Level(b, times, n) == Room(b, times, k, n);
    assert Accepted(b, times, n) <==> Level(b, times, n) >= 1.0;
    assert (Count(b, times, k, n) + 1) as real <= Allowance(b, times, k, n) <==> Level(b, times, n) >= 1.0;
  }

  lemma AllowanceGrows(b: Bucket, times: seq<real>, i: nat, j: nat)
    requires Sane(b) && i < j < |times|
    ensures Allowance(b, times, i, j - 1) <= Allowance(b, times, i, j)
  {
    var before, more := Passed(times, i, j - 1), Elapsed(times[j - 1], times[j]);
    assert b.rate * (before + more) == b.rate * before + b.rate * more;
  }

  /** No window of attempts accepts more than its allowance. */
  lemma {:induction false} WindowBound(b: Bucket, times: seq<real>, i: nat, j: nat)
    requires Sane(b) && b.tokens == b.burst && i <= j < |times|
    ensures Count(b, times, i, j + 1) as real <= Allowance(b, times, i, j)
    decreases j
  {
    hide Accepted, Allowance;
    AcceptedIff(b, times, j);
    if i < j {
      WindowBound(b, times, i, j - 1);
      AllowanceGrows(b, times, i, j);
    } else {
      SomeAllowance(b, times, i);
    }
  }

  lemma SomeAllowance(b: Bucket, times: seq<real>, i: nat)
    requires i < |times|
    ensures Allowance(b, times, i, i) == b.burst
  {
  }

  function Worth(rate: real, t: real): real {
    rate * t
  }

  /** The accept-rate limit: the window accepts at most burst plus rate times its length. */
  predicate WithinLimit(rate: real, burst: nat, start: real, times: seq<real>, i: nat, j: nat)
    requires i <= j < |times|
  {
    Count(NewBucket(rate, burst, start), times, i, j + 1) as real <= burst as real + Worth(rate, times[j] - times[i])
  }

  /** With instants that never go back, every window is within the limit. */
  lemma RateBound(rate: real, burst: nat, start: real, times: seq<real>, i: nat, j: nat)
    requires rate >= 0.0 && i <= j < |times| && NeverBack(times, i, j)
    ensures WithinLimit(rate, burst, start, times, i, j)
  {
    hide Count, Passed, NeverBack;
    WindowBound(NewBucket(rate, burst, start), times, i, j);
    PassedIsLength(times, i, j);
  }

  // ---------------------------------------------------------------- exactly when the limit holds

  lemma {:induction false} CountSplits(b: Bucket, times: seq<real>, i: nat, k: nat, j: nat)
    requires i <= k <= j <= |times|
    ensures Count(b, times, i, j) == Count(b, times, i, k) + Count(b, times, k, j)
    decreases j
  {
    hide Accepted;
    if k < j { CountSplits(b, times, i, k, j - 1); }
  }

  lemma FirstPasses(rate: real, start: real, times: seq<real>)
    requires rate >= 0.0 && times != []
    ensures Count(NewBucket(rate, 1, start), times, 0, 1) == 1
  {
    var b := NewBucket(rate, 1, start);
    AttemptStep(b, times, 0);
    assert Earned(rate, start, times[0]) >= 0.0;
  }

  /** Once forward time is worth a token, a burst of one has let a second attempt pass. */
  lemma SecondPasses(rate: real, start: real, times: seq<real>, j: nat)
    requires rate >= 0.0 && 0 < j < |times| && Worth(rate, Passed(times, 0, j)) >= 1.0
    ensures Count(NewBucket(rate, 1, start), times, 0, j + 1) >= 2
  {
    hide Accepted, Passed;
    var b := NewBucket(rate, 1, start);
    FirstPasses(rate, start, times);
    CountSplits(b, times, 0, 1, j);
    if Count(b, times, 1, j) == 0 {
      forall k | 0 <= k <= j ensures (Count(b, times, k, j) + 1) as real <= Allowance(b, times, k, j) {
        if k > 0 { CountSplits(b, times, 1, k, j); }
        assert b.rate * Passed(times, k, j) >= 0.0;
      }
      AcceptedIff(b, times, j);
    }
  }

  /** Every configuration the server accepts: a positive rate and a burst of at least one. */
  predicate Configurable(rate: real, burst: nat) {
    rate > 0.0 && burst >= 1
  }

  /** The rate that earns one token in the given time. */
  lemma OneTokenIn(t: real) returns (rate: real)
    requires t > 0.0
    ensures rate > 0.0 && Worth(rate, t) == 1.0
  {
    rate := 1.0 / t;
  }

  lemma LessEarnsLess(rate: real, part: real, whole: real)
    requires rate > 0.0 && part < whole
    ensures Worth(rate, part) < Worth(rate, whole)
  {
    assert rate * (whole - part) > 0.0;
  }

  lemma BackEarnsBack(rate: real, t: real)
    ensures Worth(rate, -t) == -Worth(rate, t)
  {
  }

  /** A clock that went back breaks the limit of a burst of one whose token is earned in the forward time. */
  lemma BackwardClockBreaks(start: real, times: seq<real>, j: nat) returns (rate: real)
    requires j < |times| && !NeverBack(times, 0, j)
    ensures Configurable(rate, 1) && !WithinLimit(rate, 1, start, times, 0, j)
  {
    hide Count, Passed, NewBucket, Worth;
    PassedIsLength(times, 0, j);
    var passed, length := Passed(times, 0, j), times[j] - times[0];
    if passed > 0.0 {
      rate := OneTokenIn(passed);
      LessEarnsLess(rate, length, passed);
      SecondPasses(rate, start, times, j);
    } else {
      rate := OneTokenIn(-length);
      BackEarnsBack(rate, length);
      FirstPasses(rate, start, times);
      CountSplits(NewBucket(rate, 1, start), times, 0, 1, j + 1);
    }
  }

  /**
   Exactly when the limit holds from the first attempt on, whatever the configuration: when the clock has never
   gone back.
   */
  lemma RateBoundIff(start: real, times: seq<real>, j: nat)
    requires j < |times|
    ensures (forall rate, burst | Configurable(rate, burst) :: WithinLimit(rate, burst, start, times, 0, j))
       <==> NeverBack(times, 0, j)
  {
    hide WithinLimit, NeverBack;
    if NeverBack(times, 0, j) {
      forall rate, burst | Configurable(rate, burst) ensures WithinLimit(rate, burst, start, times, 0, j) {
        RateBound(rate, burst, start, times, 0, j);
      }
    } else {
      var rate := BackwardClockBreaks(start, times, j);
      assert Configurable(rate, 1);
    }
  }

  /** Exactly when every window of the attempts is within the limit, whatever the configuration. */
  lemma EveryWindowIff(start: real, times: seq<real>)
    requires times != []
    ensures (forall rate, burst, i, j | Configurable(rate, burst) && 0 <= i <= j < |times| ::
               WithinLimit(rate, burst, start, times, i, j))
       <==> NeverBack(times, 0, |times| - 1)
  {
    hide WithinLimit;
    if NeverBack(times, 0, |times| - 1) {
      forall rate, burst, i, j | Configurable(rate, burst) && 0 <= i <= j < |times|
        ensures WithinLimit(rate, burst, start, times, i, j)
      {
        RateBound(rate, burst, start, times, i, j);
      }
    } else {
      var rate := BackwardClockBreaks(start, times, |times| - 1);
      assert Configurable(rate, 1);
    }
  }

  lemma AttemptStep(b: Bucket, times: seq<real>, n: nat)
    requires n < |times|
    ensures After(b, times[..0]) == b
    ensures After(b, times[..n + 1]) == Take(After(b, times[..n]), times[n]).0
    ensures Count(b, times, 0, n + 1)
         == Count(b, times, 0, n) + (if Take(After(b, times[..n]), times[n]).1 then 1 else 0)
  {
    hide Take;
    assert times[..n + 1][..n] == times[..n];
  }

  lemma TakeAtOnePerSecond(b: Bucket, now: real)
    requires b.rate == 1.0
    ensures var tokens := MinReal(b.tokens + Elapsed(b.lastRefill, now), b.burst);
            Take(b, now) == (b.(tokens := if tokens < 1.0 then tokens else tokens - 1.0, lastRefill := now),
                             tokens >= 1.0)
  {
  }

  /** A clock that goes back and forth earns tokens twice: two attempts at the same instant pass a burst of one. */
  lemma BackwardClockExceeds(b: Bucket, t: real, back: real, times: seq<real>)
    requires b == Bucket(1.0, 1.0, 1.0, t) && back >= 1.0 && times == [t, t - back, t]
    ensures Count(b, times, 0, 3) == 2 && times[2] - times[0] == 0.0
  {
    hide After, Count, Take;
    AttemptStep(b, times, 0);
    TakeAtOnePerSecond(b, t);
    var b1 := b.(tokens := 0.0);
    assert After(b, times[..1]) == b1;
    AttemptStep(b, times, 1);
    TakeAtOnePerSecond(b1, t - back);
    var b2 := b1.(lastRefill := t - back);
    assert After(b, times[..2]) == b2;
    AttemptStep(b, times, 2);
    TakeAtOnePerSecond(b2, t);
    NoneYet(b, times);
  }

  lemma NoneYet(b: Bucket, times: seq<real>)
    ensures Count(b, times, 0, 0) == 0
  {
  }
}
