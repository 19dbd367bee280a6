/** Connection and request leases: permits, the accept bucket and the active gauges, under concurrency. */
module AdmissionLeases {
  import opened Admission

  type Ticket = nat

  /** Where an attempt, or the lease it became, stands. A refused attempt still holds its permit for a moment. */
  datatype Phase = Acquired | Admitted | Refused | Live | Dropping

  /** A semaphore with the attempts and leases that hold its permits, and the gauge of active leases. */
  datatype Pool = Pool(capacity: nat, permits: nat, tickets: map<Ticket, Phase>, gauge: int)

  /** Connections pass the bucket, requests do not; the bucket is kept with the instants it was asked at. */
  datatype System = System(connections: Pool, requests: Pool, bucket: Bucket, instants: seq<real>, passed: nat)

  function NewPool(capacity: nat): Pool {
    Pool(capacity, capacity, map[], 0)
  }

  function Initially(connections: nat, requests: nat, rate: real, burst: nat, start: real): System {
    System(NewPool(connections), NewPool(requests), NewBucket(rate, burst, start), [], 0)
  }

  datatype PoolStep =
    | Acquire(t: Ticket)
    | Activate(t: Ticket)
    | DropLease(t: Ticket)
    | ReleasePermit(t: Ticket)

  datatype Step =
    | OnConnections(step: PoolStep)
    | OnRequests(step: PoolStep)
    | TakeToken(t: Ticket, now: real)

  predicate At(p: Pool, t: Ticket, phase: Phase) {
    t in p.tickets && p.tickets[t] == phase
  }

  /** One step of a pool whose attempts may become leases once they are `ready`. */
  function Pooled(p: Pool, ready: Phase, step: PoolStep): Pool {
    match step
    case Acquire(t) =>
      if t in p.tickets || p.permits == 0 then p
      else p.(permits := p.permits - 1, tickets := p.tickets[t := Acquired])
    case Activate(t) =>
      if !At(p, t, ready) then p else p.(tickets := p.tickets[t := Live], gauge := p.gauge + 1)
    case DropLease(t) =>
      if !At(p, t, Live) then p else p.(tickets := p.tickets[t := Dropping], gauge := p.gauge - 1)
    case ReleasePermit(t) =>
      if !At(p, t, Dropping) && !At(p, t, Refused) then p else p.(tickets := p.tickets - {t}, permits := p.permits + 1)
  }

  function Next(s: System, step: Step): System {
    match step
    case OnConnections(step) => s.(connections := Pooled(s.connections, Admitted, step))
    case OnRequests(step) => s.(requests := Pooled(s.requests, Acquired, step))
    case TakeToken(t, now) =>
      if !At(s.connections, t, Acquired) then s else
      var (bucket, ok) := Take(s.bucket, now);
      var tickets := s.connections.tickets[t := if ok then Admitted else Refused];
      s.(
      bucket := bucket, instants := s.instants + [now],
      connections := s.connections.(tickets := tickets),
      passed := s.passed + (if ok then 1 else 0))
  }

  function After(initial: System, steps: seq<Step>): System {
    if steps == [] then initial else Next(After(initial, steps[..|steps| - 1]), steps[|steps| - 1])
  }

  function Leases(p: Pool): set<Ticket> {
    set t | t in p.tickets && p.tickets[t] == Live
  }

  /** Permits are conserved and the gauge counts the live leases. */
  predicate PoolInv(p: Pool) {
    p.permits + |p.tickets| == p.capacity && p.gauge == |Leases(p)|
  }

  /** Both pools are sound, and the bucket is that of the attempts made at it. */
  ghost predicate Inv(initial: System, s: System) {
    && PoolInv(s.connections) && s.connections.capacity == initial.connections.capacity
    && PoolInv(s.requests) && s.requests.capacity == initial.requests.capacity
    && s.bucket == Admission.After(initial.bucket, s.instants)
    && s.passed == Count(initial.bucket, s.instants, 0, |s.instants|)
  }

  lemma RemovedTicket(tickets: map<Ticket, Phase>, t: Ticket)
    requires t in tickets
    ensures |tickets - {t}| == |tickets| - 1
  {
    assert (tickets - {t}).Keys == tickets.Keys - {t};
    assert |(tickets - {t}).Keys| == |tickets - {t}| && |tickets.Keys| == |tickets|;
  }

  lemma SetTicket(tickets: map<Ticket, Phase>, t: Ticket, phase: Phase)
    ensures |tickets[t := phase]| == if t in tickets then |tickets| else |tickets| + 1
  {
    assert tickets[t := phase].Keys == tickets.Keys + {t};
    assert |tickets[t := phase].Keys| == |tickets[t := phase]| && |tickets.Keys| == |tickets|;
  }

  lemma LeasesMove(p: Pool, ready: Phase, step: PoolStep)
    requires ready != Live
    ensures var next := Pooled(p, ready, step);
            Leases(next) ==
            if step.Activate? && next != p then Leases(p) + {step.t}
            else if step.DropLease? && next != p then Leases(p) - {step.t}
            else Leases(p)
    ensures step.Activate? && Pooled(p, ready, step) != p ==> step.t !in Leases(p)
    ensures step.DropLease? && Pooled(p, ready, step) != p ==> step.t in Leases(p)
  {
  }

  lemma PoolStepKeeps(p: Pool, ready: Phase, step: PoolStep)
    requires PoolInv(p) && ready != Live
    ensures PoolInv(Pooled(p, ready, step)) && Pooled(p, ready, step).capacity == p.capacity
  {
    hide Leases;
    LeasesMove(p, ready, step);
    SetTicket(p.tickets, step.t, Acquired);
    SetTicket(p.tickets, step.t, Live);
    SetTicket(p.tickets, step.t, Dropping);
    if step.t in p.tickets { RemovedTicket(p.tickets, step.t); }
  }

  lemma TokenKeepsPool(p: Pool, t: Ticket, phase: Phase)
    requires PoolInv(p) && At(p, t, Acquired) && phase != Live
    ensures PoolInv(p.(tickets := p.tickets[t := phase]))
  {
    SetTicket(p.tickets, t, phase);
    assert Leases(p.(tickets := p.tickets[t := phase])) == Leases(p);
  }

  lemma {:induction false} CountAgrees(b: Bucket, times: seq<real>, more: seq<real>, j: nat)
    requires j <= |times| && times <= more
    ensures Count(b, times, 0, j) == Count(b, more, 0, j)
    decreases j
  {
    hide Take;
    if j > 0 {
      assert times[..j - 1] == more[..j - 1];
      CountAgrees(b, times, more, j - 1);
    }
  }

  lemma TokenKeepsBucket(initial: System, s: System, t: Ticket, now: real)
    requires Inv(initial, s) && At(s.connections, t, Acquired)
    ensures var next := Next(s, TakeToken(t, now));
            && next.bucket == Admission.After(initial.bucket, next.instants)
            && next.passed == Count(initial.bucket, next.instants, 0, |next.instants|)
  {
    hide Take, PoolInv;
    var times := s.instants + [now];
    assert times[..|s.instants|] == s.instants;
    CountAgrees(initial.bucket, s.instants, times, |s.instants|);
  }

  lemma StepKeepsInv(initial: System, s: System, step: Step)
    requires Inv(initial, s)
    ensures Inv(initial, Next(s, step))
  {
    hide Take, Count, PoolInv, Pooled;
    match step
    case OnConnections(step) => PoolStepKeeps(s.connections, Admitted, step);
    case OnRequests(step) => PoolStepKeeps(s.requests, Acquired, step);
    case TakeToken(t, now) =>
      if At(s.connections, t, Acquired) {
        TokenKeepsPool(s.connections, t, Admitted);
        TokenKeepsPool(s.connections, t, Refused);
        TokenKeepsBucket(initial, s, t, now);
      }
  }

  lemma {:induction false} RunsKeepInv(initial: System, steps: seq<Step>)
    requires Inv(initial, initial)
    ensures Inv(initial, After(initial, steps))
  {
    hide Inv, Next;
    if steps != [] {
      RunsKeepInv(initial, steps[..|steps| - 1]);
      StepKeepsInv(initial, After(initial, steps[..|steps| - 1]), steps[|steps| - 1]);
    }
  }

  lemma StartsRight(connections: nat, requests: nat, rate: real, burst: nat, start: real)
    ensures Inv(Initially(connections, requests, rate, burst, start),
                Initially(connections, requests, rate, burst, start))
  {
    assert Leases(NewPool(connections)) == {} == Leases(NewPool(requests));
  }

  /** The gauge is the number of live leases, within capacity, and once nothing holds a permit all are back. */
  predicate Accounted(p: Pool, capacity: nat) {
    && p.gauge == |Leases(p)| <= capacity
    && p.permits + |p.tickets| == capacity
    && (p.tickets == map[] ==> p.permits == capacity && p.gauge == 0)
  }

  lemma PoolIsAccounted(p: Pool)
    requires PoolInv(p)
    ensures Accounted(p, p.capacity)
  {
    LeasesAreTickets(p.tickets.Keys, Leases(p));
    assert |p.tickets.Keys| == |p.tickets|;
  }

  /** In every run, connections and requests alike are accounted for. */
  lemma LeasesWithinCapacity(connections: nat, requests: nat, rate: real, burst: nat, start: real, steps: seq<Step>)
    ensures var s := After(Initially(connections, requests, rate, burst, start), steps);
            Accounted(s.connections, connections) && Accounted(s.requests, requests)
  {
    hide After, Take, Count, PoolInv, Accounted;
    var initial := Initially(connections, requests, rate, burst, start);
    StartsRight(connections, requests, rate, burst, start);
    RunsKeepInv(initial, steps);
    PoolIsAccounted(After(initial, steps).connections);
    PoolIsAccounted(After(initial, steps).requests);
  }

  lemma {:induction false} LeasesAreTickets(tickets: set<Ticket>, leases: set<Ticket>)
    requires leases <= tickets
    ensures |leases| <= |tickets|
  {
    if leases != {} {
      var t :| t in leases;
      LeasesAreTickets(tickets - {t}, leases - {t});
    }
  }

  /** A rate-limited attempt, left alone, gives its permit back and leaves no trace but in the bucket. */
  lemma RateLimitedReturnsPermit(s: System, t: Ticket, now: real)
    requires t !in s.connections.tickets && s.connections.permits > 0 && !Take(s.bucket, now).1
    ensures Next(Next(Next(s, OnConnections(Acquire(t))), TakeToken(t, now)), OnConnections(ReleasePermit(t)))
         == s.(bucket := Take(s.bucket, now).0, instants := s.instants + [now])
  {
    hide Take;
    assert s.connections.tickets[t := Acquired][t := Refused] - {t} == s.connections.tickets;
  }

  /** And whatever else happens meanwhile, a refused attempt never becomes a lease: all it can do is release. */
  lemma RefusedOnlyReleases(s: System, step: Step, t: Ticket)
    requires At(s.connections, t, Refused)
    ensures At(Next(s, step).connections, t, Refused)
            || (step == OnConnections(ReleasePermit(t)) && t !in Next(s, step).connections.tickets
                && Next(s, step).connections.permits == s.connections.permits + 1)
  {
    hide Take;
  }

  /** However connections come and go, those admitted stay within burst plus rate times the time passed. */
  lemma AdmittedWithinRate(connections: nat, requests: nat, rate: real, burst: nat, start: real, steps: seq<Step>)
    requires rate >= 0.0
    ensures var s := After(Initially(connections, requests, rate, burst, start), steps);
            && (s.instants == [] ==> s.passed == 0)
            && (s.instants != [] ==> s.passed as real <= burst as real + rate * Passed(s.instants, 0, |s.instants| - 1))
  {
    hide After, Take, Count, Passed, PoolInv;
    var initial := Initially(connections, requests, rate, burst, start);
    StartsRight(connections, requests, rate, burst, start);
    RunsKeepInv(initial, steps);
    var s := After(initial, steps);
    NoneYet(initial.bucket, s.instants);
    if s.instants != [] { WindowBound(initial.bucket, s.instants, 0, |s.instants| - 1); }
  }

  // ---------------------------------------------------------------- a lease's life

  /** A new attempt gets a permit exactly while fewer attempts and leases than the capacity hold one. */
  lemma PermitsAreGiven(connections: nat, requests: nat, rate: real, burst: nat, start: real, steps: seq<Step>,
                        t: Ticket)
    ensures var s := After(Initially(connections, requests, rate, burst, start), steps);
            && (t !in s.connections.tickets ==>
                  (At(Next(s, OnConnections(Acquire(t))).connections, t, Acquired)
                   <==> |s.connections.tickets| < connections))
            && (t !in s.requests.tickets ==>
                  (At(Next(s, OnRequests(Acquire(t))).requests, t, Acquired) <==> |s.requests.tickets| < requests))
  {
    hide After, Leases;
    LeasesWithinCapacity(connections, requests, rate, burst, start, steps);
  }

  /** What a connection goes through: permit and token, the lease, its end, and the permit back. */
  lemma ConnectionLives(s: System, t: Ticket, now: real)
    requires t !in s.connections.tickets && s.connections.permits > 0 && Take(s.bucket, now).1
    ensures var admitted := Next(Next(s, OnConnections(Acquire(t))), TakeToken(t, now));
            var live := Next(admitted, OnConnections(Activate(t)));
            var over := Next(Next(live, OnConnections(DropLease(t))), OnConnections(ReleasePermit(t)));
            && At(live.connections, t, Live) && live.connections.gauge == s.connections.gauge + 1
            && live.connections.permits == s.connections.permits - 1 && live.passed == s.passed + 1
            && over.connections == s.connections && over.requests == s.requests
            && over.bucket == Take(s.bucket, now).0
  {
    hide Take;
    var tickets := s.connections.tickets;
    assert tickets[t := Acquired][t := Admitted][t := Live][t := Dropping] - {t} == tickets;
  }

  /** And a request, which needs no token. */
  lemma RequestLives(s: System, t: Ticket)
    requires t !in s.requests.tickets && s.requests.permits > 0
    ensures var live := Next(Next(s, OnRequests(Acquire(t))), OnRequests(Activate(t)));
            var over := Next(Next(live, OnRequests(DropLease(t))), OnRequests(ReleasePermit(t)));
            && At(live.requests, t, Live) && live.requests.gauge == s.requests.gauge + 1
            && live.requests.permits == s.requests.permits - 1
            && over == s
  {
    var tickets := s.requests.tickets;
    assert tickets[t := Acquired][t := Live][t := Dropping] - {t} == tickets;
  }

  // ---------------------------------------------------------------- the objects

  class TokenBucket {
    var tokens: real
    const rate: real
    const burst: real
    var lastRefill: real

    function State(): Bucket
      reads this
    {
      Bucket(tokens, rate, burst, lastRefill)
    }

    constructor (rate: real, burst: nat, now: real)
      ensures State() == NewBucket(rate, burst, now)
    {
      tokens, this.rate, this.burst, lastRefill := burst as real, rate, burst as real, now;
    }

    method TryTake(now: real) returns (ok: bool)
      modifies this
      ensures (State(), ok) == Take(old(State()), now)
    {
      var elapsed := if now < lastRefill then 0.0 else now - lastRefill;
      assert elapsed * rate == Earned(rate, lastRefill, now);
      tokens := tokens + elapsed * rate;
      if burst <= tokens {
        tokens := burst;
      }
      lastRefill := now;
      if tokens < 1.0 {
        return false;
      }
      tokens := tokens - 1.0;
      return true;
    }
  }

  datatype Verdict = Accepted | RateLimited | CapacityFull

  class AdmissionControl {
    const maxConnections: nat
    const maxRequests: nat
    const bucket: TokenBucket
    var connections: nat
    var requests: nat
    var connectionsActive: int
    var requestsActive: int

    /** Between calls every permit taken is an active lease. */
    ghost predicate Valid()
      reads this
    {
      connections + connectionsActive == maxConnections && requests + requestsActive == maxRequests
      && 0 <= connectionsActive && 0 <= requestsActive
    }

    constructor (maxConnections: nat, maxRequests: nat, rate: real, burst: nat, now: real)
      ensures Valid() && fresh(bucket) && bucket.State() == NewBucket(rate, burst, now)
      ensures connectionsActive == 0 == requestsActive && this.maxConnections == maxConnections
              && this.maxRequests == maxRequests
    {
      this.maxConnections, this.maxRequests := maxConnections, maxRequests;
      connections, requests, connectionsActive, requestsActive := maxConnections, maxRequests, 0, 0;
      bucket := new TokenBucket(rate, burst, now);
    }

    /** Capacity is asked first, and only then the bucket, which a full server leaves alone. */
    method TryConnection(now: real) returns (v: Verdict)
      requires Valid()
      modifies this`connections, this`connectionsActive, bucket
      ensures Valid()
      ensures v == if old(connectionsActive) == maxConnections then CapacityFull
                   else if Take(old(bucket.State()), now).1 then Accepted else RateLimited
      ensures bucket.State() == if v.CapacityFull? then old(bucket.State()) else Take(old(bucket.State()), now).0
      ensures connectionsActive == old(connectionsActive) + (if v.Accepted? then 1 else 0)
    {
      if connections == 0 {
        return CapacityFull;
      }
      connections := connections - 1;
      var ok := bucket.TryTake(now);
      if !ok {
        connections := connections + 1;
        return RateLimited;
      }
      connectionsActive := connectionsActive + 1;
      return Accepted;
    }

    method TryRequest() returns (accepted: bool)
      requires Valid()
      modifies this`requests, this`requestsActive
      ensures Valid() && accepted == (old(requestsActive) < maxRequests)
      ensures requestsActive == old(requestsActive) + (if accepted then 1 else 0)
    {
      if requests == 0 {
        return false;
      }
      requests, requestsActive := requests - 1, requestsActive + 1;
      return true;
    }

    method DropConnection()
      requires Valid() && connectionsActive > 0
      modifies this`connections, this`connectionsActive
      ensures Valid() && connectionsActive == old(connectionsActive) - 1
    {
      connectionsActive := connectionsActive - 1;
      connections := connections + 1;
    }

    method DropRequest()
      requires Valid() && requestsActive > 0
      modifies this`requests, this`requestsActive
      ensures Valid() && requestsActive == old(requestsActive) - 1
    {
      requestsActive := requestsActive - 1;
      requests := requests + 1;
    }
  }
}
