// One provider's adaptive concurrency limit: additive growth after a window of healthy
// calls, halving after a rate limit or failure.  Sections under the lock are steps.

module AdaptivePool {
  import opened Common

  datatype Policy = Policy(initial: int, hardMax: int, window: int, maxWaiters: nat, retryMax: int)

  predicate ValidPolicy(p: Policy) {
    1 <= p.initial <= p.hardMax && 1 <= p.window && 1 <= p.retryMax <= 8
  }

  datatype Pool = Pool(providerLimit: int, resourceLimit: int, current: int, active: int, waiters: int, healthy: int)

  datatype Admission = Granted | QueueFull | MustWait

  function Limit(value: Option<int>, fallback: int): int {
    if value.Some? then value.value else fallback
  }

  predicate ValidLimit(value: Option<int>) {
    value.Some? ==> value.value >= 1
  }

  function EffectiveMax(p: Policy, s: Pool): int {
    Min(p.hardMax, Min(s.providerLimit, s.resourceLimit))
  }

  function Opened(p: Policy, provider: Option<int>, resource: Option<int>): Pool {
    var s := Pool(Limit(provider, p.hardMax), Limit(resource, p.hardMax), 1, 0, 0, 0);
    s.(current := Min(p.initial, EffectiveMax(p, s)))
  }

  function Enter(p: Policy, s: Pool): (Pool, Admission) {
    if s.active < s.current then (s.(active := s.active + 1), Granted)
    else if s.waiters >= p.maxWaiters then (s, QueueFull)
    else (s.(waiters := s.waiters + 1), MustWait)
  }

  function Updated(p: Policy, s: Pool, provider: Option<int>, resource: Option<int>): Pool {
    var t := s.(providerLimit := Limit(provider, p.hardMax), resourceLimit := Limit(resource, p.hardMax), healthy := 0);
    t.(current := Min(s.current, EffectiveMax(p, t)))
  }

  // A healthy call counts towards the window; anything else starts it again.
  function Succeeded(p: Policy, s: Pool, healthy: bool): Pool {
    if !healthy then s.(healthy := 0)
    else if s.healthy + 1 < p.window then s.(healthy := s.healthy + 1)
    else s.(healthy := 0, current := Min(s.current + 1, EffectiveMax(p, s)))
  }

  function Halved(s: Pool): Pool {
    s.(current := Max(1, s.current / 2), healthy := 0)
  }

  class AdaptiveProviderPool {
    const policy: Policy
    var providerLimit: int
    var resourceLimit: int
    var currentLimit: int
    var activeCount: int
    var waiterCount: int
    var healthySuccesses: int

    function State(): Pool
      reads this
    {
      Pool(providerLimit, resourceLimit, currentLimit, activeCount, waiterCount, healthySuccesses)
    }

    constructor (p: Policy, provider: Option<int>, resource: Option<int>)
      ensures policy == p && State() == Opened(p, provider, resource)
    {
      policy := p;
      providerLimit, resourceLimit := Limit(provider, p.hardMax), Limit(resource, p.hardMax);
      currentLimit := Min(p.initial, Min(p.hardMax, Min(Limit(provider, p.hardMax), Limit(resource, p.hardMax))));
      activeCount, waiterCount, healthySuccesses := 0, 0, 0;
    }

    method Acquire() returns (a: Admission)
      modifies this
      ensures (State(), a) == Enter(policy, old(State()))
    {
      if activeCount < currentLimit {
        activeCount := activeCount + 1;
        return Granted;
      }
      if waiterCount >= policy.maxWaiters {
        return QueueFull;
      }
      waiterCount := waiterCount + 1;
      a := MustWait;
    }

    method Wake()
      requires activeCount < currentLimit
      modifies this
      ensures State() == old(State()).(active := old(activeCount) + 1, waiters := old(waiterCount) - 1)
    {
      activeCount := activeCount + 1;
      waiterCount := waiterCount - 1;
    }

    method UpdateEffectiveMax(provider: Option<int>, resource: Option<int>) returns (ok: bool)
      modifies this
      ensures ok <==> ValidLimit(provider) && ValidLimit(resource)
      ensures State() == if ok then Updated(policy, old(State()), provider, resource) else old(State())
    {
      if !ValidLimit(provider) || !ValidLimit(resource) {
        return false;
      }
      providerLimit := Limit(provider, policy.hardMax);
      resourceLimit := Limit(resource, policy.hardMax);
      currentLimit := Min(currentLimit, Min(policy.hardMax, Min(providerLimit, resourceLimit)));
      healthySuccesses := 0;
      ok := true;
    }

    method RecordSuccess(healthy: bool, growthAllowed: bool) returns (grew: bool)
      modifies this
      ensures State() == Succeeded(policy, old(State()), healthy && growthAllowed)
      ensures grew <==> currentLimit > old(currentLimit)
    {
      if !healthy || !growthAllowed {
        healthySuccesses := 0;
        return false;
      }
      healthySuccesses := healthySuccesses + 1;
      if healthySuccesses < policy.window {
        return false;
      }
      healthySuccesses := 0;
      var newLimit := Min(currentLimit + 1, Min(policy.hardMax, Min(providerLimit, resourceLimit)));
      grew := newLimit > currentLimit;
      currentLimit := newLimit;
    }

    // Whether to retry is decided after the limit was halved.
    method RecordRateLimited(attempt: int) returns (retryable: bool)
      requires attempt >= 1
      modifies this
      ensures State() == Halved(old(State())) && retryable == (attempt < policy.retryMax)
    {
      currentLimit := Max(1, currentLimit / 2);
      healthySuccesses := 0;
      retryable := attempt < policy.retryMax;
    }

    method Release() returns (ok: bool)
      modifies this
      ensures ok <==> old(activeCount) > 0
      ensures State() == if ok then old(State()).(active := old(activeCount) - 1) else old(State())
    {
      if activeCount <= 0 {
        return false;
      }
      activeCount := activeCount - 1;
      ok := true;
    }
  }

  // ---------------------------------------------------------------- interleavings

  // A lease is marked released before its slot is given back under the lock.
  datatype Phase = Held | Marked | Returned

  // `successes` and `growths` only record the history of a run.
  datatype System = System(pool: Pool, leases: map<nat, Phase>, waiting: set<nat>, releaseErrors: nat, successes: nat, growths: nat)

  datatype Step =
    | Acquire(caller: nat)
    | Wake(caller: nat)
    | TimeOut(caller: nat)
    | Release(lease: nat)
    | GiveBack(lease: nat)
    | UpdateEffectiveMax(provider: Option<int>, resource: Option<int>)
    | RecordSuccess(healthy: bool)
    | Halve

  predicate Allowed(s: System, e: Step) {
    match e
    case Acquire(c) => c !in s.leases && c !in s.waiting
    case Wake(c) => c in s.waiting && s.pool.active < s.pool.current
    case TimeOut(c) => c in s.waiting
    case Release(l) => l in s.leases
    case GiveBack(l) => l in s.leases && s.leases[l].Marked?
    case UpdateEffectiveMax(provider, resource) => ValidLimit(provider) && ValidLimit(resource)
    case _ => true
  }

  function Next(p: Policy, s: System, e: Step): System
    requires Allowed(s, e)
  {
    match e
    case Acquire(c) =>
      var (pool, a) := Enter(p, s.pool);
      s.(pool := pool,
         leases := if a.Granted? then s.leases[c := Held] else s.leases,
         waiting := if a.MustWait? then s.waiting + {c} else s.waiting)
    case Wake(c) =>
      s.(pool := s.pool.(active := s.pool.active + 1, waiters := s.pool.waiters - 1), leases := s.leases[c := Held], waiting := s.waiting - {c})
    case TimeOut(c) => s.(pool := s.pool.(waiters := s.pool.waiters - 1), waiting := s.waiting - {c})
    case Release(l) => if s.leases[l].Held? then s.(leases := s.leases[l := Marked]) else s
    case GiveBack(l) =>
      if s.pool.active > 0 then s.(pool := s.pool.(active := s.pool.active - 1), leases := s.leases[l := Returned])
      else s.(leases := s.leases[l := Returned], releaseErrors := s.releaseErrors + 1)
    case UpdateEffectiveMax(provider, resource) => s.(pool := Updated(p, s.pool, provider, resource))
    case RecordSuccess(healthy) =>
      var pool := Succeeded(p, s.pool, healthy);
      s.(pool := pool, successes := s.successes + if healthy then 1 else 0,
         growths := s.growths + if pool.current > s.pool.current then 1 else 0)
    case Halve => s.(pool := Halved(s.pool))
  }

  function Start(p: Policy, provider: Option<int>, resource: Option<int>): System {
    System(Opened(p, provider, resource), map[], {}, 0, 0, 0)
  }

  function Run(p: Policy, start: System, steps: seq<Step>): Option<System> {
    if steps == [] then Some(start)
    else
      match Run(p, start, steps[..|steps| - 1])
      case None => None
      case Some(s) => if Allowed(s, steps[|steps| - 1]) then Some(Next(p, s, steps[|steps| - 1])) else None
  }

  function Out(leases: map<nat, Phase>): set<nat> {
    set l | l in leases && !leases[l].Returned?
  }

  predicate Bounded(p: Policy, s: System) {
    && 1 <= s.pool.providerLimit && 1 <= s.pool.resourceLimit
    && 1 <= s.pool.current <= EffectiveMax(p, s.pool) <= p.hardMax
    && s.pool.active <= p.hardMax
    && s.pool.waiters <= p.maxWaiters
    && 0 <= s.pool.healthy < p.window
    && s.growths * p.window + s.pool.healthy <= s.successes
  }

  predicate Counted(s: System) {
    && s.pool.active == |Out(s.leases)|
    && s.pool.waiters == |s.waiting|
    && Apart(s)
    && s.releaseErrors == 0
  }

  lemma LeaseAdded(leases: map<nat, Phase>, l: nat)
    requires l !in leases
    ensures |Out(leases[l := Held])| == |Out(leases)| + 1
  {
    assert Out(leases[l := Held]) == Out(leases) + {l};
  }

  lemma LeaseReturned(leases: map<nat, Phase>, l: nat)
    requires l in leases && !leases[l].Returned?
    ensures |Out(leases)| > 0 && |Out(leases[l := Returned])| == |Out(leases)| - 1
  {
    assert l in Out(leases);
    assert Out(leases[l := Returned]) == Out(leases) - {l};
  }

  lemma LeaseMarked(leases: map<nat, Phase>, l: nat)
    requires l in leases && leases[l].Held?
    ensures |Out(leases[l := Marked])| == |Out(leases)|
  {
    assert Out(leases[l := Marked]) == Out(leases);
  }

  lemma StepKeepsLeases(p: Policy, s: System, e: Step)
    requires s.pool.active == |Out(s.leases)| && s.releaseErrors == 0 && Allowed(s, e) && (e.Wake? ==> e.caller !in s.leases)
    ensures Next(p, s, e).pool.active == |Out(Next(p, s, e).leases)| && Next(p, s, e).releaseErrors == 0
  {
    match e
    case Acquire(c) => LeaseAdded(s.leases, c);
    case Wake(c) => LeaseAdded(s.leases, c);
    case Release(l) =>
      if s.leases[l].Held? {
        LeaseMarked(s.leases, l);
      }
    case GiveBack(l) => LeaseReturned(s.leases, l);
    case _ =>
  }

  lemma WaiterAdded(s: set<nat>, c: nat)
    requires c !in s
    ensures |s + {c}| == |s| + 1
  {
  }

  lemma WaiterGone(s: set<nat>, c: nat)
    requires c in s
    ensures |s - {c}| == |s| - 1
  {
  }

  lemma AcquireKeepsWaiters(p: Policy, s: System, c: nat)
    requires s.pool.waiters == |s.waiting| && c !in s.waiting && c !in s.leases
    ensures Next(p, s, Acquire(c)).pool.waiters == |Next(p, s, Acquire(c)).waiting|
  {
    if Enter(p, s.pool).1.MustWait? {
      WaiterAdded(s.waiting, c);
    }
  }

  lemma WakeKeepsWaiters(p: Policy, s: System, e: Step)
    requires s.pool.waiters == |s.waiting| && (e.Wake? || e.TimeOut?) && Allowed(s, e)
    ensures Next(p, s, e).pool.waiters == |Next(p, s, e).waiting|
  {
    WaiterGone(s.waiting, e.caller);
  }

  lemma StepKeepsWaiters(p: Policy, s: System, e: Step)
    requires s.pool.waiters == |s.waiting| && Allowed(s, e)
    ensures Next(p, s, e).pool.waiters == |Next(p, s, e).waiting|
  {
    match e
    case Acquire(c) => AcquireKeepsWaiters(p, s, c);
    case Wake(c) => WakeKeepsWaiters(p, s, e);
    case TimeOut(c) => WakeKeepsWaiters(p, s, e);
    case _ =>
  }

  predicate Apart(s: System) {
    forall c :: c in s.waiting ==> c !in s.leases
  }

  lemma StepKeepsApart(p: Policy, s: System, e: Step)
    requires Apart(s) && Allowed(s, e)
    ensures Apart(Next(p, s, e))
  {
  }

  lemma StepKeepsCounts(p: Policy, s: System, e: Step)
    requires Counted(s) && Allowed(s, e)
    ensures Counted(Next(p, s, e))
  {
    StepKeepsApart(p, s, e);
    StepKeepsWaiters(p, s, e);
    StepKeepsLeases(p, s, e);
  }

  lemma StepKeepsBounds(p: Policy, s: System, e: Step)
    requires ValidPolicy(p) && Bounded(p, s) && Counted(s) && Allowed(s, e)
    ensures Bounded(p, Next(p, s, e))
  {
    if e.RecordSuccess? {
      var t := Next(p, s, e);
      if t.growths > s.growths {
        assert t.growths * p.window == s.growths * p.window + p.window;
      }
    }
  }

  // Over all interleavings: the limit stays within its bounds, activity within the hard
  // maximum, the counts are the leases and waiters, and releases never fail.
  lemma {:induction false} EveryRunBounded(p: Policy, provider: Option<int>, resource: Option<int>, steps: seq<Step>)
    requires ValidPolicy(p) && ValidLimit(provider) && ValidLimit(resource) && Run(p, Start(p, provider, resource), steps).Some?
    ensures Bounded(p, Run(p, Start(p, provider, resource), steps).value) && Counted(Run(p, Start(p, provider, resource), steps).value)
  {
    if steps == [] {
      assert Out(map[]) == {};
    } else {
      var front := steps[..|steps| - 1];
      EveryRunBounded(p, provider, resource, front);
      var s := Run(p, Start(p, provider, resource), front).value;
      StepKeepsCounts(p, s, steps[|steps| - 1]);
      StepKeepsBounds(p, s, steps[|steps| - 1]);
    }
  }

  // The limit grows by one, only on a healthy success, and only when that completes a window.
  lemma GrowsByOnePerWindow(p: Policy, s: System, e: Step)
    requires ValidPolicy(p) && Bounded(p, s) && Allowed(s, e) && Next(p, s, e).pool.current > s.pool.current
    ensures e == RecordSuccess(true) && s.pool.healthy == p.window - 1
    ensures Next(p, s, e).pool.current == s.pool.current + 1 && Next(p, s, e).pool.healthy == 0
  {
  }

  // New work starts only below the current limit, so never beyond the hard maximum.
  lemma ActivatesWithinLimit(p: Policy, s: System, e: Step)
    requires ValidPolicy(p) && Bounded(p, s) && Allowed(s, e) && Next(p, s, e).pool.active > s.pool.active
    ensures Next(p, s, e).pool.active <= s.pool.current <= p.hardMax
    ensures e.Acquire? || e.Wake?
  {
  }

  // In every state a caller gets a slot at once exactly below the limit; otherwise it waits,
  // unless the queue is full, and then nothing changes.
  lemma AdmittedIff(p: Policy, provider: Option<int>, resource: Option<int>, steps: seq<Step>, caller: nat)
    requires ValidPolicy(p) && ValidLimit(provider) && ValidLimit(resource) && Run(p, Start(p, provider, resource), steps).Some?
    requires Allowed(Run(p, Start(p, provider, resource), steps).value, Acquire(caller))
    ensures var s := Run(p, Start(p, provider, resource), steps).value;
            var t := Next(p, s, Acquire(caller));
            if |Out(s.leases)| < s.pool.current then t.leases == s.leases[caller := Held] && t.waiting == s.waiting
            else if |s.waiting| >= p.maxWaiters then t == s
            else t.waiting == s.waiting + {caller} && t.leases == s.leases
  {
    EveryRunBounded(p, provider, resource, steps);
  }

  function Healthy(n: nat): seq<Step> {
    seq(n, _ => RecordSuccess(true))
  }

  lemma HealthyMore(n: nat)
    requires n > 0
    ensures Healthy(n)[..n - 1] == Healthy(n - 1) && Healthy(n)[n - 1] == RecordSuccess(true)
  {
  }

  // Before the window is complete healthy calls are only counted.
  lemma {:induction false} WindowFills(p: Policy, start: System, n: nat)
    requires ValidPolicy(p) && start.pool.healthy + n < p.window
    ensures Run(p, start, Healthy(n)).Some?
    ensures Run(p, start, Healthy(n)).value.pool == start.pool.(healthy := start.pool.healthy + n)
  {
    if n > 0 {
      HealthyMore(n);
      WindowFills(p, start, n - 1);
    }
  }

  // The healthy call that completes the window raises the limit by one, below the three
  // maximums, and the next window starts.
  lemma FullWindowGrows(p: Policy, start: System)
    requires ValidPolicy(p) && 0 <= start.pool.healthy < p.window
    ensures var end := Run(p, start, Healthy(p.window - start.pool.healthy));
            && end.Some? && end.value.pool.healthy == 0
            && (start.pool.current < p.hardMax && start.pool.current < start.pool.providerLimit && start.pool.current < start.pool.resourceLimit ==>
                  end.value.pool.current == start.pool.current + 1)
            && (start.pool.current == p.hardMax || start.pool.current == start.pool.providerLimit || start.pool.current == start.pool.resourceLimit ==>
                  end.value.pool.current <= start.pool.current)
  {
    var n := p.window - start.pool.healthy;
    HealthyMore(n);
    WindowFills(p, start, n - 1);
  }

  // A rate limit leaves half of the limit, rounded down, and at least one; it starts the window
  // again, and so does an unhealthy call.
  lemma RateLimitHalves(p: Policy, s: System)
    requires s.pool.current >= 1
    ensures var t := Next(p, s, Halve);
            && t.pool.healthy == 0 && t.pool.current >= 1
            && (s.pool.current >= 2 ==> 2 * t.pool.current <= s.pool.current <= 2 * t.pool.current + 1)
            && t.pool.active == s.pool.active && t.leases == s.leases && t.waiting == s.waiting
    ensures Next(p, s, RecordSuccess(false)).pool == s.pool.(healthy := 0)
  {
  }

  // New maximums cut the limit down to the smallest of them, and never raise it.
  lemma UpdateCuts(p: Policy, s: System, provider: Option<int>, resource: Option<int>)
    requires ValidPolicy(p) && ValidLimit(provider) && ValidLimit(resource)
    ensures var t := Next(p, s, UpdateEffectiveMax(provider, resource));
            && t.pool.current <= s.pool.current && t.pool.current <= p.hardMax
            && (provider.Some? ==> t.pool.current <= provider.value) && (resource.Some? ==> t.pool.current <= resource.value)
            && (t.pool.current == s.pool.current || t.pool.current == p.hardMax
                || Some(t.pool.current) == provider || Some(t.pool.current) == resource)
            && t.pool.healthy == 0 && t.pool.active == s.pool.active
  {
  }

  // A pool opens at its initial limit, or at the smallest maximum if that is less.
  lemma OpensAt(p: Policy, provider: Option<int>, resource: Option<int>)
    requires ValidPolicy(p) && ValidLimit(provider) && ValidLimit(resource)
    ensures var s := Start(p, provider, resource); s.leases == map[] && s.waiting == {} && s.successes == 0 && s.growths == 0 && s.releaseErrors == 0
    ensures var c := Start(p, provider, resource).pool.current;
            && c <= p.initial && (provider.Some? ==> c <= provider.value) && (resource.Some? ==> c <= resource.value)
            && (c == p.initial || Some(c) == provider || Some(c) == resource)
  {
  }
}
