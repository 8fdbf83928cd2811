// The limiter of shared LLM capacity: some slots are kept for interactive callers.  Each
// section run under the condition's lock is one step; callers interleave between steps.

module SharedLimiter {
  import opened Common

  datatype Workload = Interactive | Bulk

  datatype Policy = Policy(total: int, reserved: int, maxWaiters: nat)

  predicate ValidPolicy(p: Policy) {
    3 <= p.total && 2 <= p.reserved < p.total
  }

  datatype Counters = Counters(activeInteractive: int, activeBulk: int, waitingInteractive: int, waitingBulk: int)

  datatype Admission = Granted | QueueFull | MustWait

  predicate CanAcquire(p: Policy, c: Counters, w: Workload) {
    && c.activeInteractive + c.activeBulk < p.total
    && (w.Interactive? || (c.waitingInteractive == 0 && c.activeBulk < p.total - p.reserved))
  }

  function AddActive(c: Counters, w: Workload, n: int): Counters {
    if w.Interactive? then c.(activeInteractive := c.activeInteractive + n) else c.(activeBulk := c.activeBulk + n)
  }

  function AddWaiting(c: Counters, w: Workload, n: int): Counters {
    if w.Interactive? then c.(waitingInteractive := c.waitingInteractive + n) else c.(waitingBulk := c.waitingBulk + n)
  }

  function Active(c: Counters, w: Workload): int {
    if w.Interactive? then c.activeInteractive else c.activeBulk
  }

  function Waiting(c: Counters, w: Workload): int {
    if w.Interactive? then c.waitingInteractive else c.waitingBulk
  }

  // Entering: a slot, a refusal, or a place in the queue.
  function Enter(p: Policy, c: Counters, w: Workload): (Counters, Admission) {
    if CanAcquire(p, c, w) then (AddActive(c, w, 1), Granted)
    else if c.waitingInteractive + c.waitingBulk >= p.maxWaiters then (c, QueueFull)
    else (AddWaiting(c, w, 1), MustWait)
  }

  class SharedLLMLimiter {
    const policy: Policy
    var activeInteractive: int
    var activeBulk: int
    var waitingInteractive: int
    var waitingBulk: int

    function State(): Counters
      reads this
    {
      Counters(activeInteractive, activeBulk, waitingInteractive, waitingBulk)
    }

    constructor (p: Policy)
      ensures policy == p && State() == Counters(0, 0, 0, 0)
    {
      policy := p;
      activeInteractive, activeBulk, waitingInteractive, waitingBulk := 0, 0, 0, 0;
    }

    method Acquire(w: Workload) returns (a: Admission)
      modifies this
      ensures (State(), a) == Enter(policy, old(State()), w)
    {
      if CanAcquire(policy, State(), w) {
        IncrementActive(w);
        return Granted;
      }
      if waitingInteractive + waitingBulk >= policy.maxWaiters {
        return QueueFull;
      }
      IncrementWaiting(w);
      a := MustWait;
    }

    // A waiter that found its condition true under the lock.
    method Wake(w: Workload)
      requires CanAcquire(policy, State(), w)
      modifies this
      ensures State() == AddWaiting(AddActive(old(State()), w, 1), w, -1)
    {
      IncrementActive(w);
      DecrementWaiting(w);
    }

    method TimeOut(w: Workload)
      modifies this
      ensures State() == AddWaiting(old(State()), w, -1)
    {
      DecrementWaiting(w);
    }

    // False stands for the error raised when nothing is active.
    method Release(w: Workload) returns (ok: bool)
      modifies this
      ensures ok <==> Active(old(State()), w) > 0
      ensures State() == if ok then AddActive(old(State()), w, -1) else old(State())
    {
      if w.Interactive? {
        if activeInteractive <= 0 {
          return false;
        }
        activeInteractive := activeInteractive - 1;
      } else {
        if activeBulk <= 0 {
          return false;
        }
        activeBulk := activeBulk - 1;
      }
      ok := true;
    }

    method IncrementActive(w: Workload)
      modifies this
      ensures State() == AddActive(old(State()), w, 1)
    {
      if w.Interactive? {
        activeInteractive := activeInteractive + 1;
      } else {
        activeBulk := activeBulk + 1;
      }
    }

    method IncrementWaiting(w: Workload)
      modifies this
      ensures State() == AddWaiting(old(State()), w, 1)
    {
      if w.Interactive? {
        waitingInteractive := waitingInteractive + 1;
      } else {
        waitingBulk := waitingBulk + 1;
      }
    }

    method DecrementWaiting(w: Workload)
      modifies this
      ensures State() == AddWaiting(old(State()), w, -1)
    {
      if w.Interactive? {
        waitingInteractive := waitingInteractive - 1;
      } else {
        waitingBulk := waitingBulk - 1;
      }
    }
  }

  // ---------------------------------------------------------------- interleavings

  // A lease is marked released before its slot is given back under the lock.
  datatype Phase = Held | Marked | Returned

  datatype Lease = Lease(workload: Workload, phase: Phase)

  datatype System = System(counters: Counters, leases: map<nat, Lease>, waiters: map<nat, Workload>, releaseErrors: nat)

  datatype Step =
    | Acquire(caller: nat, workload: Workload)
    | Wake(caller: nat)
    | TimeOut(caller: nat)
    | Release(lease: nat)
    | GiveBack(lease: nat)

  predicate Allowed(p: Policy, s: System, e: Step) {
    match e
    case Acquire(c, _) => c !in s.leases && c !in s.waiters
    case Wake(c) => c in s.waiters && CanAcquire(p, s.counters, s.waiters[c])
    case TimeOut(c) => c in s.waiters
    case Release(l) => l in s.leases
    case GiveBack(l) => l in s.leases && s.leases[l].phase.Marked?
  }

  function Next(p: Policy, s: System, e: Step): System
    requires Allowed(p, s, e)
  {
    match e
    case Acquire(c, w) =>
      var (counters, a) := Enter(p, s.counters, w);
      s.(counters := counters,
         leases := if a.Granted? then s.leases[c := Lease(w, Held)] else s.leases,
         waiters := if a.MustWait? then s.waiters[c := w] else s.waiters)
    case Wake(c) =>
      var w := s.waiters[c];
      s.(counters := AddWaiting(AddActive(s.counters, w, 1), w, -1), leases := s.leases[c := Lease(w, Held)], waiters := s.waiters - {c})
    case TimeOut(c) => s.(counters := AddWaiting(s.counters, s.waiters[c], -1), waiters := s.waiters - {c})
    case Release(l) =>
      // A second release returns at once.
      if s.leases[l].phase.Held? then s.(leases := s.leases[l := s.leases[l].(phase := Marked)]) else s
    case GiveBack(l) =>
      var w := s.leases[l].workload;
      if Active(s.counters, w) > 0 then
        s.(counters := AddActive(s.counters, w, -1), leases := s.leases[l := Lease(w, Returned)])
      else s.(leases := s.leases[l := Lease(w, Returned)], releaseErrors := s.releaseErrors + 1)
  }

  const Initial := System(Counters(0, 0, 0, 0), map[], map[], 0)

  function Run(p: Policy, steps: seq<Step>): Option<System> {
    if steps == [] then Some(Initial)
    else
      match Run(p, steps[..|steps| - 1])
      case None => None
      case Some(s) => if Allowed(p, s, steps[|steps| - 1]) then Some(Next(p, s, steps[|steps| - 1])) else None
  }

  // Leases of a workload whose slot has not come back.
  function Out(leases: map<nat, Lease>, w: Workload): set<nat> {
    set l | l in leases && leases[l].workload == w && !leases[l].phase.Returned?
  }

  function Queued(waiters: map<nat, Workload>, w: Workload): set<nat> {
    set c | c in waiters && waiters[c] == w
  }

  predicate Counted(s: System) {
    && (forall w :: Active(s.counters, w) == |Out(s.leases, w)|)
    && (forall w :: Waiting(s.counters, w) == |Queued(s.waiters, w)|)
  }

  predicate Safe(p: Policy, s: System) {
    && Counted(s)
    && s.counters.activeBulk <= p.total - p.reserved
    && s.counters.activeInteractive + s.counters.activeBulk <= p.total
    && s.counters.waitingInteractive + s.counters.waitingBulk <= p.maxWaiters
    && s.releaseErrors == 0
    && s.leases.Keys !! s.waiters.Keys
  }

  lemma LeaseAdded(leases: map<nat, Lease>, l: nat, w: Workload, v: Workload)
    requires l !in leases
    ensures |Out(leases[l := Lease(w, Held)], v)| == |Out(leases, v)| + One(v == w)
  {
    assert Out(leases[l := Lease(w, Held)], v) == Out(leases, v) + if v == w then {l} else {};
  }

  lemma LeaseReturned(leases: map<nat, Lease>, l: nat, v: Workload)
    requires l in leases && !leases[l].phase.Returned?
    ensures |Out(leases[l := Lease(leases[l].workload, Returned)], v)| == |Out(leases, v)| - One(v == leases[l].workload)
  {
    assert Out(leases[l := Lease(leases[l].workload, Returned)], v) == Out(leases, v) - {l};
    assert v == leases[l].workload ==> l in Out(leases, v);
  }

  lemma LeaseMarked(leases: map<nat, Lease>, l: nat, v: Workload)
    requires l in leases && leases[l].phase.Held?
    ensures Out(leases[l := leases[l].(phase := Marked)], v) == Out(leases, v)
  {
  }

  lemma WaiterAdded(waiters: map<nat, Workload>, c: nat, w: Workload, v: Workload)
    requires c !in waiters
    ensures |Queued(waiters[c := w], v)| == |Queued(waiters, v)| + One(v == w)
  {
    assert Queued(waiters[c := w], v) == Queued(waiters, v) + if v == w then {c} else {};
  }

  lemma WaiterGone(waiters: map<nat, Workload>, c: nat, v: Workload)
    requires c in waiters
    ensures |Queued(waiters - {c}, v)| == |Queued(waiters, v)| - One(v == waiters[c])
  {
    assert Queued(waiters - {c}, v) == Queued(waiters, v) - {c};
    assert v == waiters[c] ==> c in Queued(waiters, v);
  }

  lemma StepKeepsCounts(p: Policy, s: System, e: Step, v: Workload)
    requires Safe(p, s) && Allowed(p, s, e)
    ensures Active(Next(p, s, e).counters, v) == |Out(Next(p, s, e).leases, v)|
    ensures Waiting(Next(p, s, e).counters, v) == |Queued(Next(p, s, e).waiters, v)|
    ensures Next(p, s, e).releaseErrors == 0
  {
    match e
    case Acquire(c, w) =>
      LeaseAdded(s.leases, c, w, v);
      WaiterAdded(s.waiters, c, w, v);
    case Wake(c) =>
      assert c in s.waiters.Keys;
      LeaseAdded(s.leases, c, s.waiters[c], v);
      WaiterGone(s.waiters, c, v);
    case TimeOut(c) => WaiterGone(s.waiters, c, v);
    case Release(l) =>
      if s.leases[l].phase.Held? {
        LeaseMarked(s.leases, l, v);
      }
    case GiveBack(l) =>
      var w := s.leases[l].workload;
      assert l in Out(s.leases, w);
      assert Active(s.counters, w) == |Out(s.leases, w)|;
      LeaseReturned(s.leases, l, v);
  }

  lemma StepKeepsSafe(p: Policy, s: System, e: Step)
    requires ValidPolicy(p) && Safe(p, s) && Allowed(p, s, e)
    ensures Safe(p, Next(p, s, e))
  {
    forall v
      ensures Active(Next(p, s, e).counters, v) == |Out(Next(p, s, e).leases, v)|
      ensures Waiting(Next(p, s, e).counters, v) == |Queued(Next(p, s, e).waiters, v)|
    {
      StepKeepsCounts(p, s, e, v);
    }
    StepKeepsCounts(p, s, e, Bulk);
  }

  // Over all interleavings: the counters are the leases not yet given back and the callers
  // waiting, bulk leaves the reserve free, the queue is bounded, and no release fails.
  lemma {:induction false} EveryRunSafe(p: Policy, steps: seq<Step>)
    requires ValidPolicy(p) && Run(p, steps).Some?
    ensures Safe(p, Run(p, steps).value)
  {
    if steps != [] {
      EveryRunSafe(p, steps[..|steps| - 1]);
      StepKeepsSafe(p, Run(p, steps[..|steps| - 1]).value, steps[|steps| - 1]);
    }
  }

  // An interactive caller is let in at once while fewer than the reserved number are active.
  lemma ReserveAdmitsInteractive(p: Policy, steps: seq<Step>, caller: nat)
    requires ValidPolicy(p) && Run(p, steps).Some?
    requires Allowed(p, Run(p, steps).value, Acquire(caller, Interactive))
    requires |Out(Run(p, steps).value.leases, Interactive)| < p.reserved
    ensures var t := Next(p, Run(p, steps).value, Acquire(caller, Interactive));
            caller in t.leases && t.leases[caller] == Lease(Interactive, Held) && caller !in t.waiters
  {
    EveryRunSafe(p, steps);
  }

  // So is a waiting one: whenever it looks, fewer active than the reserve let it through.
  lemma ReserveWakesInteractive(p: Policy, steps: seq<Step>, caller: nat)
    requires ValidPolicy(p) && Run(p, steps).Some?
    requires caller in Run(p, steps).value.waiters && Run(p, steps).value.waiters[caller] == Interactive
    requires |Out(Run(p, steps).value.leases, Interactive)| < p.reserved
    ensures Allowed(p, Run(p, steps).value, Wake(caller))
    ensures var t := Next(p, Run(p, steps).value, Wake(caller));
            caller in t.leases && t.leases[caller] == Lease(Interactive, Held) && caller !in t.waiters
  {
    EveryRunSafe(p, steps);
  }

  // Bulk callers never take the last reserved slots, and never overtake a waiting interactive caller.
  lemma BulkYields(p: Policy, steps: seq<Step>, e: Step, lease: nat)
    requires ValidPolicy(p) && Run(p, steps).Some? && Allowed(p, Run(p, steps).value, e)
    requires var s, t := Run(p, steps).value, Next(p, Run(p, steps).value, e);
             lease !in s.leases && lease in t.leases && t.leases[lease].workload == Bulk
    ensures |Queued(Run(p, steps).value.waiters, Interactive)| == 0
    ensures |Out(Next(p, Run(p, steps).value, e).leases, Bulk)| <= p.total - p.reserved
  {
    EveryRunSafe(p, steps);
    StepKeepsSafe(p, Run(p, steps).value, e);
  }

  // Releasing again changes nothing, whenever it happens.
  lemma DoubleReleaseHarmless(p: Policy, s: System, l: nat)
    requires l in s.leases && !s.leases[l].phase.Held?
    ensures Next(p, s, Release(l)) == s
    ensures Next(p, Next(p, s, Release(l)), Release(l)) == s
  {
  }

  // What admits a caller, by the leases out and the callers waiting.
  predicate Admits(p: Policy, s: System, w: Workload) {
    && |Out(s.leases, Interactive)| + |Out(s.leases, Bulk)| < p.total
    && (w == Bulk ==> |Queued(s.waiters, Interactive)| == 0 && |Out(s.leases, Bulk)| < p.total - p.reserved)
  }

  // In every state a caller gets a lease at once exactly if it is admitted: a bulk caller gets
  // every slot outside the reserve as long as no interactive caller waits.  Otherwise it waits,
  // unless the queue is full, and then nothing changes.
  lemma AdmittedIff(p: Policy, steps: seq<Step>, caller: nat, w: Workload)
    requires ValidPolicy(p) && Run(p, steps).Some? && Allowed(p, Run(p, steps).value, Acquire(caller, w))
    ensures var s, t := Run(p, steps).value, Next(p, Run(p, steps).value, Acquire(caller, w));
            if Admits(p, s, w) then t.leases == s.leases[caller := Lease(w, Held)] && t.waiters == s.waiters
            else if |Queued(s.waiters, Interactive)| + |Queued(s.waiters, Bulk)| >= p.maxWaiters then t == s
            else t.waiters == s.waiters[caller := w] && t.leases == s.leases
  {
    EveryRunSafe(p, steps);
    assert Active(Run(p, steps).value.counters, Interactive) == |Out(Run(p, steps).value.leases, Interactive)|;
    assert Active(Run(p, steps).value.counters, Bulk) == |Out(Run(p, steps).value.leases, Bulk)|;
    assert Waiting(Run(p, steps).value.counters, Interactive) == |Queued(Run(p, steps).value.waiters, Interactive)|;
    assert Waiting(Run(p, steps).value.counters, Bulk) == |Queued(Run(p, steps).value.waiters, Bulk)|;
  }

  // A waiting caller may go on exactly if it is admitted, and then holds a lease.
  lemma WakesIff(p: Policy, steps: seq<Step>, caller: nat)
    requires ValidPolicy(p) && Run(p, steps).Some? && caller in Run(p, steps).value.waiters
    ensures var s := Run(p, steps).value;
            && (Allowed(p, s, Wake(caller)) <==> Admits(p, s, s.waiters[caller]))
            && (Allowed(p, s, Wake(caller)) ==>
                  Next(p, s, Wake(caller)).leases == s.leases[caller := Lease(s.waiters[caller], Held)]
                  && Next(p, s, Wake(caller)).waiters == s.waiters - {caller})
  {
    EveryRunSafe(p, steps);
    assert Active(Run(p, steps).value.counters, Interactive) == |Out(Run(p, steps).value.leases, Interactive)|;
    assert Active(Run(p, steps).value.counters, Bulk) == |Out(Run(p, steps).value.leases, Bulk)|;
    assert Waiting(Run(p, steps).value.counters, Interactive) == |Queued(Run(p, steps).value.waiters, Interactive)|;
  }
}
