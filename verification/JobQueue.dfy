// The leased job queue.  Every operation is a function on queues; the in-memory repository
// is proved equal to them, and the PostgreSQL statements are the same functions with a free
// choice of candidate.  Clock readings are parameters and need not even be monotone.

module JobQueue {
  import opened Common
  import FactGraph
  import AgeWriter
  import GraphWriter

  // A graph write as approved; digests stand for what they digest.
  datatype GraphOrder = GraphOrder(batchId: FactGraph.BatchId, key: FactGraph.IdempotencyKey,
                                   projection: FactGraph.Projection, approval: AgeWriter.Approval)

  datatype Payload = MetadataOnly(request: string) | SingleDocument(request: string) | GraphWrite(order: GraphOrder)

  datatype JobResult = IngestionResult(summary: string) | GraphResult(written: GraphWriter.WriteResult)

  datatype Status = Queued | Running | RetryWait | Succeeded | FailedPermanent | Cancelled

  datatype Record = Record(jobId: nat, payload: Payload, status: Status, attempt: int, maxAttempts: int, availableAt: int,
                           leaseOwner: Option<string>, leaseToken: int, leaseUntil: Option<int>,
                           result: Option<JobResult>, lastError: Option<string>)

  datatype Lease = Lease(record: Record, worker: string, token: int, until: int)

  // Idempotency keys are free constructors of the payload, so the payload is the key.
  datatype Queue = Queue(items: map<nat, Record>, byKey: map<Payload, nat>)

  datatype JobError = InvalidRequest | ReviewOutboxRequired | LeaseLost

  const SECOND := 1_000_000

  // ---------------------------------------------------------------- records

  predicate Terminal(s: Status) {
    s in {Succeeded, FailedPermanent, Cancelled}
  }

  // The validator of stored records.
  predicate ValidState(r: Record) {
    && 0 <= r.attempt <= 8 && 1 <= r.maxAttempts <= 8 && 0 <= r.leaseToken
    && r.attempt <= r.maxAttempts
    && (r.status == Queued ==> r.attempt == 0)
    && (r.status == RetryWait ==> r.attempt < r.maxAttempts)
    && (r.leaseOwner.Some? <==> r.leaseUntil.Some?)
    && (r.status == Running ==> r.leaseOwner.Some? && r.leaseToken >= 1 && r.attempt >= 1)
    && (r.status != Running ==> r.leaseOwner.None?)
    && (r.result.Some? <==> r.status == Succeeded)
    && (r.lastError.Some? <==> r.status in {RetryWait, FailedPermanent})
  }

  function Fresh(id: nat, payload: Payload, maxAttempts: int, now: int): Record {
    Record(id, payload, Queued, 0, maxAttempts, now, None, 0, None, None, None)
  }

  predicate Expired(r: Record, now: int) {
    r.status == Running && r.leaseUntil.Some? && r.leaseUntil.value <= now
  }

  predicate Due(r: Record, now: int) {
    (r.status in {Queued, RetryWait} && r.availableAt <= now) || Expired(r, now)
  }

  predicate Claimable(r: Record, now: int) {
    Due(r, now) && r.attempt < r.maxAttempts
  }

  predicate Exhausted(r: Record, now: int) {
    Expired(r, now) && r.attempt >= r.maxAttempts
  }

  function Start(r: Record, worker: string, until: int): Record {
    r.(status := Running, attempt := r.attempt + 1, leaseOwner := Some(worker), leaseToken := r.leaseToken + 1,
       leaseUntil := Some(until), lastError := None)
  }

  function Expire(r: Record): Record {
    r.(status := FailedPermanent, leaseOwner := None, leaseUntil := None, lastError := Some("worker.lease_expired"))
  }

  function Completed(r: Record, result: JobResult): Record {
    r.(status := Succeeded, leaseOwner := None, leaseUntil := None, result := Some(result))
  }

  function Failed(r: Record, code: string, retry: bool, at: int): Record {
    r.(status := if retry then RetryWait else FailedPermanent, availableAt := at, leaseOwner := None, leaseUntil := None,
       lastError := Some(code))
  }

  predicate LowerOrDigit(c: char) {
    'a' <= c <= 'z' || '0' <= c <= '9'
  }

  predicate SafeCode(code: string) {
    1 <= |code| <= 100 && LowerOrDigit(code[0]) && forall i :: 1 <= i < |code| ==> LowerOrDigit(code[i]) || code[i] in {'_', '.', '-'}
  }

  predicate SafeWorker(worker: string) {
    && 1 <= |worker| <= 128
    && (LowerOrDigit(worker[0]) || 'A' <= worker[0] <= 'Z')
    && forall i :: 1 <= i < |worker| ==> LowerOrDigit(worker[i]) || 'A' <= worker[i] <= 'Z' || worker[i] in {'_', '.', ':', '-'}
  }

  function CodeOf(code: string): string {
    if SafeCode(code) then code else "worker.dependency_failure"
  }

  function LeaseOf(r: Record, worker: string, until: int): Lease {
    Lease(r, worker, r.leaseToken, until)
  }

  // ---------------------------------------------------------------- operations on queues

  function AfterEnqueue(q: Queue, payload: Payload, maxAttempts: int, newId: nat, now: int): (Queue, Result<Record, JobError>) {
    if payload.GraphWrite? then (q, Err(ReviewOutboxRequired))
    else AfterInsert(q, payload, maxAttempts, newId, now)
  }

  // Also the outbox insert of an approved review.
  function AfterInsert(q: Queue, payload: Payload, maxAttempts: int, newId: nat, now: int): (Queue, Result<Record, JobError>) {
    if payload in q.byKey && q.byKey[payload] in q.items then (q, Ok(q.items[q.byKey[payload]]))
    else if !(1 <= maxAttempts <= 8) then (q, Err(InvalidRequest))
    else
      var r := Fresh(newId, payload, maxAttempts, now);
      (Queue(q.items[newId := r], q.byKey[payload := newId]), Ok(r))
  }

  // Claim `choice`, and give up on the exhausted jobs among `swept`.
  function AfterClaim(items: map<nat, Record>, choice: Option<nat>, swept: set<nat>, worker: string, now: int, until: int): map<nat, Record> {
    map id | id in items ::
      if choice == Some(id) then Start(items[id], worker, until)
      else if id in swept && Exhausted(items[id], now) then Expire(items[id])
      else items[id]
  }

  predicate MayClaim(items: map<nat, Record>, choice: Option<nat>, now: int) {
    choice.Some? ==> choice.value in items && Claimable(items[choice.value], now)
  }

  predicate Leased(q: Queue, lease: Lease, now: int) {
    && lease.record.jobId in q.items
    && var r := q.items[lease.record.jobId];
    && r.status == Running
    && r.leaseOwner == Some(lease.worker)
    && r.leaseToken == lease.token
    && r.leaseUntil.Some? && r.leaseUntil.value > now
  }

  function AfterRenew(q: Queue, lease: Lease, seconds: int, t0: int, t1: int): (Queue, Result<Lease, JobError>) {
    if seconds < 1 then (q, Err(InvalidRequest))
    else if !Leased(q, lease, t0) then (q, Err(LeaseLost))
    else
      var until := t1 + seconds * SECOND;
      var r := q.items[lease.record.jobId].(leaseUntil := Some(until));
      (q.(items := q.items[lease.record.jobId := r]), Ok(Lease(r, lease.worker, lease.token, until)))
  }

  function AfterComplete(q: Queue, lease: Lease, result: JobResult, now: int): (Queue, Result<Record, JobError>) {
    var id := lease.record.jobId;
    if id in q.items && q.items[id].status == Succeeded then
      (q, if q.items[id].result == Some(result) && q.items[id].leaseToken == lease.token then Ok(q.items[id]) else Err(LeaseLost))
    else if !Leased(q, lease, now) then (q, Err(LeaseLost))
    else
      var r := Completed(q.items[id], result);
      (q.(items := q.items[id := r]), Ok(r))
  }

  // A stored failure with the same token and code answers the call again.
  predicate FailureStored(q: Queue, lease: Lease, code: string) {
    && lease.record.jobId in q.items
    && var r := q.items[lease.record.jobId];
    && r.leaseToken == lease.token && r.status in {RetryWait, FailedPermanent} && r.lastError == Some(CodeOf(code))
  }

  function AfterFail(q: Queue, lease: Lease, code: string, retryable: bool, delay: int, t0: int, t1: int): (Queue, Result<Record, JobError>) {
    var id := lease.record.jobId;
    if delay < 0 then (q, Err(InvalidRequest))
    else if FailureStored(q, lease, code) then (q, Ok(q.items[id]))
    else if !Leased(q, lease, t0) then (q, Err(LeaseLost))
    else
      var retry := retryable && q.items[id].attempt < q.items[id].maxAttempts;
      var r := Failed(q.items[id], CodeOf(code), retry, t1 + if retry then delay * SECOND else 0);
      (q.(items := q.items[id := r]), Ok(r))
  }

  // The PostgreSQL statement decides on the retry from the caller's snapshot of the record, and
  // clears the result.
  function AfterPostgresFail(q: Queue, lease: Lease, code: string, retryable: bool, delay: int, now: int): (Queue, Result<Record, JobError>) {
    var id := lease.record.jobId;
    var retry := retryable && lease.record.attempt < lease.record.maxAttempts;
    if delay < 0 then (q, Err(InvalidRequest))
    else if Leased(q, lease, now) then
      var r := Failed(q.items[id], CodeOf(code), retry, now + if retry then delay * SECOND else 0).(result := None);
      (q.(items := q.items[id := r]), Ok(r))
    else if FailureStored(q, lease, code) && q.items[id].status == (if retry then RetryWait else FailedPermanent) then (q, Ok(q.items[id]))
    else (q, Err(LeaseLost))
  }

  // ---------------------------------------------------------------- the in-memory repository

  // The smallest claimable job, in the order the repository walks its dictionary.
  predicate IsFirst(items: map<nat, Record>, now: int, first: Option<nat>) {
    match first
    case None => forall id :: id in items ==> !Claimable(items[id], now)
    case Some(c) => c in items && Claimable(items[c], now) && forall id :: id in items && id < c ==> !Claimable(items[id], now)
  }

  function Preceding(items: map<nat, Record>, first: Option<nat>): set<nat> {
    set id | id in items && (first.None? || id < first.value)
  }

  function ClaimedId(lease: Option<Lease>): Option<nat> {
    if lease.None? then None else Some(lease.value.record.jobId)
  }

  // The walk has left only `rest`, all of it still ahead, and has claimed nothing.
  predicate SweptSoFar(before: map<nat, Record>, items: map<nat, Record>, rest: set<nat>, now: int) {
    && rest <= items.Keys == before.Keys
    && (forall a, b :: a in items && a !in rest && b in rest ==> a < b)
    && (forall id :: id in items && id !in rest ==> !Claimable(before[id], now))
    && (forall id :: id in items ==> items[id] == if id !in rest && Exhausted(before[id], now) then Expire(before[id]) else before[id])
  }

  lemma SweepStep(before: map<nat, Record>, items: map<nat, Record>, rest: set<nat>, id: nat, now: int)
    requires SweptSoFar(before, items, rest, now) && id in rest && forall j :: j in rest ==> id <= j
    ensures items[id] == before[id]
    ensures Exhausted(items[id], now) ==> SweptSoFar(before, items[id := Expire(items[id])], rest - {id}, now)
    ensures !Claimable(items[id], now) && !Exhausted(items[id], now) ==> SweptSoFar(before, items, rest - {id}, now)
  {
  }

  lemma SweepEnds(before: map<nat, Record>, items: map<nat, Record>, rest: set<nat>, choice: Option<nat>, worker: string, now: int, until: int)
    requires SweptSoFar(before, items, rest, now)
    requires if choice.None? then rest == {} else choice.value in rest && forall id :: id in rest ==> choice.value <= id
    ensures AfterClaim(before, choice, Preceding(before, choice), worker, now, until) ==
            if choice.None? then items else items[choice.value := Start(before[choice.value], worker, until)]
  {
  }

  // ---------------------------------------------------------------- claims, by the fields of a record

  // Waiting and due, or running under a lease that has ended.
  predicate Waits(r: Record, now: int) {
    match r.status
    case Queued => r.availableAt <= now
    case RetryWait => r.availableAt <= now
    case Running => r.leaseUntil.Some? && r.leaseUntil.value <= now
    case _ => false
  }

  predicate TakenFrom(a: Record, b: Record, worker: string, until: int) {
    && b.status == Running && b.leaseOwner == Some(worker) && b.leaseUntil == Some(until)
    && b.attempt == a.attempt + 1 && b.leaseToken == a.leaseToken + 1 && b.lastError.None?
    && b.jobId == a.jobId && b.payload == a.payload && b.maxAttempts == a.maxAttempts && b.availableAt == a.availableAt
  }

  predicate GivenUp(a: Record, b: Record) {
    && b.status == FailedPermanent && b.leaseOwner.None? && b.leaseUntil.None? && b.lastError == Some("worker.lease_expired")
    && b.jobId == a.jobId && b.payload == a.payload && b.maxAttempts == a.maxAttempts && b.availableAt == a.availableAt
    && b.attempt == a.attempt && b.leaseToken == a.leaseToken && b.result == a.result
  }

  // A claim takes the chosen job, which was waiting with attempts left, gives up on the jobs in
  // `swept` whose last lease has ended, and touches nothing else: no live lease, no job that is
  // not due, no job that is done.
  predicate Takes(before: map<nat, Record>, after: map<nat, Record>, choice: Option<nat>, swept: set<nat>, worker: string, now: int, until: int) {
    && after.Keys == before.Keys
    && (choice.Some? ==>
          choice.value in before && Waits(before[choice.value], now) && before[choice.value].attempt < before[choice.value].maxAttempts
          && TakenFrom(before[choice.value], after[choice.value], worker, until))
    && (forall id :: id in before && choice != Some(id) ==>
          if id in swept && before[id].status == Running && Waits(before[id], now) && before[id].attempt >= before[id].maxAttempts
          then GivenUp(before[id], after[id])
          else after[id] == before[id])
  }

  // Nothing among these waits with attempts left.
  predicate NoneWaits(items: map<nat, Record>, ids: set<nat>, now: int) {
    forall id :: id in ids && id in items ==> !(Waits(items[id], now) && items[id].attempt < items[id].maxAttempts)
  }

  lemma ClaimTakes(items: map<nat, Record>, choice: Option<nat>, swept: set<nat>, worker: string, now: int, until: int)
    requires MayClaim(items, choice, now)
    ensures Takes(items, AfterClaim(items, choice, swept, worker, now, until), choice, swept, worker, now, until)
  {
  }

  lemma FirstClaimed(items: map<nat, Record>, first: Option<nat>, worker: string, now: int, until: int)
    requires IsFirst(items, now, first)
    ensures var swept := Preceding(items, first);
            && Takes(items, AfterClaim(items, first, swept, worker, now, until), first, swept, worker, now, until)
            && NoneWaits(items, swept, now)
  {
    ClaimTakes(items, first, Preceding(items, first), worker, now, until);
    FirstWaits(items, now, first);
  }

  lemma FirstWaits(items: map<nat, Record>, now: int, first: Option<nat>)
    requires IsFirst(items, now, first)
    ensures NoneWaits(items, Preceding(items, first), now)
  {
  }

  class InMemoryKnowledgeJobRepository {
    var items: map<nat, Record>
    var byKey: map<Payload, nat>

    function Contents(): Queue
      reads this
    {
      Queue(items, byKey)
    }

    constructor ()
      ensures Contents() == Queue(map[], map[])
    {
      items, byKey := map[], map[];
    }

    method Enqueue(payload: Payload, maxAttempts: int, newId: nat, now: int) returns (r: Result<Record, JobError>)
      requires ByKeyStored(Contents())
      modifies this
      ensures (Contents(), r) == AfterEnqueue(old(Contents()), payload, maxAttempts, newId, now)
    {
      if payload.GraphWrite? {
        return Err(ReviewOutboxRequired);
      }
      if payload in byKey {
        return Ok(items[byKey[payload]]);
      }
      if maxAttempts < 1 || maxAttempts > 8 {
        return Err(InvalidRequest);
      }
      var record := Record(newId, payload, Queued, 0, maxAttempts, now, None, 0, None, None, None);
      items := items[newId := record];
      byKey := byKey[payload := newId];
      r := Ok(record);
    }

    method Claim(worker: string, seconds: int, now: int) returns (r: Result<Option<Lease>, JobError>)
      requires forall id :: id in items ==> items[id].jobId == id
      modifies this`items
      ensures r.Err? <==> !SafeWorker(worker) || seconds < 1
      ensures r.Err? ==> items == old(items)
      ensures r.Ok? ==> IsFirst(old(items), now, ClaimedId(r.value))
      ensures r.Ok? ==>
                var first := ClaimedId(r.value);
                items == AfterClaim(old(items), first, Preceding(old(items), first), worker, now, now + seconds * SECOND)
      ensures r.Ok? && r.value.Some? ==>
                var id := r.value.value.record.jobId;
                id in items && r.value.value == Lease(items[id], worker, items[id].leaseToken, now + seconds * SECOND)
      ensures r.Ok? ==>
                var first := ClaimedId(r.value);
                && Takes(old(items), items, first, Preceding(old(items), first), worker, now, now + seconds * SECOND)
                && NoneWaits(old(items), Preceding(old(items), first), now)
    {
      if !SafeWorker(worker) || seconds < 1 {
        return Err(InvalidRequest);
      }
      var rest := items.Keys;
      while rest != {}
        invariant SweptSoFar(old(items), items, rest, now)
      {
        var id := Smallest(rest);
        SweepStep(old(items), items, rest, id, now);
        ghost var before := rest;
        rest := rest - {id};
        var existing := items[id];
        if Due(existing, now) {
          if existing.attempt >= existing.maxAttempts {
            if Expired(existing, now) {
              items := items[id := Expire(existing)];
            }
          } else {
            var until := now + seconds * SECOND;
            var running := Start(existing, worker, until);
            SweepEnds(old(items), items, before, Some(id), worker, now, until);
            FirstClaimed(old(items), Some(id), worker, now, until);
            items := items[id := running];
            return Ok(Some(Lease(running, worker, running.leaseToken, until)));
          }
        }
      }
      SweepEnds(old(items), items, rest, None, worker, now, now + seconds * SECOND);
      FirstClaimed(old(items), None, worker, now, now + seconds * SECOND);
      r := Ok(None);
    }

    method Renew(lease: Lease, seconds: int, t0: int, t1: int) returns (r: Result<Lease, JobError>)
      modifies this`items
      ensures (Contents(), r) == AfterRenew(old(Contents()), lease, seconds, t0, t1)
    {
      if seconds < 1 {
        return Err(InvalidRequest);
      }
      if !Leased(Contents(), lease, t0) {
        return Err(LeaseLost);
      }
      var id := lease.record.jobId;
      var until := t1 + seconds * SECOND;
      var renewed := items[id].(leaseUntil := Some(until));
      items := items[id := renewed];
      r := Ok(Lease(renewed, lease.worker, lease.token, until));
    }

    method Complete(lease: Lease, result: JobResult, now: int) returns (r: Result<Record, JobError>)
      modifies this`items
      ensures (Contents(), r) == AfterComplete(old(Contents()), lease, result, now)
    {
      var id := lease.record.jobId;
      if id in items && items[id].status == Succeeded {
        if items[id].result == Some(result) && items[id].leaseToken == lease.token {
          return Ok(items[id]);
        }
        return Err(LeaseLost);
      }
      if !Leased(Contents(), lease, now) {
        return Err(LeaseLost);
      }
      var completed := Completed(items[id], result);
      items := items[id := completed];
      r := Ok(completed);
    }

    method Fail(lease: Lease, code: string, retryable: bool, delay: int, t0: int, t1: int) returns (r: Result<Record, JobError>)
      modifies this`items
      ensures (Contents(), r) == AfterFail(old(Contents()), lease, code, retryable, delay, t0, t1)
    {
      var id := lease.record.jobId;
      if delay < 0 {
        return Err(InvalidRequest);
      }
      if FailureStored(Contents(), lease, code) {
        return Ok(items[id]);
      }
      if !Leased(Contents(), lease, t0) {
        return Err(LeaseLost);
      }
      var willRetry := retryable && items[id].attempt < items[id].maxAttempts;
      var failed := Failed(items[id], CodeOf(code), willRetry, t1 + if willRetry then delay * SECOND else 0);
      items := items[id := failed];
      r := Ok(failed);
    }
  }

  predicate ByKeyStored(q: Queue) {
    forall p :: p in q.byKey ==> q.byKey[p] in q.items
  }

  // ---------------------------------------------------------------- calls, by the fields of a record

  // The job runs under this lease, and the lease has not ended.
  predicate Holds(items: map<nat, Record>, lease: Lease, now: int) {
    && lease.record.jobId in items
    && var r := items[lease.record.jobId];
    && r.status == Running && r.leaseOwner == Some(lease.worker) && r.leaseToken == lease.token
    && r.leaseUntil.Some? && now < r.leaseUntil.value
  }

  // Only this job changed, and this much of it stayed.
  predicate OnlyChanged(before: Queue, after: Queue, id: nat) {
    && id in before.items && after.byKey == before.byKey && after.items.Keys == before.items.Keys
    && (forall j :: j in before.items && j != id ==> after.items[j] == before.items[j])
    && after.items[id].jobId == before.items[id].jobId && after.items[id].payload == before.items[id].payload
    && after.items[id].attempt == before.items[id].attempt && after.items[id].maxAttempts == before.items[id].maxAttempts
    && after.items[id].leaseToken == before.items[id].leaseToken
  }

  // A payload is queued once: the first time as a job that is due at once and has all its
  // attempts, and then it is answered with that job as it stands.
  lemma EnqueueOnFields(q: Queue, payload: Payload, maxAttempts: int, newId: nat, now: int)
    requires SoundQueue(q) && newId !in q.items
    ensures var (after, r) := AfterInsert(q, payload, maxAttempts, newId, now);
            if exists id :: id in q.items && q.items[id].payload == payload then
              after == q && r.Ok? && r.value.payload == payload && r.value.jobId in q.items && q.items[r.value.jobId] == r.value
            else if 1 <= maxAttempts <= 8 then
              && r.Ok? && after.items == q.items[newId := r.value]
              && r.value.jobId == newId && r.value.payload == payload && r.value.status == Queued
              && r.value.attempt == 0 && r.value.maxAttempts == maxAttempts && r.value.availableAt == now
              && r.value.leaseOwner.None? && r.value.leaseUntil.None? && r.value.result.None? && r.value.lastError.None?
            else after == q && r == Err(InvalidRequest)
  {
  }

  // A lease is renewed exactly while it is held, and then lasts the given time from the second
  // reading of the clock.
  lemma RenewOnFields(q: Queue, lease: Lease, seconds: int, t0: int, t1: int)
    ensures var (after, r), id := AfterRenew(q, lease, seconds, t0, t1), lease.record.jobId;
            if seconds >= 1 && Holds(q.items, lease, t0) then
              && r.Ok? && OnlyChanged(q, after, id)
              && after.items[id] == q.items[id].(leaseUntil := Some(t1 + seconds * 1_000_000))
              && r.value == Lease(after.items[id], lease.worker, lease.token, t1 + seconds * 1_000_000)
            else after == q && r.Err?
  {
  }

  // A job that has not succeeded does so exactly by the completion of its holder, with the
  // result given; one that has answers exactly the holder of its last lease with that result.
  lemma CompleteOnFields(q: Queue, lease: Lease, result: JobResult, now: int)
    ensures var (after, r), id := AfterComplete(q, lease, result, now), lease.record.jobId;
            if Holds(q.items, lease, now) then
              && OnlyChanged(q, after, id) && r == Ok(after.items[id])
              && after.items[id].status == Succeeded && after.items[id].result == Some(result)
              && after.items[id].leaseOwner.None? && after.items[id].leaseUntil.None?
            else
              && after == q
              && r == if id in q.items && q.items[id].status == Succeeded && q.items[id].leaseToken == lease.token && q.items[id].result == Some(result)
                      then Ok(q.items[id]) else Err(LeaseLost)
  {
  }

  // A failure of the holder is retried after the delay exactly if it may be and attempts are
  // left, and is final otherwise.
  lemma FailOnFields(q: Queue, lease: Lease, code: string, retryable: bool, delay: int, t0: int, t1: int)
    requires delay >= 0 && Holds(q.items, lease, t0)
    ensures var (after, r), id := AfterFail(q, lease, code, retryable, delay, t0, t1), lease.record.jobId;
            && OnlyChanged(q, after, id) && r == Ok(after.items[id])
            && after.items[id].leaseOwner.None? && after.items[id].leaseUntil.None?
            && after.items[id].lastError == Some(if SafeCode(code) then code else "worker.dependency_failure")
            && if retryable && q.items[id].attempt < q.items[id].maxAttempts
               then after.items[id].status == RetryWait && after.items[id].availableAt == t1 + delay * 1_000_000
               else after.items[id].status == FailedPermanent && after.items[id].availableAt == t1
  {
  }

  // Whoever does not hold the job changes nothing by failing it.
  lemma FailNeedsHolder(q: Queue, lease: Lease, code: string, retryable: bool, delay: int, t0: int, t1: int)
    requires !(delay >= 0 && Holds(q.items, lease, t0))
    ensures AfterFail(q, lease, code, retryable, delay, t0, t1).0 == q
    ensures AfterFail(q, lease, code, retryable, delay, t0, t1).1.Ok? <==>
              && delay >= 0 && lease.record.jobId in q.items
              && var r := q.items[lease.record.jobId];
              && r.leaseToken == lease.token && r.status in {RetryWait, FailedPermanent}
              && r.lastError == Some(if SafeCode(code) then code else "worker.dependency_failure")
  {
  }

  // ---------------------------------------------------------------- runs

  // A queue together with every lease it ever handed out.
  datatype System = System(q: Queue, issued: set<Lease>)

  datatype Event =
    | Enqueued(payload: Payload, maxAttempts: int, newId: nat, now: int)
    | Outbox(order: GraphOrder, maxAttempts: int, newId: nat, now: int)
    | Claimed(worker: string, seconds: int, now: int, choice: Option<nat>, swept: set<nat>)
    | Renewed(lease: Lease, seconds: int, t0: int, t1: int)
    | CompletedBy(lease: Lease, result: JobResult, now: int)
    | FailedBy(lease: Lease, code: string, retryable: bool, delay: int, t0: int, t1: int)
    | PostgresFailedBy(lease: Lease, code: string, retryable: bool, delay: int, now: int)

  // Workers use leases they were given; a claim takes a claimable job; new identifiers are new.
  predicate Allowed(s: System, e: Event) {
    match e
    case Enqueued(_, _, newId, _) => newId !in s.q.items
    case Outbox(_, _, newId, _) => newId !in s.q.items
    case Claimed(worker, seconds, now, choice, _) => SafeWorker(worker) && seconds >= 1 && MayClaim(s.q.items, choice, now)
    case Renewed(lease, _, _, _) => lease in s.issued
    case CompletedBy(lease, _, _) => lease in s.issued
    case FailedBy(lease, _, _, _, _, _) => lease in s.issued
    case PostgresFailedBy(lease, _, _, _, _) => lease in s.issued
  }

  function Apply(s: System, e: Event): System
    requires Allowed(s, e)
  {
    match e
    case Enqueued(payload, maxAttempts, newId, now) => s.(q := AfterEnqueue(s.q, payload, maxAttempts, newId, now).0)
    case Outbox(order, maxAttempts, newId, now) => s.(q := AfterInsert(s.q, GraphWrite(order), maxAttempts, newId, now).0)
    case Claimed(worker, seconds, now, choice, swept) =>
      var until := now + seconds * SECOND;
      var items := AfterClaim(s.q.items, choice, swept, worker, now, until);
      System(s.q.(items := items),
             if choice.None? then s.issued else s.issued + {LeaseOf(items[choice.value], worker, until)})
    case Renewed(lease, seconds, t0, t1) =>
      var (q, r) := AfterRenew(s.q, lease, seconds, t0, t1);
      System(q, if r.Ok? then s.issued + {r.value} else s.issued)
    case CompletedBy(lease, result, now) => s.(q := AfterComplete(s.q, lease, result, now).0)
    case FailedBy(lease, code, retryable, delay, t0, t1) => s.(q := AfterFail(s.q, lease, code, retryable, delay, t0, t1).0)
    case PostgresFailedBy(lease, code, retryable, delay, now) => s.(q := AfterPostgresFail(s.q, lease, code, retryable, delay, now).0)
  }

  const Initial := System(Queue(map[], map[]), {})

  // The system after the events, if each was allowed when it happened.
  function Run(events: seq<Event>): Option<System> {
    if events == [] then Some(Initial)
    else
      match Run(events[..|events| - 1])
      case None => None
      case Some(s) => if Allowed(s, events[|events| - 1]) then Some(Apply(s, events[|events| - 1])) else None
  }

  // ---------------------------------------------------------------- what every run keeps

  // Token and attempt move together, so the bound on attempts bounds the tokens.
  predicate Sound(r: Record) {
    ValidState(r) && r.leaseToken == r.attempt
  }

  predicate SoundQueue(q: Queue) {
    && (forall id :: id in q.items ==> q.items[id].jobId == id && Sound(q.items[id]))
    && ByKeyStored(q)
    && (forall p :: p in q.byKey ==> q.items[q.byKey[p]].payload == p)
    && (forall id :: id in q.items ==> q.items[id].payload in q.byKey && q.byKey[q.items[id].payload] == id)
  }

  // A lease remembers its job as it was when the lease was granted.
  predicate GrantedBy(lease: Lease, r: Record) {
    && lease.record.jobId == r.jobId
    && lease.record.maxAttempts == r.maxAttempts && lease.record.payload == r.payload
    && lease.record.attempt == lease.token
    && 1 <= lease.token <= r.leaseToken
    && (r.status == Running && r.leaseToken == lease.token ==> r.leaseOwner == Some(lease.worker))
  }

  predicate LeasesSound(s: System) {
    forall lease :: lease in s.issued ==> lease.record.jobId in s.q.items && GrantedBy(lease, s.q.items[lease.record.jobId])
  }

  predicate Inv(s: System) {
    SoundQueue(s.q) && LeasesSound(s)
  }

  // What one step may do to one job.
  predicate Moves(a: Record, b: Record) {
    && b.jobId == a.jobId && b.payload == a.payload && b.maxAttempts == a.maxAttempts
    && a.leaseToken <= b.leaseToken <= a.leaseToken + 1
    && (b.leaseToken == a.leaseToken + 1 ==> b.status == Running && a.attempt < a.maxAttempts && b.attempt == a.attempt + 1)
    && (b.leaseToken == a.leaseToken ==> b.attempt == a.attempt)
    && (b.leaseToken == a.leaseToken && b.status == Running ==> a.status == Running && b.leaseOwner == a.leaseOwner)
    && (b.leaseToken == a.leaseToken && a.status != Running ==> b == a)
    && (Terminal(a.status) ==> b == a)
    && Sound(b)
  }

  lemma LeaseMoves(lease: Lease, a: Record, b: Record)
    requires GrantedBy(lease, a) && Moves(a, b)
    ensures GrantedBy(lease, b)
  {
  }

  predicate OneMoved(q: Queue, p: Queue, id: nat) {
    && id in q.items && p.byKey == q.byKey && p.items.Keys == q.items.Keys
    && Moves(q.items[id], p.items[id]) && p.items[id].leaseToken == q.items[id].leaseToken
    && forall j :: j in q.items && j != id ==> p.items[j] == q.items[j]
  }

  lemma RenewMoves(q: Queue, lease: Lease, seconds: int, t0: int, t1: int)
    requires SoundQueue(q)
    ensures AfterRenew(q, lease, seconds, t0, t1).1.Err? ==> AfterRenew(q, lease, seconds, t0, t1).0 == q
    ensures AfterRenew(q, lease, seconds, t0, t1).1.Ok? ==> OneMoved(q, AfterRenew(q, lease, seconds, t0, t1).0, lease.record.jobId)
  {
  }

  lemma CompleteMoves(q: Queue, lease: Lease, result: JobResult, now: int)
    requires SoundQueue(q)
    ensures AfterComplete(q, lease, result, now).0 == q || OneMoved(q, AfterComplete(q, lease, result, now).0, lease.record.jobId)
  {
  }

  lemma FailMoves(q: Queue, lease: Lease, code: string, retryable: bool, delay: int, t0: int, t1: int)
    requires SoundQueue(q)
    ensures AfterFail(q, lease, code, retryable, delay, t0, t1).0 == q || OneMoved(q, AfterFail(q, lease, code, retryable, delay, t0, t1).0, lease.record.jobId)
  {
  }

  // The decision from the snapshot is the decision from the stored row whenever the fence passes.
  lemma PostgresFailAgrees(q: Queue, lease: Lease, code: string, retryable: bool, delay: int, now: int)
    requires SoundQueue(q) && lease.record.jobId in q.items && GrantedBy(lease, q.items[lease.record.jobId])
    ensures Leased(q, lease, now) ==> AfterPostgresFail(q, lease, code, retryable, delay, now) == AfterFail(q, lease, code, retryable, delay, now, now)
    ensures AfterPostgresFail(q, lease, code, retryable, delay, now).0 == AfterFail(q, lease, code, retryable, delay, now, now).0
    ensures var stored := q.items[lease.record.jobId];
            var retry := retryable && stored.attempt < stored.maxAttempts;
            AfterPostgresFail(q, lease, code, retryable, delay, now) == AfterFail(q, lease, code, retryable, delay, now, now) <==>
            !(0 <= delay && FailureStored(q, lease, code) && stored.status != (if retry then RetryWait else FailedPermanent))
  {
  }

  lemma ClaimMoves(s: System, e: Event)
    requires SoundQueue(s.q) && e.Claimed? && Allowed(s, e)
    ensures Apply(s, e).q.items.Keys == s.q.items.Keys && Apply(s, e).q.byKey == s.q.byKey
    ensures forall id :: id in s.q.items ==> Moves(s.q.items[id], Apply(s, e).q.items[id])
  {
    forall id | id in s.q.items
      ensures Moves(s.q.items[id], Apply(s, e).q.items[id])
    {
      ClaimMovesRecord(s.q.items[id], e.worker, e.now, e.now + e.seconds * SECOND);
    }
  }

  lemma ClaimMovesRecord(r: Record, worker: string, now: int, until: int)
    requires Sound(r)
    ensures Moves(r, r)
    ensures Claimable(r, now) ==> Moves(r, Start(r, worker, until))
    ensures Exhausted(r, now) ==> Moves(r, Expire(r))
  {
  }

  lemma InsertKeepsOthers(q: Queue, payload: Payload, maxAttempts: int, newId: nat, now: int)
    requires SoundQueue(q) && newId !in q.items
    ensures AfterInsert(q, payload, maxAttempts, newId, now).0 == q ||
            AfterInsert(q, payload, maxAttempts, newId, now).0 == WithNew(q, Fresh(newId, payload, maxAttempts, now))
    ensures SoundQueue(AfterInsert(q, payload, maxAttempts, newId, now).0)
  {
    if AfterInsert(q, payload, maxAttempts, newId, now).0 != q {
      NewIsSound(q, Fresh(newId, payload, maxAttempts, now));
    }
  }

  function WithNew(q: Queue, r: Record): Queue {
    Queue(q.items[r.jobId := r], q.byKey[r.payload := r.jobId])
  }

  lemma NewIsSound(q: Queue, r: Record)
    requires SoundQueue(q) && r.jobId !in q.items && Sound(r) && r.payload !in q.byKey
    ensures SoundQueue(WithNew(q, r))
  {
  }

  // Every step keeps every job, and moves each as `Moves` says.
  lemma StepMoves(s: System, e: Event, id: nat)
    requires Inv(s) && Allowed(s, e) && id in s.q.items
    ensures id in Apply(s, e).q.items && Moves(s.q.items[id], Apply(s, e).q.items[id])
  {
    match e
    case Enqueued(payload, maxAttempts, newId, now) => InsertKeepsOthers(s.q, payload, maxAttempts, newId, now);
    case Outbox(order, maxAttempts, newId, now) => InsertKeepsOthers(s.q, GraphWrite(order), maxAttempts, newId, now);
    case Claimed(_, _, _, _, _) => ClaimMoves(s, e);
    case Renewed(lease, seconds, t0, t1) => RenewMoves(s.q, lease, seconds, t0, t1);
    case CompletedBy(lease, result, now) => CompleteMoves(s.q, lease, result, now);
    case FailedBy(lease, code, retryable, delay, t0, t1) => FailMoves(s.q, lease, code, retryable, delay, t0, t1);
    case PostgresFailedBy(lease, code, retryable, delay, now) =>
      PostgresFailAgrees(s.q, lease, code, retryable, delay, now);
      FailMoves(s.q, lease, code, retryable, delay, now, now);
  }

  lemma MovedQueueSound(q: Queue, p: Queue)
    requires SoundQueue(q) && p.byKey == q.byKey && p.items.Keys == q.items.Keys
    requires forall id :: id in q.items ==> Moves(q.items[id], p.items[id])
    ensures SoundQueue(p)
  {
  }

  lemma StepSoundQueue(s: System, e: Event)
    requires Inv(s) && Allowed(s, e)
    ensures SoundQueue(Apply(s, e).q)
  {
    match e
    case Enqueued(payload, maxAttempts, newId, now) => InsertKeepsOthers(s.q, payload, maxAttempts, newId, now);
    case Outbox(order, maxAttempts, newId, now) => InsertKeepsOthers(s.q, GraphWrite(order), maxAttempts, newId, now);
    case _ =>
      SameJobs(s, e);
      forall id | id in s.q.items
        ensures Moves(s.q.items[id], Apply(s, e).q.items[id])
      {
        StepMoves(s, e, id);
      }
      MovedQueueSound(s.q, Apply(s, e).q);
  }

  lemma SameJobs(s: System, e: Event)
    requires Inv(s) && Allowed(s, e) && !e.Enqueued? && !e.Outbox?
    ensures Apply(s, e).q.items.Keys == s.q.items.Keys && Apply(s, e).q.byKey == s.q.byKey
  {
    match e
    case Claimed(_, _, _, _, _) => ClaimMoves(s, e);
    case Renewed(lease, seconds, t0, t1) => RenewMoves(s.q, lease, seconds, t0, t1);
    case CompletedBy(lease, result, now) => CompleteMoves(s.q, lease, result, now);
    case FailedBy(lease, code, retryable, delay, t0, t1) => FailMoves(s.q, lease, code, retryable, delay, t0, t1);
    case PostgresFailedBy(lease, code, retryable, delay, now) =>
      PostgresFailAgrees(s.q, lease, code, retryable, delay, now);
      FailMoves(s.q, lease, code, retryable, delay, now, now);
  }

  lemma NewLease(s: System, e: Event, lease: Lease)
    requires Inv(s) && Allowed(s, e) && lease in Apply(s, e).issued && lease !in s.issued
    ensures lease.record.jobId in Apply(s, e).q.items && GrantedBy(lease, Apply(s, e).q.items[lease.record.jobId])
    ensures lease.record.jobId in s.q.items
  {
    StepSoundQueue(s, e);
  }

  lemma StepKeepsInv(s: System, e: Event)
    requires Inv(s) && Allowed(s, e)
    ensures Inv(Apply(s, e))
  {
    StepSoundQueue(s, e);
    forall lease | lease in Apply(s, e).issued
      ensures lease.record.jobId in Apply(s, e).q.items && GrantedBy(lease, Apply(s, e).q.items[lease.record.jobId])
    {
      if lease in s.issued {
        StepMoves(s, e, lease.record.jobId);
        LeaseMoves(lease, s.q.items[lease.record.jobId], Apply(s, e).q.items[lease.record.jobId]);
      } else {
        NewLease(s, e, lease);
      }
    }
  }

  // Every reachable record passes the validator no update re-runs, and its token is its attempt.
  lemma {:induction false} EveryRunSound(events: seq<Event>)
    requires Run(events).Some?
    ensures Inv(Run(events).value)
  {
    if events != [] {
      EveryRunSound(events[..|events| - 1]);
      StepKeepsInv(Run(events[..|events| - 1]).value, events[|events| - 1]);
    }
  }

  // ---------------------------------------------------------------- what later steps may do

  // The reflexive and transitive reach of `Moves`, as far as leases and terminal states care.
  predicate Later(a: Record, b: Record) {
    && b.jobId == a.jobId && b.payload == a.payload && b.maxAttempts == a.maxAttempts
    && a.leaseToken <= b.leaseToken
    && (b.leaseToken == a.leaseToken && a.status != Running ==> b == a)
    && (Terminal(a.status) ==> b == a)
  }

  lemma {:induction false} RunsMoveForward(events: seq<Event>, more: seq<Event>, id: nat)
    requires Run(events + more).Some?
    ensures Run(events).Some?
    ensures id in Run(events).value.q.items ==>
              id in Run(events + more).value.q.items && Later(Run(events).value.q.items[id], Run(events + more).value.q.items[id])
    decreases |more|
  {
    if more == [] {
      assert events + more == events;
    } else {
      var front, e := more[..|more| - 1], more[|more| - 1];
      assert (events + more)[..|events + more| - 1] == events + front;
      RunsMoveForward(events, front, id);
      EveryRunSound(events + front);
      if id in Run(events).value.q.items {
        StepMoves(Run(events + front).value, e, id);
      }
    }
  }

  // Succeeded and failed jobs never change again.
  lemma TerminalForever(events: seq<Event>, more: seq<Event>, id: nat)
    requires Run(events + more).Some? && Run(events).Some?
    requires id in Run(events).value.q.items && Terminal(Run(events).value.q.items[id].status)
    ensures id in Run(events + more).value.q.items
    ensures Run(events + more).value.q.items[id] == Run(events).value.q.items[id]
  {
    RunsMoveForward(events, more, id);
  }

  // ---------------------------------------------------------------- fencing

  predicate Superseded(q: Queue, lease: Lease) {
    lease.record.jobId in q.items && lease.token < q.items[lease.record.jobId].leaseToken
  }

  // No call with a superseded lease changes anything, in either repository.
  predicate Powerless(q: Queue, lease: Lease, code: string, retryable: bool, delay: int, result: JobResult, seconds: int, t0: int, t1: int) {
    && AfterRenew(q, lease, seconds, t0, t1).0 == q && AfterRenew(q, lease, seconds, t0, t1).1.Err?
    && AfterComplete(q, lease, result, t0) == (q, Err(LeaseLost))
    && AfterFail(q, lease, code, retryable, delay, t0, t1).0 == q && AfterFail(q, lease, code, retryable, delay, t0, t1).1.Err?
    && AfterPostgresFail(q, lease, code, retryable, delay, t0).0 == q && AfterPostgresFail(q, lease, code, retryable, delay, t0).1.Err?
  }

  lemma SupersededIsPowerless(q: Queue, lease: Lease, code: string, retryable: bool, delay: int, result: JobResult, seconds: int, t0: int, t1: int)
    requires Superseded(q, lease)
    ensures Powerless(q, lease, code, retryable, delay, result, seconds, t0, t1)
  {
  }

  // A claim supersedes every lease granted on the job before it.
  lemma ClaimSupersedes(events: seq<Event>, e: Event, lease: Lease)
    requires Run(events).Some? && Allowed(Run(events).value, e) && e.Claimed? && e.choice.Some?
    requires lease in Run(events).value.issued && lease.record.jobId == e.choice.value
    ensures Superseded(Apply(Run(events).value, e).q, lease)
  {
    EveryRunSound(events);
  }

  // Once superseded, powerless after any further events, whatever the clocks say.
  lemma FencedForever(events: seq<Event>, more: seq<Event>, lease: Lease, code: string, retryable: bool, delay: int,
                      result: JobResult, seconds: int, t0: int, t1: int)
    requires Run(events + more).Some? && Run(events).Some? && Superseded(Run(events).value.q, lease)
    ensures Superseded(Run(events + more).value.q, lease)
    ensures Powerless(Run(events + more).value.q, lease, code, retryable, delay, result, seconds, t0, t1)
  {
    RunsMoveForward(events, more, lease.record.jobId);
    SupersededIsPowerless(Run(events + more).value.q, lease, code, retryable, delay, result, seconds, t0, t1);
  }

  // Two leases on one job that both pass the fence are one grant, renewed or not.
  lemma OneLiveLease(events: seq<Event>, a: Lease, b: Lease, t: int, u: int)
    requires Run(events).Some? && a in Run(events).value.issued && b in Run(events).value.issued
    requires a.record.jobId == b.record.jobId && Leased(Run(events).value.q, a, t) && Leased(Run(events).value.q, b, u)
    ensures a.token == b.token && a.worker == b.worker && a.record.attempt == b.record.attempt
  {
    EveryRunSound(events);
  }

  // Events that leave a lease with this token on this job alone: claims before it ends, and
  // whatever other lease holders do.
  predicate Leaves(e: Event, id: nat, token: int, until: int) {
    match e
    case Claimed(_, _, now, _, _) => now < until
    case Renewed(lease, _, _, _) => !(lease.record.jobId == id && lease.token == token)
    case CompletedBy(lease, _, _) => !(lease.record.jobId == id && lease.token == token)
    case FailedBy(lease, _, _, _, _, _) => !(lease.record.jobId == id && lease.token == token)
    case PostgresFailedBy(lease, _, _, _, _) => !(lease.record.jobId == id && lease.token == token)
    case _ => true
  }

  lemma LiveLeaseStep(s: System, e: Event, id: nat)
    requires Inv(s) && Allowed(s, e) && id in s.q.items && s.q.items[id].status == Running && s.q.items[id].leaseUntil.Some?
    requires Leaves(e, id, s.q.items[id].leaseToken, s.q.items[id].leaseUntil.value)
    ensures id in Apply(s, e).q.items && Apply(s, e).q.items[id] == s.q.items[id]
  {
    match e
    case Enqueued(payload, maxAttempts, newId, now) => InsertKeepsOthers(s.q, payload, maxAttempts, newId, now);
    case Outbox(order, maxAttempts, newId, now) => InsertKeepsOthers(s.q, GraphWrite(order), maxAttempts, newId, now);
    case Claimed(worker, seconds, now, choice, swept) => ClaimTakes(s.q.items, choice, swept, worker, now, now + seconds * SECOND);
    case Renewed(lease, seconds, t0, t1) => RenewMoves(s.q, lease, seconds, t0, t1);
    case CompletedBy(lease, result, now) => CompleteMoves(s.q, lease, result, now);
    case FailedBy(lease, code, retryable, delay, t0, t1) => FailMoves(s.q, lease, code, retryable, delay, t0, t1);
    case PostgresFailedBy(lease, code, retryable, delay, now) => PostgresFailAgrees(s.q, lease, code, retryable, delay, now);
  }

  // A running job is its worker's alone until its lease ends: whatever else happens before,
  // nobody can take, finish or fail it.
  lemma {:induction false} LiveLeaseStands(events: seq<Event>, more: seq<Event>, id: nat)
    requires Run(events).Some? && Run(events + more).Some? && id in Run(events).value.q.items
    requires Run(events).value.q.items[id].status == Running && Run(events).value.q.items[id].leaseUntil.Some?
    requires forall i :: 0 <= i < |more| ==> Leaves(more[i], id, Run(events).value.q.items[id].leaseToken, Run(events).value.q.items[id].leaseUntil.value)
    ensures id in Run(events + more).value.q.items && Run(events + more).value.q.items[id] == Run(events).value.q.items[id]
    decreases |more|
  {
    if more == [] {
      assert events + more == events;
    } else {
      var front, e := more[..|more| - 1], more[|more| - 1];
      assert (events + more)[..|events + more| - 1] == events + front;
      LiveLeaseStands(events, front, id);
      EveryRunSound(events + front);
      LiveLeaseStep(Run(events + front).value, e, id);
    }
  }

  // ---------------------------------------------------------------- replays

  // A completion that was accepted is answered the same way ever after, and changes nothing.
  lemma CompleteReplays(events: seq<Event>, lease: Lease, result: JobResult, now: int, more: seq<Event>, later: int)
    requires Run(events).Some? && AfterComplete(Run(events).value.q, lease, result, now).1.Ok?
    requires Run(events + [CompletedBy(lease, result, now)] + more).Some?
    ensures var q := Run(events + [CompletedBy(lease, result, now)] + more).value.q;
            AfterComplete(q, lease, result, later) == (q, AfterComplete(Run(events).value.q, lease, result, now).1)
  {
    var done := events + [CompletedBy(lease, result, now)];
    assert done[..|done| - 1] == events;
    EveryRunSound(events);
    RunsMoveForward(done, more, lease.record.jobId);
  }

  // So is a failure, until the job is claimed again; from then on the replay is refused.
  lemma FailReplays(events: seq<Event>, lease: Lease, code: string, retryable: bool, delay: int, t0: int, t1: int,
                    more: seq<Event>, u0: int, u1: int)
    requires Run(events).Some? && AfterFail(Run(events).value.q, lease, code, retryable, delay, t0, t1).1.Ok?
    requires Run(events + [FailedBy(lease, code, retryable, delay, t0, t1)] + more).Some?
    ensures var q := Run(events + [FailedBy(lease, code, retryable, delay, t0, t1)] + more).value.q;
            && AfterFail(q, lease, code, retryable, delay, u0, u1).0 == q
            && (AfterFail(q, lease, code, retryable, delay, u0, u1).1.Ok? <==> !Superseded(q, lease))
  {
    var done := events + [FailedBy(lease, code, retryable, delay, t0, t1)];
    assert done[..|done| - 1] == events;
    EveryRunSound(events);
    RunsMoveForward(done, more, lease.record.jobId);
  }

  // ---------------------------------------------------------------- bounded work

  function Claims(events: seq<Event>, id: nat): nat {
    if events == [] then 0
    else
      var e := events[|events| - 1];
      Claims(events[..|events| - 1], id) + if e.Claimed? && e.choice == Some(id) then 1 else 0
  }

  function AttemptOf(q: Queue, id: nat): int {
    if id in q.items then q.items[id].attempt else 0
  }

  lemma OnlyClaimsCount(s: System, e: Event, id: nat)
    requires Inv(s) && Allowed(s, e) && !e.Claimed?
    ensures AttemptOf(Apply(s, e).q, id) == AttemptOf(s.q, id)
  {
    match e
    case Enqueued(payload, maxAttempts, newId, now) => InsertKeepsOthers(s.q, payload, maxAttempts, newId, now);
    case Outbox(order, maxAttempts, newId, now) => InsertKeepsOthers(s.q, GraphWrite(order), maxAttempts, newId, now);
    case Renewed(lease, seconds, t0, t1) => RenewMoves(s.q, lease, seconds, t0, t1);
    case CompletedBy(lease, result, now) => CompleteMoves(s.q, lease, result, now);
    case FailedBy(lease, code, retryable, delay, t0, t1) => FailMoves(s.q, lease, code, retryable, delay, t0, t1);
    case PostgresFailedBy(lease, code, retryable, delay, now) =>
      PostgresFailAgrees(s.q, lease, code, retryable, delay, now);
      FailMoves(s.q, lease, code, retryable, delay, now, now);
  }

  lemma ClaimCounts(s: System, e: Event, id: nat)
    requires Inv(s) && Allowed(s, e) && e.Claimed?
    ensures AttemptOf(Apply(s, e).q, id) == AttemptOf(s.q, id) + if e.choice == Some(id) then 1 else 0
  {
  }

  // The attempt of a job is the number of times it was claimed, so no job is claimed more
  // than `maxAttempts` times.
  lemma {:induction false} AttemptsAreClaims(events: seq<Event>, id: nat)
    requires Run(events).Some?
    ensures Claims(events, id) == AttemptOf(Run(events).value.q, id)
    ensures id in Run(events).value.q.items ==> Claims(events, id) <= Run(events).value.q.items[id].maxAttempts <= 8
  {
    EveryRunSound(events);
    if events != [] {
      var front, e := events[..|events| - 1], events[|events| - 1];
      AttemptsAreClaims(front, id);
      EveryRunSound(front);
      if e.Claimed? {
        ClaimCounts(Run(front).value, e, id);
      } else {
        OnlyClaimsCount(Run(front).value, e, id);
      }
    }
  }

  function Measure(r: Record): int {
    if Terminal(r.status) then 0
    else 2 * (r.maxAttempts - r.attempt) + if r.status == Running then 1 else 0
  }

  // Every change to a job except a renewal uses up some of its measure.
  lemma StepDecreases(s: System, e: Event, id: nat)
    requires Inv(s) && Allowed(s, e) && id in s.q.items && id in Apply(s, e).q.items
    ensures e.Renewed? ==> Measure(Apply(s, e).q.items[id]) == Measure(s.q.items[id])
    ensures !e.Renewed? && Apply(s, e).q.items[id] != s.q.items[id] ==> 0 <= Measure(Apply(s, e).q.items[id]) < Measure(s.q.items[id])
  {
    StepMoves(s, e, id);
    if e.Enqueued? {
      InsertKeepsOthers(s.q, e.payload, e.maxAttempts, e.newId, e.now);
    } else if e.Outbox? {
      InsertKeepsOthers(s.q, GraphWrite(e.order), e.maxAttempts, e.newId, e.now);
    }
  }

  // Steps, other than renewals, that changed the job after it was queued.
  function Changes(events: seq<Event>, id: nat): nat
    requires Run(events).Some?
  {
    if events == [] then 0
    else
      var front, e := events[..|events| - 1], events[|events| - 1];
      var before, after := Run(front).value.q.items, Run(events).value.q.items;
      Changes(front, id) + if !e.Renewed? && id in before && id in after && before[id] != after[id] then 1 else 0
  }

  // In any run a job changes at most twice per attempt: the queue cannot work on it for ever.
  lemma {:induction false} WorkIsBounded(events: seq<Event>, id: nat)
    requires Run(events).Some?
    ensures id !in Run(events).value.q.items ==> Changes(events, id) == 0
    ensures id in Run(events).value.q.items ==>
              Changes(events, id) + Measure(Run(events).value.q.items[id]) <= 2 * Run(events).value.q.items[id].maxAttempts <= 16
  {
    EveryRunSound(events);
    if events != [] {
      var front, e := events[..|events| - 1], events[|events| - 1];
      WorkIsBounded(front, id);
      EveryRunSound(front);
      if id in Run(front).value.q.items {
        StepMoves(Run(front).value, e, id);
        StepDecreases(Run(front).value, e, id);
      } else if id in Run(events).value.q.items {
        NewJob(Run(front).value, e, id);
      }
    }
  }

  lemma NewJob(s: System, e: Event, id: nat)
    requires Inv(s) && Allowed(s, e) && id !in s.q.items && id in Apply(s, e).q.items
    ensures Apply(s, e).q.items[id].status == Queued && Apply(s, e).q.items[id].attempt == 0
  {
    if !e.Enqueued? && !e.Outbox? {
      SameJobs(s, e);
    }
  }

  // Only a completion makes a job succeed.
  lemma OnlyCompletionSucceeds(s: System, e: Event, id: nat)
    requires Inv(s) && Allowed(s, e) && id in Apply(s, e).q.items && Apply(s, e).q.items[id].status == Succeeded
    ensures id in s.q.items
    ensures s.q.items[id].status == Succeeded || (e.CompletedBy? && e.lease.record.jobId == id)
  {
    if id !in s.q.items {
      NewJob(s, e, id);
    } else {
      StepMoves(s, e, id);
    }
  }

  // Jobs appear only by being enqueued, under the identifier and payload given.
  lemma WhereJobsComeFrom(s: System, e: Event, id: nat)
    requires Inv(s) && Allowed(s, e) && id in Apply(s, e).q.items && id !in s.q.items
    ensures e.Enqueued? ==> Apply(s, e).q.items[id].payload == e.payload && !e.payload.GraphWrite? && id == e.newId
    ensures e.Outbox? ==> Apply(s, e).q.items[id].payload == GraphWrite(e.order) && id == e.newId
    ensures e.Enqueued? || e.Outbox?
  {
    if !e.Enqueued? && !e.Outbox? {
      SameJobs(s, e);
    }
  }
}
