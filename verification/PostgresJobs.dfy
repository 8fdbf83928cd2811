// The PostgreSQL job queue, statement by statement: every update carries its fence, the claim
// picks its candidate in the order of the statement among rows nobody has locked, and every
// transition of a graph write leaves an audit row that refers to the approved review.

module PostgresJobs {
  import opened Common
  import opened JobQueue
  import FactGraph

  // Audit rows are keyed by what happened to which attempt, so a replay meets its own row.
  datatype AuditKey = AuditKey(batchId: FactGraph.BatchId, event: string, jobId: Option<nat>, attempt: int, token: int,
                               code: string)

  datatype PersistError = Refused(error: JobError) | PersistenceFailed

  const GRAPH_WRITE_COMPLETED := "graph_write_completed"

  function AuditRows(r: Record, event: string, code: string): set<AuditKey> {
    if r.payload.GraphWrite? then {AuditKey(r.payload.order.batchId, event, Some(r.jobId), r.attempt, r.leaseToken, code)} else {}
  }

  // The review of a graph job is approved and names the job.
  predicate Reviewed(r: Record, approvedJobs: map<FactGraph.BatchId, nat>) {
    r.payload.GraphWrite? ==> r.payload.order.batchId in approvedJobs && approvedJobs[r.payload.order.batchId] == r.jobId
  }

  predicate AllReviewed(items: map<nat, Record>, approvedJobs: map<FactGraph.BatchId, nat>) {
    forall id :: id in items ==> items[id].jobId == id && Reviewed(items[id], approvedJobs)
  }

  // ---------------------------------------------------------------- the order of candidates

  function DueSince(r: Record): int {
    if r.status == Running && r.leaseUntil.Some? then r.leaseUntil.value else r.availableAt
  }

  predicate Ahead(rows: map<nat, Record>, created: map<nat, int>, a: nat, b: nat)
    requires a in rows && b in rows && rows.Keys <= created.Keys
  {
    var x, y := DueSince(rows[a]), DueSince(rows[b]);
    x < y || (x == y && (created[a] < created[b] || (created[a] == created[b] && a < b)))
  }

  predicate Candidate(rows: map<nat, Record>, id: nat, locked: set<nat>, now: int) {
    id in rows && id !in locked && Claimable(rows[id], now)
  }

  // Of the candidates among `seen`, the one that has been due longest.
  predicate IsNext(rows: map<nat, Record>, created: map<nat, int>, seen: set<nat>, locked: set<nat>, now: int, next: Option<nat>)
    requires rows.Keys <= created.Keys
  {
    match next
    case None => forall id :: id in seen ==> !Candidate(rows, id, locked, now)
    case Some(c) =>
      && c in seen && Candidate(rows, c, locked, now)
      && forall id :: id in seen && Candidate(rows, id, locked, now) && id != c ==> Ahead(rows, created, c, id)
  }

  // With no row locked, nothing claimable is passed over for a job that has been due for less.
  lemma NoOvertaking(rows: map<nat, Record>, created: map<nat, int>, now: int, next: Option<nat>, id: nat)
    requires rows.Keys <= created.Keys && IsNext(rows, created, rows.Keys, {}, now, next)
    requires id in rows && Claimable(rows[id], now)
    ensures next.Some? && DueSince(rows[next.value]) <= DueSince(rows[id])
  {
    assert Candidate(rows, id, {}, now);
  }

  // Since when a job could have been claimed: it is due, or its lease has ended.
  predicate Since(r: Record, t: int) {
    match r.status
    case Queued => t == r.availableAt
    case RetryWait => t == r.availableAt
    case Running => r.leaseUntil == Some(t)
    case _ => false
  }

  // The job claimed has waited longest among those that could be; of these it is the one
  // created first, and of these the one with the smallest identifier.
  lemma LongestWaiting(rows: map<nat, Record>, created: map<nat, int>, locked: set<nat>, now: int, c: nat, id: nat, t: int, u: int)
    requires rows.Keys <= created.Keys && IsNext(rows, created, rows.Keys, locked, now, Some(c))
    requires id in rows && id !in locked && Waits(rows[id], now) && rows[id].attempt < rows[id].maxAttempts
    requires Since(rows[c], t) && Since(rows[id], u)
    ensures t < u || (t == u && (created[c] < created[id] || (created[c] == created[id] && c <= id)))
  {
    assert Candidate(rows, id, locked, now);
  }

  // ---------------------------------------------------------------- the statements

  function AfterPostgresEnqueue(q: Queue, payload: Payload, maxAttempts: int, newId: nat, now: int): (Queue, Result<Record, JobError>) {
    if payload.GraphWrite? then (q, Err(ReviewOutboxRequired))
    else if !(1 <= maxAttempts <= 8) then (q, Err(InvalidRequest))
    else AfterInsert(q, payload, maxAttempts, newId, now)
  }

  function AfterPostgresClaim(q: Queue, next: Option<nat>, worker: string, now: int, until: int): Queue {
    q.(items := map id | id in q.items ::
                  if next == Some(id) then Start(q.items[id], worker, until).(result := None)
                  else if Exhausted(q.items[id], now) then Expire(q.items[id])
                  else q.items[id])
  }

  // The first update of the claim: every expired job without attempts left has failed.
  function Swept(items: map<nat, Record>, now: int): map<nat, Record> {
    map id | id in items :: if Exhausted(items[id], now) then Expire(items[id]) else items[id]
  }

  lemma ClaimIsTwoUpdates(q: Queue, next: Option<nat>, worker: string, now: int, until: int)
    requires next.Some? ==> next.value in q.items
    ensures AfterPostgresClaim(q, next, worker, now, until).items ==
            if next.None? then Swept(q.items, now) else Swept(q.items, now)[next.value := Start(q.items[next.value], worker, until).(result := None)]
  {
  }

  lemma NextTakes(rows: map<nat, Record>, byKey: map<Payload, nat>, created: map<nat, int>, locked: set<nat>, next: Option<nat>,
                  worker: string, now: int, until: int)
    requires rows.Keys <= created.Keys && IsNext(rows, created, rows.Keys, locked, now, next)
    ensures Takes(rows, AfterPostgresClaim(Queue(rows, byKey), next, worker, now, until).items, next, rows.Keys, worker, now, until)
    ensures next.None? ==> NoneWaits(rows, rows.Keys - locked, now)
  {
    if next.None? {
      assert forall id :: id in rows ==> !Candidate(rows, id, locked, now);
    }
  }

  function AfterPostgresComplete(q: Queue, lease: Lease, result: JobResult, now: int): (Queue, Result<Record, JobError>) {
    var id := lease.record.jobId;
    if Leased(q, lease, now) then
      var r := Completed(q.items[id], result).(lastError := None);
      (q.(items := q.items[id := r]), Ok(r))
    else if id in q.items && q.items[id].status == Succeeded && q.items[id].leaseToken == lease.token && q.items[id].result == Some(result)
    then (q, Ok(q.items[id]))
    else (q, Err(LeaseLost))
  }

  // The repositories differ exactly on an invalid limit for a payload that is queued already:
  // the in-memory one hands out the job, the PostgreSQL one refuses the call.
  lemma EnqueueAgrees(q: Queue, payload: Payload, maxAttempts: int, newId: nat, now: int)
    requires ByKeyStored(q)
    ensures AfterPostgresEnqueue(q, payload, maxAttempts, newId, now).0 == AfterEnqueue(q, payload, maxAttempts, newId, now).0
    ensures AfterPostgresEnqueue(q, payload, maxAttempts, newId, now) == AfterEnqueue(q, payload, maxAttempts, newId, now) <==>
            !(!payload.GraphWrite? && payload in q.byKey && !(1 <= maxAttempts <= 8))
  {
  }

  // On sound queues the claim is the one every run of the queue may take, with all exhausted
  // jobs swept; the columns it clears are empty.
  lemma ClaimAgrees(q: Queue, next: Option<nat>, worker: string, now: int, until: int)
    requires SoundQueue(q) && MayClaim(q.items, next, now)
    ensures AfterPostgresClaim(q, next, worker, now, until) == q.(items := AfterClaim(q.items, next, q.items.Keys, worker, now, until))
  {
    forall id | id in q.items && next == Some(id)
      ensures Start(q.items[id], worker, until).(result := None) == Start(q.items[id], worker, until)
    {
      assert Sound(q.items[id]);
    }
    SameClaim(q.items, next, worker, now, until);
  }

  lemma SameClaim(items: map<nat, Record>, next: Option<nat>, worker: string, now: int, until: int)
    requires forall id :: id in items && next == Some(id) ==> Start(items[id], worker, until).(result := None) == Start(items[id], worker, until)
    ensures AfterPostgresClaim(Queue(items, map[]), next, worker, now, until).items == AfterClaim(items, next, items.Keys, worker, now, until)
  {
  }

  // Trying the fence before looking for a replay makes no difference.
  lemma CompleteAgrees(q: Queue, lease: Lease, result: JobResult, now: int)
    requires SoundQueue(q)
    ensures AfterPostgresComplete(q, lease, result, now) == AfterComplete(q, lease, result, now)
  {
    if lease.record.jobId in q.items {
      assert Sound(q.items[lease.record.jobId]);
    }
  }

  // With its review in place no transition can miss its audit row.
  lemma AnswersAreReviewed(q: Queue, approvedJobs: map<FactGraph.BatchId, nat>, lease: Lease, result: JobResult, code: string,
                           retryable: bool, delay: int, now: int)
    requires AllReviewed(q.items, approvedJobs)
    ensures var c := AfterPostgresComplete(q, lease, result, now).1; c.Ok? ==> Reviewed(c.value, approvedJobs)
    ensures var f := AfterPostgresFail(q, lease, code, retryable, delay, now).1; f.Ok? ==> Reviewed(f.value, approvedJobs)
  {
    if lease.record.jobId in q.items {
      assert Reviewed(q.items[lease.record.jobId], approvedJobs);
    }
  }

  // A call and its replay are audited under one key.
  lemma ReplaysShareTheirRow(events: seq<Event>, lease: Lease, result: JobResult, now: int, more: seq<Event>, later: int)
    requires Run(events).Some? && AfterPostgresComplete(Run(events).value.q, lease, result, now).1.Ok?
    requires Run(events + [CompletedBy(lease, result, now)] + more).Some?
    ensures var first := AfterPostgresComplete(Run(events).value.q, lease, result, now).1;
            var again := AfterPostgresComplete(Run(events + [CompletedBy(lease, result, now)] + more).value.q, lease, result, later).1;
            again.Ok? && AuditRows(again.value, "succeeded", GRAPH_WRITE_COMPLETED) == AuditRows(first.value, "succeeded", GRAPH_WRITE_COMPLETED)
  {
    EveryRunSound(events);
    EveryRunSound(events + [CompletedBy(lease, result, now)] + more);
    CompleteAgrees(Run(events).value.q, lease, result, now);
    CompleteReplays(events, lease, result, now, more, later);
    CompleteAgrees(Run(events + [CompletedBy(lease, result, now)] + more).value.q, lease, result, later);
  }

  // So are a failure and any replay of it that is still answered, which is until the job is
  // claimed again; the verdict under which a job waits or failed is in the event.
  lemma FailureReplaysShareTheirRow(events: seq<Event>, lease: Lease, code: string, retryable: bool, delay: int, now: int,
                                    more: seq<Event>, later: int)
    requires Run(events).Some? && AfterPostgresFail(Run(events).value.q, lease, code, retryable, delay, now).1.Ok?
    requires Run(events + [PostgresFailedBy(lease, code, retryable, delay, now)] + more).Some?
    ensures var first := AfterPostgresFail(Run(events).value.q, lease, code, retryable, delay, now).1;
            var q := Run(events + [PostgresFailedBy(lease, code, retryable, delay, now)] + more).value.q;
            var again := AfterPostgresFail(q, lease, code, retryable, delay, later).1;
            && (again.Ok? <==> !Superseded(q, lease))
            && (again.Ok? ==> AuditRows(again.value, FailureEvent(again.value), CodeOf(code))
                              == AuditRows(first.value, FailureEvent(first.value), CodeOf(code)))
  {
    var done := events + [PostgresFailedBy(lease, code, retryable, delay, now)];
    assert done[..|done| - 1] == events;
    RunsMoveForward(done, more, lease.record.jobId);
    EveryRunSound(events);
    assert lease in Run(events).value.issued by {
      assert Run(done).Some?;
    }
    assert GrantedBy(lease, Run(events).value.q.items[lease.record.jobId]);
  }

  // ---------------------------------------------------------------- where the repositories differ

  // A payload queued once, then enqueued again with a limit of nine.
  lemma EnqueueDiffers(request: string)
    ensures var events := [Enqueued(SingleDocument(request), 4, 0, 0)];
            && Run(events).Some?
            && AfterPostgresEnqueue(Run(events).value.q, SingleDocument(request), 9, 1, 5).1 == Err(InvalidRequest)
            && AfterEnqueue(Run(events).value.q, SingleDocument(request), 9, 1, 5).1 == Ok(Fresh(0, SingleDocument(request), 4, 0))
  {
    var events := [Enqueued(SingleDocument(request), 4, 0, 0)];
    assert events[..0] == [];
    assert Run(events[..0]) == Some(Initial);
  }

  // A job claimed, failed for a retry, and failed again by the same call turned permanent.
  lemma FailDiffers(request: string)
    ensures var payload := SingleDocument(request);
            var claimed := Start(Fresh(0, payload, 4, 0), "w", SECOND);
            var lease := LeaseOf(claimed, "w", SECOND);
            var events := [Enqueued(payload, 4, 0, 0), Claimed("w", 1, 0, Some(0), {}), PostgresFailedBy(lease, "timeout", true, 9, 1)];
            && Run(events).Some?
            && AfterPostgresFail(Run(events).value.q, lease, "timeout", false, 9, 2).1 == Err(LeaseLost)
            && AfterFail(Run(events).value.q, lease, "timeout", false, 9, 2, 2).1
               == Ok(Failed(claimed, "timeout", true, 1 + 9 * SECOND))
  {
    RunThree(SingleDocument(request));
  }

  lemma RunThree(payload: Payload)
    requires !payload.GraphWrite?
    ensures var claimed := Start(Fresh(0, payload, 4, 0), "w", SECOND);
            var lease := LeaseOf(claimed, "w", SECOND);
            Run([Enqueued(payload, 4, 0, 0), Claimed("w", 1, 0, Some(0), {}), PostgresFailedBy(lease, "timeout", true, 9, 1)])
            == Some(System(Queue(map[0 := Failed(claimed, "timeout", true, 1 + 9 * SECOND)], map[payload := 0]), {lease}))
  {
    var claimed := Start(Fresh(0, payload, 4, 0), "w", SECOND);
    var lease := LeaseOf(claimed, "w", SECOND);
    var a, b, c := Enqueued(payload, 4, 0, 0), Claimed("w", 1, 0, Some(0), {}), PostgresFailedBy(lease, "timeout", true, 9, 1);
    RunTwo(payload);
    assert [a, b, c][..2] == [a, b];
    var s := System(Queue(map[0 := claimed], map[payload := 0]), {lease});
    assert Run([a, b]) == Some(s) && Allowed(s, c);
    assert Apply(s, c).q.items == map[0 := Failed(claimed, "timeout", true, 1 + 9 * SECOND)];
    assert Apply(s, c).issued == {lease};
    assert [a, b, c][|[a, b, c]| - 1] == c;
  }

  lemma RunOne(a: Event, payload: Payload)
    requires a == Enqueued(payload, 4, 0, 0) && !payload.GraphWrite?
    ensures Run([a]) == Some(System(Queue(map[0 := Fresh(0, payload, 4, 0)], map[payload := 0]), {}))
  {
    assert [a][..0] == [];
    assert Run([a][..0]) == Some(Initial);
  }

  lemma RunTwo(payload: Payload)
    requires !payload.GraphWrite?
    ensures var claimed := Start(Fresh(0, payload, 4, 0), "w", SECOND);
            Run([Enqueued(payload, 4, 0, 0), Claimed("w", 1, 0, Some(0), {})])
            == Some(System(Queue(map[0 := claimed], map[payload := 0]), {LeaseOf(claimed, "w", SECOND)}))
  {
    var a, b := Enqueued(payload, 4, 0, 0), Claimed("w", 1, 0, Some(0), {});
    var items := map[0 := Fresh(0, payload, 4, 0)];
    RunOne(a, payload);
    assert [a, b][..1] == [a];
    assert SafeWorker("w") && MayClaim(items, Some(0), 0);
    assert AfterClaim(items, Some(0), {}, "w", 0, SECOND) == map[0 := Start(items[0], "w", SECOND)];
    var s := System(Queue(items, map[payload := 0]), {});
    var t := System(Queue(map[0 := Start(items[0], "w", SECOND)], map[payload := 0]), {LeaseOf(Start(items[0], "w", SECOND), "w", SECOND)});
    assert Run([a]) == Some(s) && Allowed(s, b);
    assert Apply(s, b).q == t.q;
    assert Apply(s, b).issued == t.issued;
    assert [a, b][|[a, b]| - 1] == b;
  }

  // ---------------------------------------------------------------- the repository

  class PostgresKnowledgeJobRepository {
    var rows: map<nat, Record>
    var byKey: map<Payload, nat>
    var created: map<nat, int>
    var approvedJobs: map<FactGraph.BatchId, nat>
    var audit: set<AuditKey>

    function Contents(): Queue
      reads this
    {
      Queue(rows, byKey)
    }

    predicate Auditable(r: Record, event: string, code: string)
      reads this
    {
      Reviewed(r, approvedJobs) || AuditRows(r, event, code) <= audit
    }

    method Enqueue(payload: Payload, maxAttempts: int, newId: nat, now: int) returns (r: Result<Record, JobError>)
      requires ByKeyStored(Contents())
      modifies this`rows, this`byKey, this`created
      ensures (Contents(), r) == AfterPostgresEnqueue(old(Contents()), payload, maxAttempts, newId, now)
      ensures created == if Contents() == old(Contents()) then old(created) else old(created)[newId := now]
    {
      if payload.GraphWrite? {
        return Err(ReviewOutboxRequired);
      }
      if maxAttempts < 1 || maxAttempts > 8 {
        return Err(InvalidRequest);
      }
      if payload in byKey {
        return Ok(rows[byKey[payload]]);
      }
      var record := Fresh(newId, payload, maxAttempts, now);
      rows, byKey, created := rows[newId := record], byKey[payload := newId], created[newId := now];
      assert payload in byKey;
      r := Ok(record);
    }

    // The audit row of one transition; without it the transaction is rolled back.
    method Audit(record: Record, event: string, code: string) returns (ok: bool)
      modifies this`audit
      ensures ok == old(Auditable(record, event, code))
      ensures audit == if ok then old(audit) + AuditRows(record, event, code) else old(audit)
    {
      if !record.payload.GraphWrite? {
        return true;
      }
      var order := record.payload.order;
      var key := AuditKey(order.batchId, event, Some(record.jobId), record.attempt, record.leaseToken, code);
      if key in audit {
        return true;
      }
      if order.batchId !in approvedJobs || approvedJobs[order.batchId] != record.jobId {
        return false;
      }
      audit := audit + {key};
      ok := true;
    }

    method NextCandidate(locked: set<nat>, now: int) returns (next: Option<nat>)
      requires rows.Keys <= created.Keys
      ensures IsNext(rows, created, rows.Keys, locked, now, next)
    {
      next := None;
      var rest := rows.Keys;
      while rest != {}
        invariant rest <= rows.Keys
        invariant IsNext(rows, created, rows.Keys - rest, locked, now, next)
      {
        var id :| id in rest;
        rest := rest - {id};
        if id !in locked && Claimable(rows[id], now) && (next.None? || Ahead(rows, created, id, next.value)) {
          next := Some(id);
        }
      }
    }

    // Either the whole claim, or a refused call, or a rollback for want of an approved review.
    method Claim(worker: string, seconds: int, locked: set<nat>, now: int) returns (r: Result<Option<Lease>, PersistError>)
      requires rows.Keys <= created.Keys && forall id :: id in rows ==> rows[id].jobId == id
      modifies this`rows, this`audit
      ensures r == Err(Refused(InvalidRequest)) <==> !SafeWorker(worker) || seconds < 1
      ensures r.Err? ==> Contents() == old(Contents()) && audit == old(audit)
      ensures r.Ok? ==>
                var next, until := ClaimedId(r.value), now + seconds * SECOND;
                && IsNext(old(rows), created, old(rows).Keys, locked, now, next)
                && Contents() == AfterPostgresClaim(old(Contents()), next, worker, now, until)
                && (next.None? ==> audit == old(audit))
                && (next.Some? ==>
                      && next.value in rows && r.value.value == Lease(rows[next.value], worker, rows[next.value].leaseToken, until)
                      && audit == old(audit) + AuditRows(rows[next.value], "claimed", "claimed"))
      ensures AllReviewed(old(rows), approvedJobs) ==> r != Err(PersistenceFailed)
      ensures r.Ok? ==>
                && Takes(old(rows), rows, ClaimedId(r.value), old(rows).Keys, worker, now, now + seconds * SECOND)
                && (r.value.None? ==> NoneWaits(old(rows), old(rows).Keys - locked, now))
    {
      if !SafeWorker(worker) || seconds < 1 {
        return Err(Refused(InvalidRequest));
      }
      var until := now + seconds * SECOND;
      var next := NextCandidate(locked, now);
      ClaimIsTwoUpdates(Contents(), next, worker, now, until);
      NextTakes(rows, byKey, created, locked, next, worker, now, until);
      if next.None? {
        rows := Swept(rows, now);
        return Ok(None);
      }
      var running := Start(rows[next.value], worker, until).(result := None);
      assert AllReviewed(rows, approvedJobs) ==> Reviewed(rows[next.value], approvedJobs);
      var audited := Audit(running, "claimed", "claimed");
      if !audited {
        return Err(PersistenceFailed);
      }
      rows := Swept(rows, now)[next.value := running];
      r := Ok(Some(LeaseOf(running, worker, until)));
    }

    method Renew(lease: Lease, seconds: int, now: int) returns (r: Result<Lease, JobError>)
      modifies this`rows
      ensures SafeWorker(lease.worker) ==> (Contents(), r) == AfterRenew(old(Contents()), lease, seconds, now, now)
      ensures !SafeWorker(lease.worker) ==> Contents() == old(Contents()) && r == Err(InvalidRequest)
    {
      if !SafeWorker(lease.worker) || seconds < 1 {
        return Err(InvalidRequest);
      }
      if !Leased(Contents(), lease, now) {
        return Err(LeaseLost);
      }
      var id := lease.record.jobId;
      var until := now + seconds * SECOND;
      var renewed := rows[id].(leaseUntil := Some(until));
      rows := rows[id := renewed];
      r := Ok(Lease(renewed, lease.worker, lease.token, until));
    }

    method Complete(lease: Lease, result: JobResult, now: int) returns (r: Result<Record, PersistError>)
      modifies this`rows, this`audit
      ensures var (q, answer) := AfterPostgresComplete(old(Contents()), lease, result, now);
              if answer.Ok? && !old(Auditable(answer.value, "succeeded", GRAPH_WRITE_COMPLETED))
              then r == Err(PersistenceFailed) && Contents() == old(Contents())
              else Contents() == q && r == if answer.Ok? then Ok(answer.value) else Err(Refused(answer.error))
      ensures audit == old(audit) + if r.Ok? then AuditRows(r.value, "succeeded", GRAPH_WRITE_COMPLETED) else {}
    {
      var id := lease.record.jobId;
      if Leased(Contents(), lease, now) {
        var completed := Completed(rows[id], result).(lastError := None);
        var audited := Audit(completed, "succeeded", GRAPH_WRITE_COMPLETED);
        if !audited {
          return Err(PersistenceFailed);
        }
        rows := rows[id := completed];
        return Ok(completed);
      }
      if id !in rows {
        return Err(Refused(LeaseLost));
      }
      var existing := rows[id];
      if existing.status == Succeeded && existing.leaseToken == lease.token && existing.result == Some(result) {
        var audited := Audit(existing, "succeeded", GRAPH_WRITE_COMPLETED);
        return if audited then Ok(existing) else Err(PersistenceFailed);
      }
      r := Err(Refused(LeaseLost));
    }

    method Fail(lease: Lease, code: string, retryable: bool, delay: int, now: int) returns (r: Result<Record, PersistError>)
      modifies this`rows, this`audit
      ensures var (q, answer) := AfterPostgresFail(old(Contents()), lease, code, retryable, delay, now);
              if answer.Ok? && !old(Auditable(answer.value, FailureEvent(answer.value), CodeOf(code)))
              then r == Err(PersistenceFailed) && Contents() == old(Contents())
              else Contents() == q && r == if answer.Ok? then Ok(answer.value) else Err(Refused(answer.error))
      ensures audit == old(audit) + if r.Ok? then AuditRows(r.value, FailureEvent(r.value), CodeOf(code)) else {}
    {
      if delay < 0 {
        return Err(Refused(InvalidRequest));
      }
      var id := lease.record.jobId;
      var willRetry := retryable && lease.record.attempt < lease.record.maxAttempts;
      var status, event := if willRetry then RetryWait else FailedPermanent, if willRetry then "retry_scheduled" else "failed_permanent";
      if Leased(Contents(), lease, now) {
        var failed := Failed(rows[id], CodeOf(code), willRetry, now + if willRetry then delay * SECOND else 0).(result := None);
        var audited := Audit(failed, event, CodeOf(code));
        if !audited {
          return Err(PersistenceFailed);
        }
        rows := rows[id := failed];
        return Ok(failed);
      }
      if id !in rows {
        return Err(Refused(LeaseLost));
      }
      var existing := rows[id];
      if existing.status == status && existing.leaseToken == lease.token && existing.lastError == Some(CodeOf(code)) {
        var audited := Audit(existing, event, CodeOf(code));
        return if audited then Ok(existing) else Err(PersistenceFailed);
      }
      r := Err(Refused(LeaseLost));
    }
  }

  function FailureEvent(r: Record): string {
    if r.status == RetryWait then "retry_scheduled" else "failed_permanent"
  }
}
