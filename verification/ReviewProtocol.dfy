// Human review, the transactional outbox, leased workers and the graph writer as one
// protocol.  Each SQL transaction is one step; between its steps a worker may crash, lose
// its lease or be overtaken.  The effect on the graph is nevertheless exactly once.

module ReviewProtocol {
  import opened Common
  import opened FactGraph
  import opened GraphWriter
  import opened AgeWriter
  import JobQueue
  import PostgresJobs

  // What reviewing and writing read of a completed extraction.
  datatype Draft = Draft(batchId: BatchId, item: Item)

  // A decided review; the approval carries the verdict, and its digest stands for it.
  datatype Review = Review(approval: Approval, jobId: Option<nat>, reviewedAt: int)

  // Where a worker is between two transactions.
  datatype Phase =
    | Loaded(lease: JobQueue.Lease, draft: Draft)
    | Cleared(lease: JobQueue.Lease, draft: Draft, approval: Approval, clearedAt: int)
    | Wrote(lease: JobQueue.Lease, written: WriteResult)
    | Broken(lease: JobQueue.Lease, code: string, retryable: bool)

  datatype State = State(drafts: map<IdempotencyKey, Draft>, reviews: map<BatchId, Review>, jobs: JobQueue.System,
                         rows: map<IdempotencyKey, BatchRow>, graph: Graph, log: seq<Item>, workers: map<nat, Phase>)

  const Initial := State(map[], map[], JobQueue.Initial, map[], EmptyGraph, [], map[])

  function DraftOf(b: Batch): Draft {
    Draft(BatchIdOf(b), ItemOf(b))
  }

  function FindDraft(drafts: map<IdempotencyKey, Draft>, id: BatchId): Option<Draft> {
    if id.key in drafts && drafts[id.key].batchId == id then Some(drafts[id.key]) else None
  }

  function OrderOf(a: Approval): JobQueue.GraphOrder {
    JobQueue.GraphOrder(a.batchId, a.key, a.projection, a)
  }

  // ---------------------------------------------------------------- deciding

  datatype ReviewError = NotFound | ReviewConflict | PersistenceFailed

  datatype Command = Command(batchId: BatchId, approve: bool, reviewer: string, audit: string, ttl: int,
                             maxAttempts: int, newId: nat, now: int)

  function ApprovalOf(c: Command, d: Draft): Approval {
    Approval(d.batchId, d.item.key, d.item.p, c.approve, c.reviewer, c.audit, c.now + c.ttl)
  }

  predicate ValidCommand(c: Command) {
    0 < c.ttl && 1 <= c.maxAttempts <= 8
  }

  // One transaction: the verdict and, if it is positive, its job.
  function AfterDecide(s: State, c: Command): (State, Result<Review, ReviewError>)
    requires ValidCommand(c)
  {
    match FindDraft(s.drafts, c.batchId)
    case None => (s, Err(NotFound))
    case Some(d) =>
      if !WithinLimits(d.item.p) then (s, Err(PersistenceFailed))
      else if c.batchId in s.reviews then
        var existing := s.reviews[c.batchId];
        if existing.approval.batchId != d.batchId || existing.approval.key != d.item.key || existing.approval.projection != d.item.p
        then (s, Err(PersistenceFailed))
        else if existing.approval.approved != c.approve then (s, Err(ReviewConflict))
        else (s, Ok(existing))
      else
        var approval := ApprovalOf(c, d);
        if !c.approve then
          var review := Review(approval, None, c.now);
          (s.(reviews := s.reviews[c.batchId := review]), Ok(review))
        else
          var (q, job) := JobQueue.AfterInsert(s.jobs.q, JobQueue.GraphWrite(OrderOf(approval)), c.maxAttempts, c.newId, c.now);
          if job.Err? then (s, Err(PersistenceFailed))
          else
            var review := Review(approval, Some(job.value.jobId), c.now);
            (s.(reviews := s.reviews[c.batchId := review], jobs := s.jobs.(q := q)), Ok(review))
  }

  // The repository's transactions, statement by statement.
  class PostgresFactReviewRepository {
    const ttl: int
    const maxAttempts: int
    var drafts: map<IdempotencyKey, Draft>
    var reviews: map<BatchId, Review>
    var items: map<nat, JobQueue.Record>
    var byKey: map<JobQueue.Payload, nat>
    var audit: set<PostgresJobs.AuditKey>

    // The tables as a protocol state without workers and graph.
    function Tables(): State
      reads this
    {
      State(drafts, reviews, JobQueue.System(Jobs(), {}), map[], EmptyGraph, [], map[])
    }

    function Jobs(): JobQueue.Queue
      reads this
    {
      JobQueue.Queue(items, byKey)
    }

    constructor (ttl: int, maxAttempts: int, drafts: map<IdempotencyKey, Draft>)
      requires 0 < ttl <= 365 * 86_400 * JobQueue.SECOND && 1 <= maxAttempts <= 8
      ensures Tables() == Initial.(drafts := drafts) && audit == {}
      ensures this.ttl == ttl && this.maxAttempts == maxAttempts
    {
      this.ttl, this.maxAttempts, this.drafts := ttl, maxAttempts, drafts;
      reviews, items, byKey, audit := map[], map[], map[], {};
    }

    // The job of an approval, inserted unless its key is taken by the same payload.
    method InsertOutbox(order: JobQueue.GraphOrder, newId: nat, now: int) returns (jobId: Option<nat>)
      requires Indexed(Jobs()) && 1 <= maxAttempts <= 8
      modifies this`items, this`byKey
      ensures var (q, job) := JobQueue.AfterInsert(old(Jobs()), JobQueue.GraphWrite(order), maxAttempts, newId, now);
              job.Ok? && Jobs() == q && jobId == Some(job.value.jobId)
    {
      var payload := JobQueue.GraphWrite(order);
      if payload !in byKey {
        items := items[newId := JobQueue.Fresh(newId, payload, maxAttempts, now)];
        byKey := byKey[payload := newId];
        return Some(newId);
      }
      var existing := items[byKey[payload]];
      if existing.payload != payload {
        return None;
      }
      jobId := Some(existing.jobId);
    }

    method Decide(batchId: BatchId, approve: bool, reviewer: string, comment: string, newId: nat, now: int)
      returns (r: Result<Review, ReviewError>)
      requires Indexed(Jobs()) && 0 < ttl && 1 <= maxAttempts <= 8
      modifies this
      ensures (Tables(), r) == AfterDecide(old(Tables()), Command(batchId, approve, reviewer, comment, ttl, maxAttempts, newId, now))
      ensures audit == old(audit) + if reviews == old(reviews) then {} else {VerdictRow(reviews[batchId])}
      ensures r.Ok? && batchId !in old(reviews) ==>
                PostgresJobs.AuditKey(batchId, if approve then "review_approved" else "review_rejected", r.value.jobId, 0, 0,
                                      if approve then "approved" else "rejected") in audit
    {
      var draft := FindDraft(drafts, batchId);
      if draft.None? {
        return Err(NotFound);
      }
      var item := draft.value.item;
      if !WithinLimits(item.p) {
        return Err(PersistenceFailed);
      }
      if batchId in reviews {
        var existing := reviews[batchId];
        if existing.approval.batchId != draft.value.batchId || existing.approval.key != item.key || existing.approval.projection != item.p {
          return Err(PersistenceFailed);
        }
        if existing.approval.approved != approve {
          return Err(ReviewConflict);
        }
        return Ok(existing);
      }
      var approval := Approval(draft.value.batchId, item.key, item.p, approve, reviewer, comment, now + ttl);
      var jobId: Option<nat> := None;
      if approval.approved {
        jobId := InsertOutbox(OrderOf(approval), newId, now);
        if jobId.None? {
          return Err(PersistenceFailed);
        }
      }
      var review := Review(approval, jobId, now);
      reviews := reviews[batchId := review];
      audit := audit + {VerdictRow(review)};
      r := Ok(review);
    }
  }

  // The unique index on the jobs' idempotency keys.
  predicate Indexed(q: JobQueue.Queue) {
    forall p :: p in q.byKey ==> q.byKey[p] in q.items && q.items[q.byKey[p]].payload == p
  }

  function VerdictRow(review: Review): PostgresJobs.AuditKey {
    if review.approval.approved then PostgresJobs.AuditKey(review.approval.batchId, "review_approved", review.jobId, 0, 0, "approved")
    else PostgresJobs.AuditKey(review.approval.batchId, "review_rejected", review.jobId, 0, 0, "rejected")
  }

  // ---------------------------------------------------------------- executing

  // The batch of a graph order, re-checked against the review it came from.
  function LoadApproved(s: State, order: JobQueue.GraphOrder): Result<Draft, string> {
    match FindDraft(s.drafts, order.batchId)
    case None => Err("graph_write.batch_missing")
    case Some(d) =>
      if order.batchId !in s.reviews then Err("graph_write.review_pending")
      else
        var approval := s.reviews[order.batchId].approval;
        if !approval.approved then Err("graph_write.review_rejected")
        else if d.item.key != order.key || d.item.p != order.projection || approval.key != order.key
                || approval.projection != order.projection || approval != order.approval then Err("graph_write.review_mismatch")
        else Ok(d)
  }

  function LookUp(s: State, d: Draft): Lookup {
    if d.batchId !in s.reviews then Missing
    else
      var a := s.reviews[d.batchId].approval;
      if a.key != d.item.key || a.projection != d.item.p then Missing else Found(a)
  }

  datatype Step =
    | Extracted(batch: Batch)
    | Decided(command: Command)
    | QueueStep(event: JobQueue.Event)
    | Load(worker: nat, lease: JobQueue.Lease)
    | ClearForWriting(worker: nat, now: int)
    | WriteGraph(worker: nat)
    | DependencyFails(worker: nat, code: string, retryable: bool)
    | Finish(worker: nat, now: int)
    | Report(worker: nat, delay: int, now: int)
    | Crash(worker: nat)

  predicate GraphLease(s: State, lease: JobQueue.Lease) {
    lease in s.jobs.issued && lease.record.payload.GraphWrite?
  }

  // Graph jobs are completed only by a worker that wrote, and inserted only by a review.
  predicate Allowed(s: State, e: Step) {
    match e
    case Extracted(batch) => ValidBatch(batch)
    case Decided(command) => ValidCommand(command) && command.newId !in s.jobs.q.items
    case QueueStep(event) =>
      JobQueue.Allowed(s.jobs, event) && !event.Outbox? && !(event.CompletedBy? && event.lease.record.payload.GraphWrite?)
    case Load(worker, lease) => worker !in s.workers && GraphLease(s, lease)
    case ClearForWriting(worker, _) => worker in s.workers && s.workers[worker].Loaded?
    case WriteGraph(worker) => worker in s.workers && s.workers[worker].Cleared?
    case DependencyFails(worker, _, _) => worker in s.workers && !s.workers[worker].Wrote?
    case Finish(worker, _) => worker in s.workers && s.workers[worker].Wrote?
    case Report(worker, _, _) => worker in s.workers && s.workers[worker].Broken?
    case Crash(worker) => worker in s.workers
  }

  function AtPhase(s: State, worker: nat, phase: Phase): State {
    s.(workers := s.workers[worker := phase])
  }

  function Gone(s: State, worker: nat): State {
    s.(workers := s.workers - {worker})
  }

  function ReceiptOf(d: Draft, status: WriteStatus): WriteResult {
    WriteResult(d.batchId, d.item.key, status, |d.item.p.nodes|, |d.item.p.edges|)
  }

  // The write transaction: found, refused, or stored with its approval.
  function WriteStep(s: State, worker: nat, lease: JobQueue.Lease, d: Draft, approval: Approval, clearedAt: int): State {
    match Commit(s.graph, d.item)
    case None => AtPhase(s, worker, Broken(lease, "graph_write.conflict", false))
    case Some(after) =>
      if d.item.key in s.graph.batches then AtPhase(s, worker, Wrote(lease, ReceiptOf(d, AlreadyPresent)))
      else
        AtPhase(s.(graph := after, log := s.log + [d.item], rows := s.rows[d.item.key := BatchRow(d.item.p, approval, clearedAt)]),
                worker, Wrote(lease, ReceiptOf(d, Written)))
  }

  function FinishEvent(phase: Phase, now: int): JobQueue.Event
    requires phase.Wrote?
  {
    JobQueue.CompletedBy(phase.lease, JobQueue.GraphResult(phase.written), now)
  }

  function ReportEvent(phase: Phase, delay: int, now: int): JobQueue.Event
    requires phase.Broken?
  {
    JobQueue.PostgresFailedBy(phase.lease, phase.code, phase.retryable, delay, now)
  }

  // How the executor reports a refused approval; only an unavailable one is worth a retry.
  function ApprovalCode(e: AgeError): string {
    match e
    case ApprovalUnavailable => "knowledge_graph_approval_unavailable"
    case ApprovalMissing => "knowledge_graph_approval_missing"
    case ApprovalInvalid => "knowledge_graph_approval_invalid"
    case ApprovalMismatch => "knowledge_graph_approval_mismatch"
    case ApprovalRejected => "knowledge_graph_approval_rejected"
    case ApprovalExpired => "knowledge_graph_approval_expired"
    case UnsafeGraph => "graph_write.unsafe_payload"
    case _ => "graph_write.dependency_failure"
  }

  function Clear(s: State, lease: JobQueue.Lease, d: Draft, now: int): Phase {
    var r := if WithinLimits(d.item.p) then RequireApproval(d.batchId, d.item.key, d.item.p, LookUp(s, d), now) else Err(UnsafeGraph);
    if r.Ok? then Cleared(lease, d, r.value, now) else Broken(lease, ApprovalCode(r.error), r.error == ApprovalUnavailable)
  }

  // Workers hold leases the queue granted.
  predicate WorkersLeased(s: State) {
    forall w :: w in s.workers ==> GraphLease(s, s.workers[w].lease)
  }

  function Next(s: State, e: Step): State
    requires WorkersLeased(s) && Allowed(s, e)
  {
    match e
    case Extracted(batch) =>
      if KeyOf(batch) in s.drafts then s else s.(drafts := s.drafts[KeyOf(batch) := DraftOf(batch)])
    case Decided(command) => AfterDecide(s, command).0
    case QueueStep(event) => s.(jobs := JobQueue.Apply(s.jobs, event))
    case Load(worker, lease) =>
      var r := LoadApproved(s, lease.record.payload.order);
      AtPhase(s, worker, if r.Ok? then Loaded(lease, r.value) else Broken(lease, r.error, false))
    case ClearForWriting(worker, now) =>
      AtPhase(s, worker, Clear(s, s.workers[worker].lease, s.workers[worker].draft, now))
    case WriteGraph(worker) =>
      var p := s.workers[worker];
      WriteStep(s, worker, p.lease, p.draft, p.approval, p.clearedAt)
    case DependencyFails(worker, code, retryable) => AtPhase(s, worker, Broken(s.workers[worker].lease, code, retryable))
    case Finish(worker, now) => Gone(s.(jobs := JobQueue.Apply(s.jobs, FinishEvent(s.workers[worker], now))), worker)
    case Report(worker, delay, now) => Gone(s.(jobs := JobQueue.Apply(s.jobs, ReportEvent(s.workers[worker], delay, now))), worker)
    case Crash(worker) => Gone(s, worker)
  }

  // ---------------------------------------------------------------- the invariant

  predicate DraftsOk(drafts: map<IdempotencyKey, Draft>) {
    forall k :: k in drafts ==>
      drafts[k].batchId.key == k && drafts[k].item.key == k && ClosedParts(drafts[k].item.p.nodes, drafts[k].item.p.edges)
  }

  // A review speaks about the stored draft of its batch.
  predicate Bound(drafts: map<IdempotencyKey, Draft>, id: BatchId, review: Review) {
    && FindDraft(drafts, id).Some?
    && var d := FindDraft(drafts, id).value;
    && review.approval.batchId == id && review.approval.key == d.item.key && review.approval.projection == d.item.p
    && WithinLimits(d.item.p)
    && (review.approval.approved <==> review.jobId.Some?)
  }

  predicate ReviewsOk(drafts: map<IdempotencyKey, Draft>, reviews: map<BatchId, Review>) {
    forall id :: id in reviews ==> Bound(drafts, id, reviews[id])
  }

  predicate HasJob(items: map<nat, JobQueue.Record>, review: Review) {
    review.jobId.Some? ==> review.jobId.value in items && items[review.jobId.value].payload == JobQueue.GraphWrite(OrderOf(review.approval))
  }

  predicate OutboxOk(reviews: map<BatchId, Review>, items: map<nat, JobQueue.Record>) {
    forall id :: id in reviews ==> HasJob(items, reviews[id])
  }

  // The review a graph job came from.
  predicate Ordered(reviews: map<BatchId, Review>, job: nat, order: JobQueue.GraphOrder) {
    && order.batchId in reviews
    && var review := reviews[order.batchId];
    && review.approval.approved && review.jobId == Some(job) && order == OrderOf(review.approval)
  }

  predicate JobsOk(reviews: map<BatchId, Review>, items: map<nat, JobQueue.Record>) {
    forall j :: j in items && items[j].payload.GraphWrite? ==> Ordered(reviews, j, items[j].payload.order)
  }

  predicate RowBound(reviews: map<BatchId, Review>, key: IdempotencyKey, row: BatchRow) {
    && ApprovedRow(key, row)
    && row.approval.batchId in reviews && reviews[row.approval.batchId].approval == row.approval
  }

  predicate RowsOk(reviews: map<BatchId, Review>, rows: map<IdempotencyKey, BatchRow>) {
    forall k :: k in rows ==> RowBound(reviews, k, rows[k])
  }

  // The graph is what the logged commits made of it, each key once.
  predicate GraphOk(rows: map<IdempotencyKey, BatchRow>, graph: Graph, log: seq<Item>) {
    && graph.batches == Digests(rows)
    && CommitItems(log) == Some(graph)
    && (forall i :: 0 <= i < |log| ==> log[i].key in rows)
    && (forall i, j :: 0 <= i < j < |log| ==> log[i].key != log[j].key)
  }

  predicate PhaseOk(s: State, phase: Phase) {
    && GraphLease(s, phase.lease)
    && var order := phase.lease.record.payload.order;
    && (phase.Loaded? || phase.Cleared? ==>
          FindDraft(s.drafts, order.batchId) == Some(phase.draft) && phase.draft.item == Item(order.key, order.projection))
    && (phase.Cleared? ==> phase.approval == order.approval && phase.approval.approved && phase.clearedAt < phase.approval.expiresAt)
    && (phase.Wrote? ==>
          && order.key in s.rows && phase.written.batchId == order.batchId && phase.written.key == order.key
          && phase.written.nodeCount == |order.projection.nodes| && phase.written.edgeCount == |order.projection.edges|)
  }

  predicate WorkersOk(s: State) {
    forall w :: w in s.workers ==> PhaseOk(s, s.workers[w])
  }

  predicate DoneOk(items: map<nat, JobQueue.Record>, rows: map<IdempotencyKey, BatchRow>) {
    forall j :: j in items && items[j].payload.GraphWrite? && items[j].status == JobQueue.Succeeded ==> items[j].payload.order.key in rows
  }

  ghost predicate Inv(s: State) {
    && JobQueue.Inv(s.jobs)
    && DraftsOk(s.drafts)
    && ReviewsOk(s.drafts, s.reviews)
    && OutboxOk(s.reviews, s.jobs.q.items)
    && JobsOk(s.reviews, s.jobs.q.items)
    && RowsOk(s.reviews, s.rows)
    && GraphOk(s.rows, s.graph, s.log)
    && WorkersOk(s)
    && DoneOk(s.jobs.q.items, s.rows)
  }

  lemma InvLeases(s: State)
    requires Inv(s)
    ensures WorkersLeased(s)
  {
  }

  // ---------------------------------------------------------------- steps of the queue

  lemma IssuedGrows(s: JobQueue.System, e: JobQueue.Event)
    requires JobQueue.Allowed(s, e)
    ensures s.issued <= JobQueue.Apply(s, e).issued
  {
  }

  lemma QueueKeepsJobs(s: State, e: JobQueue.Event)
    requires Inv(s) && JobQueue.Allowed(s.jobs, e) && !e.Outbox?
    ensures OutboxOk(s.reviews, JobQueue.Apply(s.jobs, e).q.items) && JobsOk(s.reviews, JobQueue.Apply(s.jobs, e).q.items)
  {
    var items := JobQueue.Apply(s.jobs, e).q.items;
    forall id | id in s.reviews
      ensures HasJob(items, s.reviews[id])
    {
      if s.reviews[id].jobId.Some? {
        assert HasJob(s.jobs.q.items, s.reviews[id]);
        JobQueue.StepMoves(s.jobs, e, s.reviews[id].jobId.value);
      }
    }
    forall j | j in items && items[j].payload.GraphWrite?
      ensures Ordered(s.reviews, j, items[j].payload.order)
    {
      if j in s.jobs.q.items {
        JobQueue.StepMoves(s.jobs, e, j);
      } else {
        JobQueue.WhereJobsComeFrom(s.jobs, e, j);
      }
    }
  }

  lemma QueueKeepsDone(s: State, e: JobQueue.Event)
    requires Inv(s) && JobQueue.Allowed(s.jobs, e)
    requires e.CompletedBy? && e.lease.record.payload.GraphWrite? ==> e.lease.record.payload.order.key in s.rows
    ensures DoneOk(JobQueue.Apply(s.jobs, e).q.items, s.rows)
  {
    var items := JobQueue.Apply(s.jobs, e).q.items;
    forall j | j in items && items[j].payload.GraphWrite? && items[j].status == JobQueue.Succeeded
      ensures items[j].payload.order.key in s.rows
    {
      JobQueue.OnlyCompletionSucceeds(s.jobs, e, j);
      JobQueue.StepMoves(s.jobs, e, j);
      assert e.CompletedBy? ==> JobQueue.GrantedBy(e.lease, s.jobs.q.items[e.lease.record.jobId]);
    }
  }

  lemma QueueKeepsInv(s: State, e: JobQueue.Event)
    requires Inv(s) && JobQueue.Allowed(s.jobs, e) && !e.Outbox?
    requires e.CompletedBy? && e.lease.record.payload.GraphWrite? ==> e.lease.record.payload.order.key in s.rows
    ensures Inv(s.(jobs := JobQueue.Apply(s.jobs, e)))
  {
    JobQueue.StepKeepsInv(s.jobs, e);
    QueueKeepsJobs(s, e);
    QueueKeepsDone(s, e);
    IssuedGrows(s.jobs, e);
    PhasesCarry(s, s.(jobs := JobQueue.Apply(s.jobs, e)));
  }

  // Phases survive whatever only adds leases, drafts and rows.
  lemma PhasesCarry(s: State, t: State)
    requires WorkersOk(s) && t.workers == s.workers && s.jobs.issued <= t.jobs.issued && s.rows.Keys <= t.rows.Keys
    requires forall k :: k in s.drafts ==> k in t.drafts && t.drafts[k] == s.drafts[k]
    ensures WorkersOk(t)
  {
    forall w | w in t.workers
      ensures PhaseOk(t, t.workers[w])
    {
      assert PhaseOk(s, s.workers[w]);
    }
  }

  // ---------------------------------------------------------------- steps of a worker

  lemma PutPhase(s: State, worker: nat, phase: Phase)
    requires Inv(s) && PhaseOk(s, phase)
    ensures Inv(AtPhase(s, worker, phase))
  {
    var t := AtPhase(s, worker, phase);
    forall w | w in t.workers
      ensures PhaseOk(t, t.workers[w])
    {
      assert w != worker ==> PhaseOk(s, s.workers[w]);
      SamePhase(s, t, t.workers[w]);
    }
  }

  lemma SamePhase(s: State, t: State, phase: Phase)
    requires PhaseOk(s, phase) && t.jobs == s.jobs && t.drafts == s.drafts && t.rows == s.rows
    ensures PhaseOk(t, phase)
  {
  }

  lemma GoneKeepsInv(s: State, worker: nat)
    requires Inv(s)
    ensures Inv(Gone(s, worker))
  {
    var t := Gone(s, worker);
    forall w | w in t.workers
      ensures PhaseOk(t, t.workers[w])
    {
      assert PhaseOk(s, s.workers[w]);
      SamePhase(s, t, t.workers[w]);
    }
  }

  // A lease on a graph job leads to its approved review.
  lemma LeaseOrdered(s: State, lease: JobQueue.Lease)
    requires Inv(s) && GraphLease(s, lease)
    ensures Ordered(s.reviews, lease.record.jobId, lease.record.payload.order)
  {
    assert JobQueue.GrantedBy(lease, s.jobs.q.items[lease.record.jobId]);
  }

  lemma LoadSucceeds(s: State, lease: JobQueue.Lease)
    requires Inv(s) && GraphLease(s, lease)
    ensures LoadApproved(s, lease.record.payload.order).Ok?
    ensures PhaseOk(s, Loaded(lease, LoadApproved(s, lease.record.payload.order).value))
  {
    LeaseOrdered(s, lease);
    var order := lease.record.payload.order;
    assert Bound(s.drafts, order.batchId, s.reviews[order.batchId]);
  }

  lemma LookUpFinds(s: State, d: Draft, a: Approval)
    requires ReviewsOk(s.drafts, s.reviews) && FindDraft(s.drafts, d.batchId) == Some(d)
    requires d.batchId in s.reviews && s.reviews[d.batchId].approval == a
    ensures LookUp(s, d) == Found(a) && WithinLimits(d.item.p)
    ensures a.batchId == d.batchId && a.key == d.item.key && a.projection == d.item.p
  {
    assert Bound(s.drafts, d.batchId, s.reviews[d.batchId]);
  }

  lemma ClearFound(s: State, lease: JobQueue.Lease, d: Draft, a: Approval, now: int)
    requires LookUp(s, d) == Found(a) && WithinLimits(d.item.p) && a.approved
    requires a.batchId == d.batchId && a.key == d.item.key && a.projection == d.item.p
    ensures if now < a.expiresAt then Clear(s, lease, d, now) == Cleared(lease, d, a, now)
            else Clear(s, lease, d, now) == Broken(lease, "knowledge_graph_approval_expired", false)
  {
  }

  // With the review in place only the clock can turn a loaded batch away.
  lemma ClearsUntilExpiry(s: State, phase: Phase, now: int)
    requires Inv(s) && PhaseOk(s, phase) && phase.Loaded?
    ensures PhaseOk(s, Clear(s, phase.lease, phase.draft, now))
    ensures Clear(s, phase.lease, phase.draft, now).Cleared? <==> now < phase.lease.record.payload.order.approval.expiresAt
  {
    LeaseOrdered(s, phase.lease);
    var a := phase.lease.record.payload.order.approval;
    DraftIdentity(s.drafts, phase.lease.record.payload.order.batchId);
    LookUpFinds(s, phase.draft, a);
    ClearFound(s, phase.lease, phase.draft, a, now);
  }

  lemma DraftIdentity(drafts: map<IdempotencyKey, Draft>, id: BatchId)
    requires FindDraft(drafts, id).Some?
    ensures FindDraft(drafts, id).value.batchId == id
  {
  }

  // ---------------------------------------------------------------- the write transaction

  lemma CommitAppended(log: seq<Item>, graph: Graph, x: Item)
    requires CommitItems(log) == Some(graph)
    ensures CommitItems(log + [x]) == Commit(graph, x)
  {
    assert (log + [x])[..|log|] == log;
  }

  lemma GraphGrows(rows: map<IdempotencyKey, BatchRow>, graph: Graph, log: seq<Item>, x: Item, row: BatchRow)
    requires GraphOk(rows, graph, log) && x.key !in graph.batches && Commit(graph, x).Some? && row.projection == x.p
    ensures GraphOk(rows[x.key := row], Commit(graph, x).value, log + [x])
  {
    CommitAppended(log, graph, x);
    DigestAdded(rows, x.key, row);
  }

  lemma WriteKeepsInv(s: State, worker: nat)
    requires Inv(s) && worker in s.workers && s.workers[worker].Cleared?
    ensures var p := s.workers[worker]; Inv(WriteStep(s, worker, p.lease, p.draft, p.approval, p.clearedAt))
  {
    var p := s.workers[worker];
    assert PhaseOk(s, p);
    if Commit(s.graph, p.draft.item).None? {
      PutPhase(s, worker, Broken(p.lease, "graph_write.conflict", false));
    } else if p.draft.item.key in s.graph.batches {
      PutPhase(s, worker, Wrote(p.lease, ReceiptOf(p.draft, AlreadyPresent)));
    } else {
      FirstWriteKeepsInv(s, p);
      PutPhase(Stored(s, p), worker, Wrote(p.lease, ReceiptOf(p.draft, Written)));
    }
  }

  function Stored(s: State, p: Phase): State
    requires p.Cleared? && Commit(s.graph, p.draft.item).Some?
  {
    s.(graph := Commit(s.graph, p.draft.item).value, log := s.log + [p.draft.item],
       rows := s.rows[p.draft.item.key := BatchRow(p.draft.item.p, p.approval, p.clearedAt)])
  }

  lemma AddRowKeepsRows(reviews: map<BatchId, Review>, rows: map<IdempotencyKey, BatchRow>, key: IdempotencyKey, row: BatchRow)
    requires RowsOk(reviews, rows) && RowBound(reviews, key, row)
    ensures RowsOk(reviews, rows[key := row])
  {
  }

  lemma ClearedRowBound(s: State, p: Phase)
    requires Inv(s) && PhaseOk(s, p) && p.Cleared?
    ensures RowBound(s.reviews, p.draft.item.key, BatchRow(p.draft.item.p, p.approval, p.clearedAt))
  {
    LeaseOrdered(s, p.lease);
  }

  lemma AddRowKeepsDone(items: map<nat, JobQueue.Record>, rows: map<IdempotencyKey, BatchRow>, key: IdempotencyKey, row: BatchRow)
    requires DoneOk(items, rows)
    ensures DoneOk(items, rows[key := row])
  {
  }

  lemma FirstWriteKeepsInv(s: State, p: Phase)
    requires Inv(s) && PhaseOk(s, p) && p.Cleared? && p.draft.item.key !in s.graph.batches && Commit(s.graph, p.draft.item).Some?
    ensures Inv(Stored(s, p)) && PhaseOk(Stored(s, p), Wrote(p.lease, ReceiptOf(p.draft, Written)))
  {
    var row := BatchRow(p.draft.item.p, p.approval, p.clearedAt);
    ClearedRowBound(s, p);
    AddRowKeepsRows(s.reviews, s.rows, p.draft.item.key, row);
    AddRowKeepsDone(s.jobs.q.items, s.rows, p.draft.item.key, row);
    GraphGrows(s.rows, s.graph, s.log, p.draft.item, row);
    PhasesCarry(s, Stored(s, p));
    WroteOk(s, p);
  }

  lemma WroteOk(s: State, p: Phase)
    requires PhaseOk(s, p) && p.Cleared? && Commit(s.graph, p.draft.item).Some?
    ensures PhaseOk(Stored(s, p), Wrote(p.lease, ReceiptOf(p.draft, Written)))
  {
  }

  // ---------------------------------------------------------------- extracting and deciding

  lemma ExtractKeepsInv(s: State, b: Batch)
    requires Inv(s) && ValidBatch(b) && KeyOf(b) !in s.drafts
    ensures Inv(s.(drafts := s.drafts[KeyOf(b) := DraftOf(b)]))
  {
    ProjectionIsClosed(b);
    DraftKeyed(b);
    AddDraftKeepsInv(s, DraftOf(b), KeyOf(b));
  }

  lemma DraftKeyed(b: Batch)
    ensures DraftOf(b).batchId.key == KeyOf(b) == DraftOf(b).item.key && DraftOf(b).item.p == Project(b)
  {
  }

  lemma AddDraftKeepsInv(s: State, d: Draft, k: IdempotencyKey)
    requires Inv(s) && k !in s.drafts && d.batchId.key == k == d.item.key && ClosedParts(d.item.p.nodes, d.item.p.edges)
    ensures Inv(s.(drafts := s.drafts[k := d]))
  {
    PhasesCarry(s, s.(drafts := s.drafts[k := d]));
    AddDraftKeepsReviews(s.drafts, s.reviews, d, k);
  }

  lemma AddDraftKeepsReviews(drafts: map<IdempotencyKey, Draft>, reviews: map<BatchId, Review>, d: Draft, k: IdempotencyKey)
    requires ReviewsOk(drafts, reviews) && k !in drafts
    ensures ReviewsOk(drafts[k := d], reviews)
  {
    forall id | id in reviews
      ensures Bound(drafts[k := d], id, reviews[id])
    {
      assert Bound(drafts, id, reviews[id]);
    }
  }

  // The reviews and their jobs after one more verdict.
  lemma AddReviewKeepsRows(s: State, id: BatchId, review: Review)
    requires RowsOk(s.reviews, s.rows) && id !in s.reviews
    ensures RowsOk(s.reviews[id := review], s.rows)
  {
    forall k | k in s.rows
      ensures RowBound(s.reviews[id := review], k, s.rows[k])
    {
      assert RowBound(s.reviews, k, s.rows[k]);
    }
  }

  lemma AddReviewKeepsJobs(s: State, id: BatchId, review: Review)
    requires JobsOk(s.reviews, s.jobs.q.items) && id !in s.reviews
    ensures JobsOk(s.reviews[id := review], s.jobs.q.items)
  {
    forall j | j in s.jobs.q.items && s.jobs.q.items[j].payload.GraphWrite?
      ensures Ordered(s.reviews[id := review], j, s.jobs.q.items[j].payload.order)
    {
      assert Ordered(s.reviews, j, s.jobs.q.items[j].payload.order);
    }
  }

  lemma AddReviewKeepsReviews(drafts: map<IdempotencyKey, Draft>, reviews: map<BatchId, Review>, id: BatchId, review: Review)
    requires ReviewsOk(drafts, reviews) && Bound(drafts, id, review)
    ensures ReviewsOk(drafts, reviews[id := review])
  {
  }

  lemma AddJobKeepsDone(items: map<nat, JobQueue.Record>, rows: map<IdempotencyKey, BatchRow>, r: JobQueue.Record)
    requires DoneOk(items, rows) && r.status == JobQueue.Queued
    ensures DoneOk(items[r.jobId := r], rows)
  {
  }

  lemma RejectKeepsInv(s: State, id: BatchId, review: Review)
    requires Inv(s) && id !in s.reviews && Bound(s.drafts, id, review) && review.jobId.None?
    ensures Inv(s.(reviews := s.reviews[id := review]))
  {
    AddReviewKeepsReviews(s.drafts, s.reviews, id, review);
    AddReviewKeepsRows(s, id, review);
    AddReviewKeepsJobs(s, id, review);
    PhasesCarry(s, s.(reviews := s.reviews[id := review]));
  }

  // A new approved review finds no job for its order, so it inserts one.
  lemma OutboxInserts(s: State, order: JobQueue.GraphOrder, maxAttempts: int, newId: nat, now: int)
    requires Inv(s) && order.batchId !in s.reviews && newId !in s.jobs.q.items && 1 <= maxAttempts <= 8
    ensures var r := JobQueue.Fresh(newId, JobQueue.GraphWrite(order), maxAttempts, now);
            JobQueue.AfterInsert(s.jobs.q, JobQueue.GraphWrite(order), maxAttempts, newId, now) == (JobQueue.WithNew(s.jobs.q, r), Ok(r))
  {
    OrdersAreReviewed(s, order);
  }

  lemma OrdersAreReviewed(s: State, order: JobQueue.GraphOrder)
    requires Inv(s)
    ensures JobQueue.GraphWrite(order) in s.jobs.q.byKey ==> order.batchId in s.reviews
  {
    var q := s.jobs.q;
    if JobQueue.GraphWrite(order) in q.byKey {
      assert Ordered(s.reviews, q.byKey[JobQueue.GraphWrite(order)], order);
    }
  }

  lemma AddJobKeepsOutbox(reviews: map<BatchId, Review>, items: map<nat, JobQueue.Record>, id: BatchId, review: Review, r: JobQueue.Record)
    requires OutboxOk(reviews, items) && r.jobId !in items
    requires review.jobId == Some(r.jobId) && r.payload == JobQueue.GraphWrite(OrderOf(review.approval))
    ensures OutboxOk(reviews[id := review], items[r.jobId := r])
  {
    forall other | other in reviews
      ensures HasJob(items[r.jobId := r], reviews[other])
    {
      assert HasJob(items, reviews[other]);
    }
  }

  lemma AddJobKeepsJobs(s: State, id: BatchId, review: Review, r: JobQueue.Record)
    requires JobsOk(s.reviews, s.jobs.q.items) && id !in s.reviews
    requires review.approval.approved && review.approval.batchId == id && review.jobId == Some(r.jobId)
    requires r.payload == JobQueue.GraphWrite(OrderOf(review.approval))
    ensures JobsOk(s.reviews[id := review], s.jobs.q.items[r.jobId := r])
  {
    AddReviewKeepsJobs(s, id, review);
    assert Ordered(s.reviews[id := review], r.jobId, r.payload.order);
  }

  lemma ApproveKeepsInv(s: State, id: BatchId, review: Review, maxAttempts: int, newId: nat, now: int)
    requires Inv(s) && id !in s.reviews && Bound(s.drafts, id, review) && review.jobId == Some(newId)
    requires newId !in s.jobs.q.items && 1 <= maxAttempts <= 8
    ensures Inv(s.(reviews := s.reviews[id := review],
                   jobs := s.jobs.(q := JobQueue.AfterInsert(s.jobs.q, JobQueue.GraphWrite(OrderOf(review.approval)), maxAttempts, newId, now).0)))
  {
    var order := OrderOf(review.approval);
    var r := JobQueue.Fresh(newId, JobQueue.GraphWrite(order), maxAttempts, now);
    OutboxInserts(s, order, maxAttempts, newId, now);
    JobQueue.StepKeepsInv(s.jobs, JobQueue.Outbox(order, maxAttempts, newId, now));
    AddReviewKeepsReviews(s.drafts, s.reviews, id, review);
    AddReviewKeepsRows(s, id, review);
    AddJobKeepsDone(s.jobs.q.items, s.rows, r);
    AddJobKeepsJobs(s, id, review, r);
    AddJobKeepsOutbox(s.reviews, s.jobs.q.items, id, review, r);
    PhasesCarry(s, s.(reviews := s.reviews[id := review], jobs := s.jobs.(q := JobQueue.WithNew(s.jobs.q, r))));
  }

  lemma DecideKeepsInv(s: State, c: Command)
    requires Inv(s) && ValidCommand(c) && c.newId !in s.jobs.q.items
    ensures Inv(AfterDecide(s, c).0)
  {
    if FindDraft(s.drafts, c.batchId).Some? && WithinLimits(FindDraft(s.drafts, c.batchId).value.item.p) && c.batchId !in s.reviews {
      var approval := ApprovalOf(c, FindDraft(s.drafts, c.batchId).value);
      if c.approve {
        OutboxInserts(s, OrderOf(approval), c.maxAttempts, c.newId, c.now);
        ApproveKeepsInv(s, c.batchId, Review(approval, Some(c.newId), c.now), c.maxAttempts, c.newId, c.now);
      } else {
        RejectKeepsInv(s, c.batchId, Review(approval, None, c.now));
      }
    }
  }

  // ---------------------------------------------------------------- every step, every run

  lemma ClearKeepsInv(s: State, worker: nat, now: int)
    requires Inv(s) && worker in s.workers && s.workers[worker].Loaded?
    ensures Inv(AtPhase(s, worker, Clear(s, s.workers[worker].lease, s.workers[worker].draft, now)))
  {
    ClearsUntilExpiry(s, s.workers[worker], now);
    PutPhase(s, worker, Clear(s, s.workers[worker].lease, s.workers[worker].draft, now));
  }

  lemma EndKeepsInv(s: State, worker: nat, e: JobQueue.Event)
    requires Inv(s) && worker in s.workers && (s.workers[worker].Wrote? || s.workers[worker].Broken?)
    requires if s.workers[worker].Wrote? then e.CompletedBy? else e.PostgresFailedBy?
    requires e.lease == s.workers[worker].lease
    ensures JobQueue.Allowed(s.jobs, e) && Inv(Gone(s.(jobs := JobQueue.Apply(s.jobs, e)), worker))
  {
    assert PhaseOk(s, s.workers[worker]);
    QueueKeepsInv(s, e);
    GoneKeepsInv(s.(jobs := JobQueue.Apply(s.jobs, e)), worker);
  }

  lemma StepKeepsInv(s: State, e: Step)
    requires Inv(s) && Allowed(s, e)
    ensures WorkersLeased(s) && Inv(Next(s, e))
  {
    InvLeases(s);
    match e
    case Extracted(batch) =>
      if KeyOf(batch) !in s.drafts {
        ExtractKeepsInv(s, batch);
      }
    case Decided(command) => DecideKeepsInv(s, command);
    case QueueStep(event) => QueueKeepsInv(s, event);
    case _ => WorkerStepKeepsInv(s, e);
  }

  lemma WorkerStepKeepsInv(s: State, e: Step)
    requires Inv(s) && Allowed(s, e) && WorkersLeased(s) && !e.Extracted? && !e.Decided? && !e.QueueStep?
    ensures Inv(Next(s, e))
  {
    match e
    case Load(worker, lease) =>
      LoadSucceeds(s, lease);
      PutPhase(s, worker, Loaded(lease, LoadApproved(s, lease.record.payload.order).value));
    case ClearForWriting(worker, now) => ClearKeepsInv(s, worker, now);
    case WriteGraph(worker) => WriteKeepsInv(s, worker);
    case DependencyFails(worker, code, retryable) => PutPhase(s, worker, Broken(s.workers[worker].lease, code, retryable));
    case Finish(worker, now) => EndKeepsInv(s, worker, FinishEvent(s.workers[worker], now));
    case Report(worker, delay, now) => EndKeepsInv(s, worker, ReportEvent(s.workers[worker], delay, now));
    case Crash(worker) => GoneKeepsInv(s, worker);
  }

  // The state after the steps, if each was allowed when it happened.
  function Run(steps: seq<Step>): Option<State> {
    if steps == [] then Some(Initial)
    else
      match Run(steps[..|steps| - 1])
      case None => None
      case Some(s) =>
        var e := steps[|steps| - 1];
        if WorkersLeased(s) && Allowed(s, e) then Some(Next(s, e)) else None
  }

  ghost predicate Reachable(s: State) {
    exists steps :: Run(steps) == Some(s)
  }

  lemma InitialInv()
    ensures Inv(Initial)
  {
    assert Digests(map[]) == map[];
  }

  lemma {:induction false} RunsKeepInv(steps: seq<Step>)
    requires Run(steps).Some?
    ensures Inv(Run(steps).value)
  {
    if steps == [] {
      InitialInv();
    } else {
      RunsKeepInv(steps[..|steps| - 1]);
      StepKeepsInv(Run(steps[..|steps| - 1]).value, steps[|steps| - 1]);
    }
  }

  lemma ReachableInv(s: State)
    requires Reachable(s)
    ensures Inv(s)
  {
    var steps :| Run(steps) == Some(s);
    RunsKeepInv(steps);
  }

  // ---------------------------------------------------------------- what holds in every reachable state

  lemma RowIsDraft(s: State, k: IdempotencyKey)
    requires Inv(s) && k in s.rows
    ensures k in s.drafts && s.drafts[k].batchId in s.reviews
    ensures s.reviews[s.drafts[k].batchId].approval == s.rows[k].approval
    ensures s.rows[k].approval.approved && s.rows[k].approval.projection == s.rows[k].projection == s.drafts[k].item.p
  {
    assert RowBound(s.reviews, k, s.rows[k]);
    var id := s.rows[k].approval.batchId;
    assert Bound(s.drafts, id, s.reviews[id]);
  }

  lemma GraphHasRow(rows: map<IdempotencyKey, BatchRow>, graph: Graph, log: seq<Item>, k: IdempotencyKey)
    requires GraphOk(rows, graph, log) && k in graph.batches
    ensures k in rows && graph.batches[k] == rows[k].projection
  {
  }

  // A batch is in the graph only if its review approved exactly the projection stored there.
  lemma OnlyApprovedIsWritten(s: State, k: IdempotencyKey)
    requires Reachable(s) && k in s.graph.batches
    ensures k in s.drafts && s.drafts[k].batchId in s.reviews
    ensures s.reviews[s.drafts[k].batchId].approval.approved
    ensures s.reviews[s.drafts[k].batchId].approval.projection == s.graph.batches[k] == s.drafts[k].item.p
  {
    ReachableInv(s);
    GraphHasRow(s.rows, s.graph, s.log, k);
    RowIsDraft(s, k);
  }

  // A rejected batch has no job and no content in the graph.
  lemma RejectedLeavesNothing(s: State, id: BatchId)
    requires Reachable(s) && id in s.reviews && !s.reviews[id].approval.approved
    ensures id.key !in s.graph.batches && s.reviews[id].jobId.None?
    ensures forall j :: j in s.jobs.q.items && s.jobs.q.items[j].payload.GraphWrite? ==> s.jobs.q.items[j].payload.order.batchId != id
  {
    ReachableInv(s);
    assert Bound(s.drafts, id, s.reviews[id]);
    if id.key in s.graph.batches {
      OnlyApprovedIsWritten(s, id.key);
    }
    forall j | j in s.jobs.q.items && s.jobs.q.items[j].payload.GraphWrite?
      ensures s.jobs.q.items[j].payload.order.batchId != id
    {
      assert Ordered(s.reviews, j, s.jobs.q.items[j].payload.order);
    }
  }

  // An approved review has exactly one job, and that job carries its approval.
  lemma ApprovedHasOneJob(s: State, id: BatchId)
    requires Reachable(s) && id in s.reviews && s.reviews[id].approval.approved
    ensures s.reviews[id].jobId.Some?
    ensures forall j :: j in s.jobs.q.items && s.jobs.q.items[j].payload.GraphWrite? && s.jobs.q.items[j].payload.order.batchId == id
                        <==> j == s.reviews[id].jobId.value
    ensures s.jobs.q.items[s.reviews[id].jobId.value].payload.order.approval == s.reviews[id].approval
  {
    ReachableInv(s);
    assert Bound(s.drafts, id, s.reviews[id]) && HasJob(s.jobs.q.items, s.reviews[id]);
    forall j | j in s.jobs.q.items && s.jobs.q.items[j].payload.GraphWrite? && s.jobs.q.items[j].payload.order.batchId == id
      ensures j == s.reviews[id].jobId.value
    {
      assert Ordered(s.reviews, j, s.jobs.q.items[j].payload.order);
    }
  }

  // A graph job that succeeded has its batch in the graph, as approved.
  lemma SucceededIsWritten(s: State, j: nat)
    requires Reachable(s) && j in s.jobs.q.items && s.jobs.q.items[j].payload.GraphWrite?
    requires s.jobs.q.items[j].status == JobQueue.Succeeded
    ensures var order := s.jobs.q.items[j].payload.order;
            order.key in s.graph.batches && s.graph.batches[order.key] == order.projection
  {
    ReachableInv(s);
    var order := s.jobs.q.items[j].payload.order;
    assert Ordered(s.reviews, j, order);
    assert Bound(s.drafts, order.batchId, s.reviews[order.batchId]);
    OnlyApprovedIsWritten(s, order.key);
  }

  // The graph is closed and describes exactly the logged batches, each logged once.
  lemma GraphIsItsLog(s: State)
    requires Reachable(s)
    ensures Closed(s.graph) && Describes(s.graph, s.log)
    ensures forall k :: k in s.graph.batches <==> exists i :: 0 <= i < |s.log| && s.log[i].key == k
    ensures forall i, j :: 0 <= i < j < |s.log| ==> s.log[i].key != s.log[j].key
  {
    ReachableInv(s);
    forall i | 0 <= i < |s.log|
      ensures ClosedParts(s.log[i].p.nodes, s.log[i].p.edges)
    {
      LoggedIsDraft(s, i);
    }
    CommitsIffAgree(s.log);
    forall k
      ensures KeyFrom(s.log, k) <==> exists i :: 0 <= i < |s.log| && s.log[i].key == k
    {
    }
  }

  lemma LoggedIsDraft(s: State, i: nat)
    requires Inv(s) && i < |s.log|
    ensures ClosedParts(s.log[i].p.nodes, s.log[i].p.edges)
  {
    LoggedProjection(s.log, s.graph, i);
    GraphHasRow(s.rows, s.graph, s.log, s.log[i].key);
    RowIsDraft(s, s.log[i].key);
  }

  lemma {:induction false} LoggedProjection(log: seq<Item>, graph: Graph, i: nat)
    requires CommitItems(log) == Some(graph) && i < |log|
    ensures log[i].key in graph.batches && graph.batches[log[i].key] == log[i].p
  {
    var front := log[..|log| - 1];
    var before := CommitItems(front).value;
    if i < |front| {
      LoggedProjection(front, before, i);
    }
  }

  // The loader refuses no granted lease on a graph job.
  lemma GrantedLeasesLoad(s: State, lease: JobQueue.Lease)
    requires Reachable(s) && GraphLease(s, lease)
    ensures LoadApproved(s, lease.record.payload.order).Ok?
    ensures LoadApproved(s, lease.record.payload.order).value.item == Item(lease.record.payload.order.key, lease.record.payload.order.projection)
  {
    ReachableInv(s);
    LoadSucceeds(s, lease);
  }

  // A worker that loaded its batch is cleared exactly until the approval expires.
  lemma LoadedIsClearedUntilExpiry(s: State, worker: nat, now: int)
    requires Reachable(s) && worker in s.workers && s.workers[worker].Loaded?
    ensures s.workers[worker].lease.record.payload.GraphWrite?
    ensures Clear(s, s.workers[worker].lease, s.workers[worker].draft, now).Cleared? <==>
            now < s.workers[worker].lease.record.payload.order.approval.expiresAt
  {
    ReachableInv(s);
    assert PhaseOk(s, s.workers[worker]);
    ClearsUntilExpiry(s, s.workers[worker], now);
  }

  // What a worker wrote is the batch of its order, so the executor's last check cannot fail.
  lemma ResultsMatch(s: State, worker: nat)
    requires Reachable(s) && worker in s.workers && s.workers[worker].Wrote?
    ensures s.workers[worker].lease.record.payload.GraphWrite?
    ensures s.workers[worker].written.batchId == s.workers[worker].lease.record.payload.order.batchId
    ensures s.workers[worker].written.key == s.workers[worker].lease.record.payload.order.key
    ensures s.workers[worker].written.nodeCount == |s.workers[worker].lease.record.payload.order.projection.nodes|
    ensures s.workers[worker].written.edgeCount == |s.workers[worker].lease.record.payload.order.projection.edges|
  {
    ReachableInv(s);
    assert PhaseOk(s, s.workers[worker]);
  }

  function ApprovedJobs(reviews: map<BatchId, Review>): map<BatchId, nat> {
    map id | id in reviews && reviews[id].approval.approved && reviews[id].jobId.Some? :: reviews[id].jobId.value
  }

  // Every graph job has its approved review, so no claim, completion or failure of the
  // PostgreSQL queue is ever rolled back for want of an audit row; and reviewing finds the
  // queue indexed.
  lemma TransitionsAreAuditable(s: State)
    requires Reachable(s)
    ensures PostgresJobs.AllReviewed(s.jobs.q.items, ApprovedJobs(s.reviews))
    ensures JobQueue.SoundQueue(s.jobs.q) && Indexed(s.jobs.q)
  {
    ReachableInv(s);
    forall id | id in s.jobs.q.items
      ensures s.jobs.q.items[id].jobId == id && PostgresJobs.Reviewed(s.jobs.q.items[id], ApprovedJobs(s.reviews))
    {
      if s.jobs.q.items[id].payload.GraphWrite? {
        assert Ordered(s.reviews, id, s.jobs.q.items[id].payload.order);
      }
    }
  }

  // ---------------------------------------------------------------- exactly once

  lemma DecideFrame(s: State, c: Command)
    requires ValidCommand(c)
    ensures AfterDecide(s, c).0.graph == s.graph
    ensures forall id :: id in s.reviews ==> id in AfterDecide(s, c).0.reviews && AfterDecide(s, c).0.reviews[id] == s.reviews[id]
  {
  }

  // The write transaction either leaves the graph alone or commits a batch not seen before.
  lemma WriteFrame(s: State, worker: nat, lease: JobQueue.Lease, d: Draft, a: Approval, at: int)
    ensures var t := WriteStep(s, worker, lease, d, a, at);
            && t.reviews == s.reviews
            && (t.graph == s.graph || (d.item.key !in s.graph.batches && t.graph.batches == s.graph.batches[d.item.key := d.item.p]))
  {
    if Commit(s.graph, d.item).Some? && d.item.key in s.graph.batches {
      PresentWrite(s, worker, lease, d, a, at);
    }
  }

  lemma PresentWrite(s: State, worker: nat, lease: JobQueue.Lease, d: Draft, a: Approval, at: int)
    requires Commit(s.graph, d.item).Some? && d.item.key in s.graph.batches
    ensures WriteStep(s, worker, lease, d, a, at) == AtPhase(s, worker, Wrote(lease, ReceiptOf(d, AlreadyPresent)))
  {
  }

  lemma OtherStepsFrame(s: State, e: Step)
    requires Allowed(s, e) && WorkersLeased(s) && !e.WriteGraph? && !e.Decided?
    ensures Next(s, e).graph == s.graph && Next(s, e).reviews == s.reviews
  {
  }

  // Only a first write touches the graph.
  lemma OnlyFirstWritesChange(s: State, e: Step)
    requires Allowed(s, e) && WorkersLeased(s) && Next(s, e).graph != s.graph
    ensures e.WriteGraph?
    ensures s.workers[e.worker].draft.item.key !in s.graph.batches && s.workers[e.worker].draft.item.key in Next(s, e).graph.batches
  {
    GraphFrame(s, e);
  }

  lemma GraphFrame(s: State, e: Step)
    requires Allowed(s, e) && WorkersLeased(s)
    ensures Next(s, e).graph == s.graph ||
            (e.WriteGraph? && s.workers[e.worker].draft.item.key !in s.graph.batches &&
             Next(s, e).graph.batches == s.graph.batches[s.workers[e.worker].draft.item.key := s.workers[e.worker].draft.item.p])
  {
    match e
    case Decided(command) => DecideFrame(s, command);
    case WriteGraph(worker) =>
      var p := s.workers[worker];
      WriteFrame(s, worker, p.lease, p.draft, p.approval, p.clearedAt);
    case _ => OtherStepsFrame(s, e);
  }

  lemma PresentCommits(s: State, d: Draft)
    requires Reachable(s) && d.item.key in s.graph.batches && d.batchId.key == d.item.key && FindDraft(s.drafts, d.batchId) == Some(d)
    ensures Commit(s.graph, d.item) == Some(s.graph)
  {
    OnlyApprovedIsWritten(s, d.item.key);
  }

  lemma ClearedDraft(s: State, worker: nat)
    requires Inv(s) && worker in s.workers && s.workers[worker].Cleared?
    ensures var d := s.workers[worker].draft; FindDraft(s.drafts, d.batchId) == Some(d) && d.batchId.key == d.item.key
  {
    assert PhaseOk(s, s.workers[worker]);
  }

  // Executing a written batch again finds it there, and changes nothing but the worker.
  lemma RewriteIsHarmless(s: State, worker: nat)
    requires Reachable(s) && worker in s.workers && s.workers[worker].Cleared?
    requires s.workers[worker].draft.item.key in s.graph.batches
    ensures var p := s.workers[worker];
            WriteStep(s, worker, p.lease, p.draft, p.approval, p.clearedAt) == AtPhase(s, worker, Wrote(p.lease, ReceiptOf(p.draft, AlreadyPresent)))
  {
    ReachableInv(s);
    ClearedDraft(s, worker);
    var p := s.workers[worker];
    PresentCommits(s, p.draft);
    PresentWrite(s, worker, p.lease, p.draft, p.approval, p.clearedAt);
  }

  // Whether the step is a write of the batch with this key that changes the graph.
  predicate TakesEffect(s: State, e: Step, k: IdempotencyKey)
    requires WorkersLeased(s) && Allowed(s, e)
  {
    e.WriteGraph? && s.workers[e.worker].draft.item.key == k && Next(s, e).graph != s.graph
  }

  // Steps of a run at which the batch with this key changes the graph.
  function Effects(steps: seq<Step>, k: IdempotencyKey): nat
    requires Run(steps).Some?
  {
    if steps == [] then 0
    else
      var s := Run(steps[..|steps| - 1]).value;
      Effects(steps[..|steps| - 1], k) + if TakesEffect(s, steps[|steps| - 1], k) then 1 else 0
  }

  // A batch takes effect at the step at which it appears, and at no other.
  lemma EffectIsAppearance(s: State, e: Step, k: IdempotencyKey)
    requires Allowed(s, e) && WorkersLeased(s)
    ensures TakesEffect(s, e, k) <==> k !in s.graph.batches && k in Next(s, e).graph.batches
    ensures k in s.graph.batches ==> k in Next(s, e).graph.batches
  {
    GraphFrame(s, e);
  }

  // However often jobs are claimed, crash and are run again, each batch changes the graph
  // exactly once if it is there in the end, and never otherwise.
  lemma {:induction false} ExactlyOnce(steps: seq<Step>, k: IdempotencyKey)
    requires Run(steps).Some?
    ensures Effects(steps, k) == if k in Run(steps).value.graph.batches then 1 else 0
  {
    if steps != [] {
      var front := steps[..|steps| - 1];
      ExactlyOnce(front, k);
      EffectIsAppearance(Run(front).value, steps[|steps| - 1], k);
    }
  }

  // ---------------------------------------------------------------- verdicts and drafts are final

  lemma StepKeepsReview(s: State, e: Step, id: BatchId)
    requires Allowed(s, e) && WorkersLeased(s) && id in s.reviews
    ensures id in Next(s, e).reviews && Next(s, e).reviews[id] == s.reviews[id]
  {
    match e
    case Decided(command) => DecideFrame(s, command);
    case WriteGraph(worker) =>
      var p := s.workers[worker];
      WriteFrame(s, worker, p.lease, p.draft, p.approval, p.clearedAt);
    case _ => OtherStepsFrame(s, e);
  }

  lemma {:induction false} VerdictsNeverFlip(steps: seq<Step>, more: seq<Step>, id: BatchId)
    requires Run(steps + more).Some?
    ensures Run(steps).Some?
    ensures id in Run(steps).value.reviews ==>
              id in Run(steps + more).value.reviews && Run(steps + more).value.reviews[id] == Run(steps).value.reviews[id]
    decreases |more|
  {
    if more == [] {
      assert steps + more == steps;
    } else {
      var front := more[..|more| - 1];
      assert (steps + more)[..|steps + more| - 1] == steps + front;
      VerdictsNeverFlip(steps, front, id);
      if id in Run(steps + front).value.reviews {
        StepKeepsReview(Run(steps + front).value, more[|more| - 1], id);
      }
    }
  }

  // ---------------------------------------------------------------- verdicts are the reviewer's

  // The review says what the command said about this draft.
  predicate Records(review: Review, c: Command, d: Draft) {
    && review.approval.batchId == d.batchId && review.approval.key == d.item.key && review.approval.projection == d.item.p
    && review.approval.approved == c.approve
    && review.approval.reviewerGeneration == c.reviewer && review.approval.auditGeneration == c.audit
    && review.approval.expiresAt == c.now + c.ttl && review.reviewedAt == c.now
    && review.jobId == if c.approve then Some(c.newId) else None
  }

  // A rejection leaves the jobs alone; an approval queues one new job for the approved batch.
  predicate OneJobQueued(before: map<nat, JobQueue.Record>, after: map<nat, JobQueue.Record>, review: Review) {
    && (forall j :: j in before ==> j in after && after[j] == before[j])
    && match review.jobId
       case None => after == before
       case Some(id) =>
         && id !in before && after.Keys == before.Keys + {id}
         && after[id].status == JobQueue.Queued
         && after[id].payload == JobQueue.GraphWrite(JobQueue.GraphOrder(review.approval.batchId, review.approval.key, review.approval.projection, review.approval))
  }

  // The first verdict on a batch is stored as commanded, unless there is no such batch or it is
  // too large to be written.
  lemma FirstVerdict(s: State, c: Command)
    requires Inv(s) && Allowed(s, Decided(c)) && c.batchId !in s.reviews
    ensures var (t, r) := AfterDecide(s, c);
            match FindDraft(s.drafts, c.batchId)
            case None => t == s && r == Err(NotFound)
            case Some(d) =>
              if !WithinLimits(d.item.p) then t == s && r == Err(PersistenceFailed)
              else r.Ok? && t.reviews == s.reviews[c.batchId := r.value] && Records(r.value, c, d)
                   && OneJobQueued(s.jobs.q.items, t.jobs.q.items, r.value)
  {
    var found := FindDraft(s.drafts, c.batchId);
    if found.Some? && WithinLimits(found.value.item.p) {
      FirstStored(s, c, found.value);
    }
  }

  lemma FirstStored(s: State, c: Command, d: Draft)
    requires Inv(s) && Allowed(s, Decided(c)) && c.batchId !in s.reviews
    requires FindDraft(s.drafts, c.batchId) == Some(d) && WithinLimits(d.item.p)
    ensures var (t, r) := AfterDecide(s, c);
            r.Ok? && t.reviews == s.reviews[c.batchId := r.value] && Records(r.value, c, d) && OneJobQueued(s.jobs.q.items, t.jobs.q.items, r.value)
  {
    if c.approve {
      var order := OrderOf(ApprovalOf(c, d));
      DraftIdentity(s.drafts, c.batchId);
      OutboxInserts(s, order, c.maxAttempts, c.newId, c.now);
      OneMore(s.jobs.q, JobQueue.Fresh(c.newId, JobQueue.GraphWrite(order), c.maxAttempts, c.now));
    }
  }

  lemma OneMore(q: JobQueue.Queue, r: JobQueue.Record)
    requires r.jobId !in q.items
    ensures var after := JobQueue.WithNew(q, r).items;
            after.Keys == q.items.Keys + {r.jobId} && after[r.jobId] == r && forall j :: j in q.items ==> after[j] == q.items[j]
  {
  }

  // The same verdict again is answered with the stored review, the opposite one is a conflict.
  lemma RepeatedVerdict(s: State, c: Command)
    requires ValidCommand(c) && Inv(s) && c.batchId in s.reviews
    ensures AfterDecide(s, c) == (s, if s.reviews[c.batchId].approval.approved == c.approve then Ok(s.reviews[c.batchId]) else Err(ReviewConflict))
  {
    assert Bound(s.drafts, c.batchId, s.reviews[c.batchId]);
  }

  lemma NewReviewIsCommanded(s: State, e: Step, id: BatchId)
    requires Inv(s) && Allowed(s, e) && WorkersLeased(s) && id !in s.reviews && id in Next(s, e).reviews
    ensures e.Decided? && e.command.batchId == id && e.command.approve == Next(s, e).reviews[id].approval.approved
  {
    match e
    case Decided(command) =>
      if command.batchId in s.reviews {
        RepeatedVerdict(s, command);
      } else {
        FirstVerdict(s, command);
      }
    case WriteGraph(worker) =>
      var p := s.workers[worker];
      WriteFrame(s, worker, p.lease, p.draft, p.approval, p.clearedAt);
    case _ => OtherStepsFrame(s, e);
  }

  // The `i`-th step decided this batch, and that way.
  predicate Commanded(steps: seq<Step>, i: nat, id: BatchId, approve: bool) {
    i < |steps| && steps[i].Decided? && steps[i].command.batchId == id && steps[i].command.approve == approve
  }

  lemma LastVerdict(steps: seq<Step>, id: BatchId)
    requires steps != [] && Run(steps).Some? && id in Run(steps).value.reviews
    ensures var before := Run(steps[..|steps| - 1]);
            var review := Run(steps).value.reviews[id];
            && before.Some?
            && (id in before.value.reviews ==> before.value.reviews[id] == review)
            && (id !in before.value.reviews ==> Commanded(steps, |steps| - 1, id, review.approval.approved))
  {
    var s, last := Run(steps[..|steps| - 1]).value, steps[|steps| - 1];
    if id in s.reviews {
      StepKeepsReview(s, last, id);
    } else {
      RunsKeepInv(steps[..|steps| - 1]);
      NewReviewIsCommanded(s, last, id);
    }
  }

  // Every review of a run goes back to the one command that first decided its batch, and says
  // what that command said.
  lemma {:induction false} VerdictsAreCommanded(steps: seq<Step>, id: BatchId) returns (i: nat)
    requires Run(steps).Some? && id in Run(steps).value.reviews
    ensures Commanded(steps, i, id, Run(steps).value.reviews[id].approval.approved)
    ensures Run(steps[..i]).Some? && id !in Run(steps[..i]).value.reviews
  {
    var front := steps[..|steps| - 1];
    LastVerdict(steps, id);
    if id in Run(front).value.reviews {
      i := VerdictsAreCommanded(front, id);
      assert front[..i] == steps[..i];
    } else {
      i := |steps| - 1;
    }
  }

  predicate HasGraphJob(s: State, id: BatchId) {
    exists j :: j in s.jobs.q.items && s.jobs.q.items[j].payload.GraphWrite? && s.jobs.q.items[j].payload.order.batchId == id
  }

  // There is a job only for a decided batch, and exactly if the command that decided it
  // approved.
  lemma JobsAreCommanded(steps: seq<Step>, id: BatchId)
    requires Run(steps).Some?
    ensures HasGraphJob(Run(steps).value, id) ==> id in Run(steps).value.reviews
    ensures id in Run(steps).value.reviews ==> exists i: nat :: Commanded(steps, i, id, HasGraphJob(Run(steps).value, id))
  {
    var s := Run(steps).value;
    RunsKeepInv(steps);
    assert Reachable(s);
    if j :| j in s.jobs.q.items && s.jobs.q.items[j].payload.GraphWrite? && s.jobs.q.items[j].payload.order.batchId == id {
      assert Ordered(s.reviews, j, s.jobs.q.items[j].payload.order);
    }
    if id in s.reviews {
      var i := VerdictsAreCommanded(steps, id);
      VerdictHasJob(s, id);
    }
  }

  lemma VerdictHasJob(s: State, id: BatchId)
    requires Reachable(s) && id in s.reviews
    ensures HasGraphJob(s, id) <==> s.reviews[id].approval.approved
  {
    if s.reviews[id].approval.approved {
      ApprovedHasOneJob(s, id);
      assert s.reviews[id].jobId.value in s.jobs.q.items;
    } else {
      RejectedLeavesNothing(s, id);
    }
  }

  // What is in the graph was commanded into it by an approval.
  lemma WrittenWasCommanded(steps: seq<Step>, k: IdempotencyKey) returns (i: nat)
    requires Run(steps).Some? && k in Run(steps).value.graph.batches
    ensures k in Run(steps).value.drafts && Run(steps).value.drafts[k].batchId.key == k
    ensures Commanded(steps, i, Run(steps).value.drafts[k].batchId, true)
  {
    var s := Run(steps).value;
    assert Reachable(s);
    OnlyApprovedIsWritten(s, k);
    ReachableInv(s);
    i := VerdictsAreCommanded(steps, s.drafts[k].batchId);
  }

  // However the run goes on, every later command on a decided batch is answered by the first:
  // with its review if it says the same, and with a conflict if it does not.
  lemma FirstVerdictStands(steps: seq<Step>, c: Command, more: seq<Step>, d: Command)
    requires Run(steps).Some? && c.batchId !in Run(steps).value.reviews && Run(steps + [Decided(c)] + more).Some?
    requires ValidCommand(c) && AfterDecide(Run(steps).value, c).1.Ok? && ValidCommand(d) && d.batchId == c.batchId
    ensures var s := Run(steps + [Decided(c)] + more).value;
            AfterDecide(s, d) == (s, if d.approve == c.approve then AfterDecide(Run(steps).value, c).1 else Err(ReviewConflict))
  {
    var decided := steps + [Decided(c)];
    VerdictsNeverFlip(decided, more, c.batchId);
    assert decided[..|decided| - 1] == steps;
    RunsKeepInv(steps);
    assert Allowed(Run(steps).value, Decided(c));
    FirstVerdict(Run(steps).value, c);
    RunsKeepInv(decided + more);
    RepeatedVerdict(Run(decided + more).value, d);
  }

  // ---------------------------------------------------------------- an undisturbed worker

  predicate Leads(s: State, e: Step, t: State) {
    WorkersLeased(s) && Allowed(s, e) && t == Next(s, e)
  }

  // From one state to the other only this worker's phase changed.
  predicate OnlyPhase(s: State, t: State, worker: nat) {
    && t == s.(workers := t.workers)
    && worker in t.workers && t.workers == s.workers[worker := t.workers[worker]]
  }

  // The worker holds this lease and the batch of its order.
  predicate Carries(s: State, worker: nat, lease: JobQueue.Lease)
    requires lease.record.payload.GraphWrite?
  {
    && worker in s.workers && (s.workers[worker].Loaded? || s.workers[worker].Cleared?) && s.workers[worker].lease == lease
    && s.workers[worker].draft.item == Item(lease.record.payload.order.key, lease.record.payload.order.projection)
  }

  lemma LoadShape(s: State, worker: nat, lease: JobQueue.Lease) returns (phase: Phase)
    requires Inv(s) && GraphLease(s, lease) && worker !in s.workers
    ensures phase.Loaded? && phase.lease == lease && PhaseOk(s, phase) && Leads(s, Load(worker, lease), AtPhase(s, worker, phase))
    ensures phase.draft.item == Item(lease.record.payload.order.key, lease.record.payload.order.projection)
  {
    InvLeases(s);
    LoadSucceeds(s, lease);
    phase := Loaded(lease, LoadApproved(s, lease.record.payload.order).value);
  }

  lemma Loads(s: State, worker: nat, lease: JobQueue.Lease) returns (t: State)
    requires Inv(s) && GraphLease(s, lease) && worker !in s.workers
    ensures Leads(s, Load(worker, lease), t) && Inv(t)
    ensures OnlyPhase(s, t, worker) && Carries(t, worker, lease) && t.workers[worker].Loaded?
  {
    var phase := LoadShape(s, worker, lease);
    PutPhase(s, worker, phase);
    t := AtPhase(s, worker, phase);
  }

  lemma ClearShape(s: State, worker: nat, lease: JobQueue.Lease, now: int) returns (phase: Phase)
    requires Inv(s) && lease.record.payload.GraphWrite? && Carries(s, worker, lease) && s.workers[worker].Loaded?
    requires now < lease.record.payload.order.approval.expiresAt
    ensures phase.Cleared? && phase.lease == lease && phase.draft == s.workers[worker].draft
    ensures PhaseOk(s, phase) && Leads(s, ClearForWriting(worker, now), AtPhase(s, worker, phase))
  {
    var p := s.workers[worker];
    InvLeases(s);
    WorkerPhase(s, worker);
    ClearsUntilExpiry(s, p, now);
    ClearKeepsBatch(s, lease, p.draft, now);
    phase := Clear(s, lease, p.draft, now);
  }

  lemma Clears(s: State, worker: nat, lease: JobQueue.Lease, now: int) returns (t: State)
    requires Inv(s) && lease.record.payload.GraphWrite? && Carries(s, worker, lease) && s.workers[worker].Loaded?
    requires now < lease.record.payload.order.approval.expiresAt
    ensures Leads(s, ClearForWriting(worker, now), t) && Inv(t)
    ensures OnlyPhase(s, t, worker) && Carries(t, worker, lease) && t.workers[worker].Cleared?
  {
    var phase := ClearShape(s, worker, lease, now);
    PutPhase(s, worker, phase);
    t := AtPhase(s, worker, phase);
  }

  lemma LoadsAndClears(s: State, worker: nat, lease: JobQueue.Lease, clearedAt: int) returns (s1: State, t: State)
    requires Inv(s) && GraphLease(s, lease) && worker !in s.workers && clearedAt < lease.record.payload.order.approval.expiresAt
    ensures Leads(s, Load(worker, lease), s1) && Leads(s1, ClearForWriting(worker, clearedAt), t) && Inv(t)
    ensures OnlyPhase(s, t, worker) && Carries(t, worker, lease) && t.workers[worker].Cleared?
  {
    s1 := Loads(s, worker, lease);
    t := Clears(s1, worker, lease, clearedAt);
    PhaseTwice(s, s1, t, worker);
  }

  lemma SameButPhase(s: State, t: State, worker: nat, order: JobQueue.GraphOrder)
    requires OnlyPhase(s, t, worker)
    ensures t.jobs == s.jobs && t.workers - {worker} == s.workers - {worker} && (Fits(s, order) ==> Fits(t, order))
  {
  }

  lemma PhaseTwice(s: State, t: State, u: State, worker: nat)
    requires OnlyPhase(s, t, worker) && OnlyPhase(t, u, worker)
    ensures OnlyPhase(s, u, worker)
  {
  }

  lemma WorkerPhase(s: State, worker: nat)
    requires Inv(s) && worker in s.workers
    ensures PhaseOk(s, s.workers[worker])
  {
  }

  lemma ClearKeepsBatch(s: State, lease: JobQueue.Lease, d: Draft, now: int)
    requires Clear(s, lease, d, now).Cleared?
    ensures Clear(s, lease, d, now).lease == lease && Clear(s, lease, d, now).draft == d
  {
  }

  // The ordered batch agrees with every batch written before.
  predicate Fits(s: State, order: JobQueue.GraphOrder) {
    forall i :: 0 <= i < |s.log| ==> Agree(s.log[i], Item(order.key, order.projection))
  }

  lemma AgreedCommits(s: State, x: Item)
    requires Inv(s) && ClosedParts(x.p.nodes, x.p.edges) && forall i :: 0 <= i < |s.log| ==> Agree(s.log[i], x)
    ensures Commit(s.graph, x).Some? && x.key in Commit(s.graph, x).value.batches && Commit(s.graph, x).value.batches[x.key] == x.p
  {
    forall i | 0 <= i < |s.log|
      ensures ClosedParts(s.log[i].p.nodes, s.log[i].p.edges)
    {
      LoggedIsDraft(s, i);
    }
    AgreeingCommits(s.log, s.graph, x);
  }

  lemma DraftClosed(s: State, worker: nat)
    requires Inv(s) && worker in s.workers && s.workers[worker].Cleared?
    ensures ClosedParts(s.workers[worker].draft.item.p.nodes, s.workers[worker].draft.item.p.edges)
  {
    ClearedDraft(s, worker);
  }

  // The batch is stored or found.
  lemma Writes(s: State, worker: nat, lease: JobQueue.Lease) returns (t: State)
    requires Inv(s) && lease.record.payload.GraphWrite? && Carries(s, worker, lease) && s.workers[worker].Cleared?
    requires Fits(s, lease.record.payload.order)
    ensures Leads(s, WriteGraph(worker), t) && WorkersLeased(t)
    ensures t.jobs == s.jobs && worker in t.workers && t.workers[worker].Wrote? && t.workers[worker].lease == lease
    ensures t.workers == s.workers[worker := t.workers[worker]]
    ensures var order := lease.record.payload.order; order.key in t.graph.batches && t.graph.batches[order.key] == order.projection
  {
    InvLeases(s);
    DraftClosed(s, worker);
    AgreedCommits(s, s.workers[worker].draft.item);
    t := WriteShape(s, worker);
    LeasesStay(s, t, worker);
  }

  lemma LeasesStay(s: State, t: State, worker: nat)
    requires WorkersLeased(s) && t.jobs == s.jobs && worker in s.workers && worker in t.workers
    requires t.workers == s.workers[worker := t.workers[worker]] && t.workers[worker].lease == s.workers[worker].lease
    ensures WorkersLeased(t)
  {
  }

  lemma WriteShape(s: State, worker: nat) returns (t: State)
    requires worker in s.workers && s.workers[worker].Cleared? && WorkersLeased(s) && Commit(s.graph, s.workers[worker].draft.item).Some?
    ensures Leads(s, WriteGraph(worker), t)
    ensures t.jobs == s.jobs && worker in t.workers && t.workers[worker].Wrote? && t.workers[worker].lease == s.workers[worker].lease
    ensures t.workers == s.workers[worker := t.workers[worker]]
    ensures t.graph == Commit(s.graph, s.workers[worker].draft.item).value
  {
    var p := s.workers[worker];
    t := WriteStep(s, worker, p.lease, p.draft, p.approval, p.clearedAt);
    WriteStepShape(s, worker, p);
  }

  lemma WriteStepShape(s: State, worker: nat, p: Phase)
    requires p.Cleared? && Commit(s.graph, p.draft.item).Some?
    ensures var t := WriteStep(s, worker, p.lease, p.draft, p.approval, p.clearedAt);
            && t.jobs == s.jobs && t.graph == Commit(s.graph, p.draft.item).value
            && worker in t.workers && t.workers[worker].Wrote? && t.workers[worker].lease == p.lease
            && t.workers == s.workers[worker := t.workers[worker]]
  {
    if p.draft.item.key in s.graph.batches {
      PresentWrite(s, worker, p.lease, p.draft, p.approval, p.clearedAt);
    }
  }

  lemma Finishes(s: State, worker: nat, now: int) returns (t: State)
    requires worker in s.workers && s.workers[worker].Wrote? && WorkersLeased(s) && JobQueue.Holds(s.jobs.q.items, s.workers[worker].lease, now)
    ensures Leads(s, Finish(worker, now), t)
    ensures t.graph == s.graph && t.workers == s.workers - {worker}
    ensures var id := s.workers[worker].lease.record.jobId;
            JobQueue.OnlyChanged(s.jobs.q, t.jobs.q, id) && t.jobs.q.items[id].status == JobQueue.Succeeded
  {
    var p := s.workers[worker];
    JobQueue.CompleteOnFields(s.jobs.q, p.lease, JobQueue.GraphResult(p.written), now);
    t := Gone(s.(jobs := JobQueue.Apply(s.jobs, FinishEvent(p, now))), worker);
  }

  lemma WritesAndFinishes(s: State, worker: nat, lease: JobQueue.Lease, now: int) returns (s1: State, t: State)
    requires Inv(s) && lease.record.payload.GraphWrite? && Carries(s, worker, lease) && s.workers[worker].Cleared?
    requires Fits(s, lease.record.payload.order) && JobQueue.Holds(s.jobs.q.items, lease, now)
    ensures Leads(s, WriteGraph(worker), s1) && Leads(s1, Finish(worker, now), t)
    ensures Done(s.jobs.q, t, lease)
  {
    s1 := Writes(s, worker, lease);
    t := Finishes(s1, worker, now);
  }

  // The four transactions of one worker with nothing in between.
  predicate Executes(s: State, states: (State, State, State, State), worker: nat, lease: JobQueue.Lease, clearedAt: int, now: int) {
    && Leads(s, Load(worker, lease), states.0) && Leads(states.0, ClearForWriting(worker, clearedAt), states.1)
    && Leads(states.1, WriteGraph(worker), states.2) && Leads(states.2, Finish(worker, now), states.3)
  }

  // Its order's batch is in the graph, and its job is done; no other job was touched.
  predicate Done(q: JobQueue.Queue, t: State, lease: JobQueue.Lease)
    requires lease.record.payload.GraphWrite?
  {
    var order, id := lease.record.payload.order, lease.record.jobId;
    && order.key in t.graph.batches && t.graph.batches[order.key] == order.projection
    && JobQueue.OnlyChanged(q, t.jobs.q, id) && t.jobs.q.items[id].status == JobQueue.Succeeded
  }

  // An undisturbed worker whose lease holds and whose approval has not expired puts its batch
  // into the graph and finishes its job, if the batch agrees with those written before.
  lemma UndisturbedJobSucceeds(s: State, worker: nat, lease: JobQueue.Lease, clearedAt: int, now: int)
    returns (states: (State, State, State, State))
    requires Inv(s) && GraphLease(s, lease) && worker !in s.workers && Fits(s, lease.record.payload.order)
    requires clearedAt < lease.record.payload.order.approval.expiresAt && JobQueue.Holds(s.jobs.q.items, lease, now)
    ensures Executes(s, states, worker, lease, clearedAt, now) && Done(s.jobs.q, states.3, lease)
  {
    var s1, s2 := LoadsAndClears(s, worker, lease, clearedAt);
    SameButPhase(s, s2, worker, lease.record.payload.order);
    var s3, t := WritesAndFinishes(s2, worker, lease, now);
    states := (s1, s2, s3, t);
  }
}
