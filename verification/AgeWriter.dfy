// The PostgreSQL writer of the global graph: approval first, then one transaction over the
// relational tables and their Apache AGE mirror.  The relational tables go through the same
// `Write` as the in-memory writer; the mirror never drifts from them.

module AgeWriter {
  import opened Common
  import opened FactGraph
  import opened GraphWriter

  // A decision as the review tables hand it over.  The projection stands for its digest.
  datatype Approval = Approval(batchId: BatchId, key: IdempotencyKey, projection: Projection, approved: bool,
                               reviewerGeneration: string, auditGeneration: string, expiresAt: int)

  datatype Lookup = Unavailable | Missing | Malformed | Found(approval: Approval)

  datatype AgeError = InvalidFacts | UnsafeGraph | ApprovalUnavailable | ApprovalMissing | ApprovalInvalid
                    | ApprovalMismatch | ApprovalRejected | ApprovalExpired | GraphConflict

  const MAX_GRAPH_NODES := 10_000
  const MAX_GRAPH_EDGES := 25_000

  // ---------------------------------------------------------------- approval

  function RequireApproval(batchId: BatchId, key: IdempotencyKey, p: Projection, lookup: Lookup, now: int): Result<Approval, AgeError> {
    match lookup
    case Unavailable => Err(ApprovalUnavailable)
    case Missing => Err(ApprovalMissing)
    case Malformed => Err(ApprovalInvalid)
    case Found(a) =>
      if a.batchId != batchId || a.key != key || a.projection != p then Err(ApprovalMismatch)
      else if !a.approved then Err(ApprovalRejected)
      else if a.expiresAt <= now then Err(ApprovalExpired)
      else Ok(a)
  }

  lemma CheckedApproval(batchId: BatchId, key: IdempotencyKey, p: Projection, lookup: Lookup, now: int)
    requires RequireApproval(batchId, key, p, lookup, now).Ok?
    ensures var a := RequireApproval(batchId, key, p, lookup, now).value;
            lookup == Found(a) && a.approved && a.key == key && a.projection == p && now < a.expiresAt
  {
  }

  predicate WithinLimits(p: Projection) {
    |p.nodes| <= MAX_GRAPH_NODES && |p.edges| <= MAX_GRAPH_EDGES
  }

  // What one call does to the relational graph.
  function AgeWrite(g: Graph, b: Batch, lookup: Lookup, now: int): (Graph, Result<WriteResult, AgeError>) {
    if !ValidBatch(b) then (g, Err(InvalidFacts))
    else if !WithinLimits(Project(b)) then (g, Err(UnsafeGraph))
    else
      match RequireApproval(BatchIdOf(b), KeyOf(b), Project(b), lookup, now)
      case Err(e) => (g, Err(e))
      case Ok(_) =>
        var (after, r) := Write(g, b);
        (after, if r.Ok? then Ok(r.value) else Err(GraphConflict))
  }

  // Approval and size can only turn a write away: a write that goes through is the in-memory
  // writer's, and whatever is refused leaves the graph alone.
  lemma AgreesWithInMemory(g: Graph, b: Batch, lookup: Lookup, now: int)
    ensures AgeWrite(g, b, lookup, now).1.Ok? <==>
              && Write(g, b).1.Ok? && WithinLimits(Project(b))
              && lookup.Found? && lookup.approval.approved && now < lookup.approval.expiresAt
              && lookup.approval.batchId == BatchIdOf(b) && lookup.approval.key == KeyOf(b) && lookup.approval.projection == Project(b)
    ensures AgeWrite(g, b, lookup, now).1.Ok? ==>
              AgeWrite(g, b, lookup, now).0 == Write(g, b).0 && AgeWrite(g, b, lookup, now).1.value == Write(g, b).1.value
    ensures AgeWrite(g, b, lookup, now).1.Err? ==> AgeWrite(g, b, lookup, now).0 == g
  {
  }

  // Why a write is refused before it is tried, first match first.
  lemma RefusalMeans(g: Graph, b: Batch, lookup: Lookup, now: int)
    ensures var r := AgeWrite(g, b, lookup, now).1;
            && (r == Err(InvalidFacts) <==> !ValidBatch(b))
            && (ValidBatch(b) ==> (r == Err(UnsafeGraph) <==> |Project(b).nodes| > 10_000 || |Project(b).edges| > 25_000))
            && (ValidBatch(b) && |Project(b).nodes| <= 10_000 && |Project(b).edges| <= 25_000 ==>
                  match lookup
                  case Unavailable => r == Err(ApprovalUnavailable)
                  case Missing => r == Err(ApprovalMissing)
                  case Malformed => r == Err(ApprovalInvalid)
                  case Found(a) =>
                    && (r == Err(ApprovalMismatch) <==> a.batchId != BatchIdOf(b) || a.key != KeyOf(b) || a.projection != Project(b))
                    && (r == Err(ApprovalRejected) ==> !a.approved)
                    && (r == Err(ApprovalExpired) ==> a.approved && a.expiresAt <= now)
                    && (r == Err(GraphConflict) ==> a.approved && now < a.expiresAt && Write(g, b).1.Err?))
  {
  }

  // ---------------------------------------------------------------- the mirror

  datatype AgeKey = AgeKey(source: NodeId, target: NodeId, id: EdgeId)

  function KeysOf(edges: map<EdgeId, GraphEdge>): set<AgeKey> {
    set id | id in edges :: AgeKey(edges[id].source, edges[id].target, id)
  }

  // The property-graph edges that stand for the relational ones.
  function Mirror(edges: map<EdgeId, GraphEdge>): map<AgeKey, GraphEdge> {
    map k | k in KeysOf(edges) :: edges[k.id]
  }

  // The edge statement matches both endpoints first; an edge without them is skipped in silence.
  function Matched(nodes: map<NodeId, Node>, edges: map<EdgeId, GraphEdge>): map<AgeKey, GraphEdge> {
    map k | k in KeysOf(edges) && k.source in nodes && k.target in nodes :: edges[k.id]
  }

  lemma NothingSkipped(nodes: map<NodeId, Node>, edges: map<EdgeId, GraphEdge>)
    requires forall id :: id in edges ==> edges[id].source in nodes && edges[id].target in nodes
    ensures Matched(nodes, edges) == Mirror(edges)
  {
  }

  // The mirror joins the endpoints of every relational edge, in their direction, and nothing else.
  lemma MirrorMeans(edges: map<EdgeId, GraphEdge>, k: AgeKey)
    ensures k in Mirror(edges) <==> k.id in edges && edges[k.id].source == k.source && edges[k.id].target == k.target
    ensures k in Mirror(edges) ==> Mirror(edges)[k] == edges[k.id]
  {
  }

  lemma MirrorOfUnion(stored: map<EdgeId, GraphEdge>, incoming: map<EdgeId, GraphEdge>)
    requires forall id :: id in stored && id in incoming ==> stored[id] == incoming[id]
    ensures Mirror(stored + incoming) == Mirror(stored) + Mirror(incoming)
  {
    assert KeysOf(stored + incoming) == KeysOf(stored) + KeysOf(incoming);
  }

  lemma ProjectedEndpoints(p: Projection)
    requires ClosedParts(p.nodes, p.edges)
    ensures forall id :: id in p.edges ==> p.edges[id].source in p.nodes && p.edges[id].target in p.nodes
  {
    forall id | id in p.edges
      ensures p.edges[id].source in p.nodes && p.edges[id].target in p.nodes
    {
      assert id.source in p.nodes && id.target in p.nodes;
    }
  }

  // ---------------------------------------------------------------- the writer

  datatype BatchRow = BatchRow(projection: Projection, approval: Approval, writtenAt: int)

  predicate ApprovedRow(key: IdempotencyKey, row: BatchRow) {
    && row.approval.approved
    && row.approval.key == key
    && row.approval.projection == row.projection
    && row.writtenAt < row.approval.expiresAt
  }

  function Digests(batches: map<IdempotencyKey, BatchRow>): map<IdempotencyKey, Projection> {
    map k | k in batches :: batches[k].projection
  }

  lemma DigestAdded(batches: map<IdempotencyKey, BatchRow>, key: IdempotencyKey, row: BatchRow)
    ensures Digests(batches[key := row]) == Digests(batches)[key := row.projection]
  {
  }

  class PostgresAGEGlobalKnowledgeGraphWriter {
    var batches: map<IdempotencyKey, BatchRow>
    var nodes: map<NodeId, Node>
    var edges: map<EdgeId, GraphEdge>
    var ageNodes: map<NodeId, Node>
    var ageEdges: map<AgeKey, GraphEdge>

    function Relational(): Graph
      reads this
    {
      Graph(Digests(batches), nodes, edges)
    }

    ghost predicate Valid()
      reads this
    {
      && (forall k :: k in batches ==> ApprovedRow(k, batches[k]))
      && ageNodes == nodes
      && ageEdges == Mirror(edges)
    }

    constructor ()
      ensures Valid() && Relational() == EmptyGraph
    {
      batches, nodes, edges, ageNodes, ageEdges := map[], map[], map[], map[], map[];
    }

    // The node rows to write, unless something stored contradicts the projection.
    method Prepare(p: Projection) returns (updates: Option<map<NodeId, Node>>)
      requires ClosedParts(p.nodes, p.edges)
      ensures updates.Some? <==> Mergeable(Relational(), p)
      ensures updates.Some? ==> nodes + updates.value == MergedNodes(Relational(), p)
      ensures updates.Some? ==> Mirror(edges) + Matched(nodes + updates.value, p.edges) == Mirror(edges + p.edges)
    {
      updates := AllNodeUpdates(nodes, p.nodes);
      if updates.None? {
        return None;
      }
      if exists id :: id in p.edges && id in edges && edges[id] != p.edges[id] {
        return None;
      }
      UpdatesMergeAll(Relational(), p, updates.value);
      MirrorFollows(nodes + updates.value, edges, p);
    }

    // The transaction: found, refused, or all five statements.
    method Transact(x: Item, approval: Approval, now: int) returns (committed: bool)
      requires Valid() && ClosedParts(x.p.nodes, x.p.edges)
      requires approval.approved && approval.key == x.key && approval.projection == x.p && now < approval.expiresAt
      modifies this
      ensures Valid()
      ensures committed == Commit(old(Relational()), x).Some?
      ensures Relational() == if committed then Commit(old(Relational()), x).value else old(Relational())
      ensures batches == if committed && x.key !in old(batches) then old(batches)[x.key := BatchRow(x.p, approval, now)] else old(batches)
    {
      if x.key in batches {
        return batches[x.key].projection == x.p;
      }
      var updates := Prepare(x.p);
      if updates.None? {
        return false;
      }
      DigestAdded(batches, x.key, BatchRow(x.p, approval, now));
      UpsertTables(updates.value, x.p.edges);
      UpsertMirror(updates.value, x.p.edges);
      batches := batches[x.key := BatchRow(x.p, approval, now)];
      committed := true;
    }

    method UpsertTables(updates: map<NodeId, Node>, incoming: map<EdgeId, GraphEdge>)
      modifies this`nodes, this`edges
      ensures nodes == old(nodes) + updates && edges == old(edges) + incoming
    {
      nodes := nodes + updates;
      edges := edges + incoming;
    }

    method UpsertMirror(updates: map<NodeId, Node>, incoming: map<EdgeId, GraphEdge>)
      modifies this`ageNodes, this`ageEdges
      ensures ageNodes == old(ageNodes) + updates && ageEdges == old(ageEdges) + Matched(ageNodes, incoming)
    {
      ageNodes := ageNodes + updates;
      ageEdges := ageEdges + Matched(ageNodes, incoming);
    }

    method WriteBatch(b: Batch, lookup: Lookup, now: int) returns (r: Result<WriteResult, AgeError>)
      requires Valid()
      modifies this
      ensures Valid()
      ensures (Relational(), r) == AgeWrite(old(Relational()), b, lookup, now)
      ensures forall k :: k in old(batches) ==> k in batches && batches[k] == old(batches)[k]
      ensures forall k :: k in batches && k !in old(batches) ==>
                k == KeyOf(b) && lookup.Found? && batches[k] == BatchRow(Project(b), lookup.approval, now)
    {
      var projected := ProjectFactBatch(b);
      if projected.Err? {
        return Err(InvalidFacts);
      }
      var p := projected.value;
      if |p.nodes| > MAX_GRAPH_NODES || |p.edges| > MAX_GRAPH_EDGES {
        return Err(UnsafeGraph);
      }
      var approval := RequireApproval(BatchIdOf(b), KeyOf(b), p, lookup, now);
      if approval.Err? {
        return Err(approval.error);
      }
      CheckedApproval(BatchIdOf(b), KeyOf(b), p, lookup, now);
      var status := if KeyOf(b) in batches then AlreadyPresent else Written;
      ProjectionIsClosed(b);
      var committed := Transact(Item(KeyOf(b), p), approval.value, now);
      assert batches == if committed && KeyOf(b) !in old(batches) then old(batches)[KeyOf(b) := BatchRow(p, lookup.approval, now)] else old(batches);
      if !committed {
        return Err(GraphConflict);
      }
      r := Ok(WriteResult(BatchIdOf(b), KeyOf(b), status, |p.nodes|, |p.edges|));
    }
  }

  ghost predicate AreAllUpdates(stored: map<NodeId, Node>, incoming: map<NodeId, Node>, updates: map<NodeId, Node>)
    requires forall id :: id in incoming && id in stored ==> Compatible(stored[id], incoming[id])
  {
    && updates.Keys == incoming.Keys
    && forall id :: id in incoming ==> updates[id] == if id in stored then Join(stored[id], incoming[id]) else incoming[id]
  }

  lemma UpdatesMergeAll(g: Graph, p: Projection, updates: map<NodeId, Node>)
    requires Mergeable(g, p) && AreAllUpdates(g.nodes, p.nodes, updates)
    ensures g.nodes + updates == MergedNodes(g, p)
  {
  }

  lemma MirrorFollows(after: map<NodeId, Node>, edges: map<EdgeId, GraphEdge>, p: Projection)
    requires ClosedParts(p.nodes, p.edges) && p.nodes.Keys <= after.Keys
    requires forall id :: id in p.edges && id in edges ==> edges[id] == p.edges[id]
    ensures Mirror(edges) + Matched(after, p.edges) == Mirror(edges + p.edges)
  {
    ProjectedEndpoints(p);
    NothingSkipped(after, p.edges);
    MirrorOfUnion(edges, p.edges);
  }

  // Unlike the in-memory writer, every projected node is written again, merged or not.
  method AllNodeUpdates(stored: map<NodeId, Node>, incoming: map<NodeId, Node>) returns (r: Option<map<NodeId, Node>>)
    ensures r.Some? <==> forall id :: id in incoming && id in stored ==> Compatible(stored[id], incoming[id])
    ensures r.Some? ==> AreAllUpdates(stored, incoming, r.value)
  {
    var updates: map<NodeId, Node> := map[];
    var rest := incoming.Keys;
    while rest != {}
      invariant rest <= incoming.Keys
      invariant updates.Keys == incoming.Keys - rest
      invariant forall id :: id in updates && id in stored ==> Compatible(stored[id], incoming[id])
      invariant forall id :: id in updates ==> updates[id] == if id in stored then Join(stored[id], incoming[id]) else incoming[id]
    {
      var id :| id in rest;
      rest := rest - {id};
      var node := incoming[id];
      if id !in stored || stored[id] == node {
        updates := updates[id := node];
      } else {
        var merged := MergeEntityAliases(stored[id], node);
        if merged.None? {
          return None;
        }
        updates := updates[id := merged.value];
      }
    }
    r := Some(updates);
  }
}
