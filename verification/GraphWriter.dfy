// The two writers of the global graph.  The in-memory writer keeps three dictionaries;
// the PostgreSQL writer keeps relational tables and an Apache AGE mirror.  Both are
// proved against one `Write` on values, and `Write` is proved confluent.

module GraphWriter {
  import opened Common
  import opened FactGraph

  // Projection digests are free constructors too: the projection stands for its digest.
  datatype Graph = Graph(batches: map<IdempotencyKey, Projection>, nodes: map<NodeId, Node>, edges: map<EdgeId, GraphEdge>)

  datatype WriteStatus = Written | AlreadyPresent

  datatype WriteResult = WriteResult(batchId: BatchId, key: IdempotencyKey, status: WriteStatus, nodeCount: nat, edgeCount: nat)

  datatype WriteError = InvalidBatch | UnsafePayload | Conflict

  const EmptyGraph := Graph(map[], map[], map[])

  // ---------------------------------------------------------------- merging nodes

  function MergeEntityAliases(existing: Node, candidate: Node): Option<Node> {
    if existing.labels != candidate.labels || "Entity" !in existing.labels then None
    else if !existing.props.EntityProps? || !candidate.props.EntityProps? then None
    else if existing.props.(aliases := {}) != candidate.props.(aliases := {}) then None
    else Some(existing.(props := existing.props.(aliases := existing.props.aliases + candidate.props.aliases)))
  }

  predicate Compatible(existing: Node, candidate: Node) {
    existing == candidate || MergeEntityAliases(existing, candidate).Some?
  }

  function Join(existing: Node, candidate: Node): Node
    requires Compatible(existing, candidate)
  {
    if existing == candidate then existing else MergeEntityAliases(existing, candidate).value
  }

  function Aliases(n: Node): set<string> {
    if n.props.EntityProps? then n.props.aliases else {}
  }

  // A node without its aliases.
  function Skeleton(n: Node): Node {
    if n.props.EntityProps? then n.(props := n.props.(aliases := {})) else n
  }

  predicate Labelled(n: Node) {
    n.props.EntityProps? <==> "Entity" in n.labels
  }

  lemma CompatibleMeansSameSkeleton(a: Node, c: Node)
    requires Labelled(a) && Labelled(c) && a.id == c.id
    ensures Compatible(a, c) <==> Skeleton(a) == Skeleton(c)
    ensures Compatible(a, c) ==> Skeleton(Join(a, c)) == Skeleton(a) && Aliases(Join(a, c)) == Aliases(a) + Aliases(c)
    ensures Compatible(a, c) ==> Labelled(Join(a, c)) && Join(a, c).id == a.id
  {
    if Skeleton(a) == Skeleton(c) {
      assert a.props.EntityProps? <==> c.props.EntityProps?;
    }
  }

  lemma SkeletonAndAliases(a: Node, c: Node)
    requires Skeleton(a) == Skeleton(c) && Aliases(a) == Aliases(c)
    ensures a == c
  {
  }

  lemma ProjectedLabelled(b: Batch, id: NodeId)
    requires ValidBatch(b) && id in Project(b).nodes
    ensures Project(b).nodes[id].id == id && Labelled(Project(b).nodes[id])
  {
    ProjectionExact(b);
    NodeOfLabelled(b, Project(b).nodes[id]);
  }

  lemma NodeOfLabelled(b: Batch, n: Node)
    requires NodeOf(b, n)
    ensures Labelled(n)
  {
    if i :| 0 <= i < |b.entities| && n == EntityNodeOf(b.entities[i]) {
      EntityLabelsHaveEntity(b.entities[i].entityType);
    } else if i :| 0 <= i < |b.facts| && n == FactNodeOf(b.facts[i]) {
      assert n.labels[0] == "Fact";
    }
  }

  lemma EntityLabelsHaveEntity(entityType: string)
    ensures "Entity" in EntityLabels(entityType)
  {
    var labels := EntityLabels(entityType);
    assert labels[0] == "Entity" || labels[1] == "Entity";
  }

  // ---------------------------------------------------------------- one write, on values

  predicate Mergeable(g: Graph, p: Projection) {
    && (forall id :: id in p.nodes && id in g.nodes ==> Compatible(g.nodes[id], p.nodes[id]))
    && (forall id :: id in p.edges && id in g.edges ==> g.edges[id] == p.edges[id])
  }

  function MergedNodes(g: Graph, p: Projection): map<NodeId, Node>
    requires Mergeable(g, p)
  {
    map id | id in g.nodes.Keys + p.nodes.Keys ::
      if id !in p.nodes then g.nodes[id]
      else if id !in g.nodes then p.nodes[id]
      else Join(g.nodes[id], p.nodes[id])
  }

  // What a writer sees of a valid batch.
  datatype Item = Item(key: IdempotencyKey, p: Projection)

  function ItemOf(b: Batch): Item {
    Item(KeyOf(b), Project(b))
  }

  // Store one projection under its key, or refuse and store nothing.
  function Commit(g: Graph, x: Item): Option<Graph> {
    if x.key in g.batches then
      if g.batches[x.key] == x.p then Some(g) else None
    else if Mergeable(g, x.p) then
      Some(Graph(g.batches[x.key := x.p], MergedNodes(g, x.p), g.edges + x.p.edges))
    else None
  }

  function Receipt(b: Batch, status: WriteStatus): WriteResult {
    WriteResult(BatchIdOf(b), KeyOf(b), status, |Project(b).nodes|, |Project(b).edges|)
  }

  function Write(g: Graph, b: Batch): (Graph, Result<WriteResult, WriteError>) {
    if !ValidBatch(b) then (g, Err(InvalidBatch))
    else
      match Commit(g, ItemOf(b))
      case None => (g, Err(Conflict))
      case Some(after) => (after, Ok(Receipt(b, if KeyOf(b) in g.batches then AlreadyPresent else Written)))
  }

  // ---------------------------------------------------------------- the in-memory writer

  class InMemoryGlobalKnowledgeGraphWriter {
    var batchDigests: map<IdempotencyKey, Projection>
    var nodes: map<NodeId, Node>
    var edges: map<EdgeId, GraphEdge>

    function Contents(): Graph
      reads this
    {
      Graph(batchDigests, nodes, edges)
    }

    constructor ()
      ensures Contents() == EmptyGraph
    {
      batchDigests, nodes, edges := map[], map[], map[];
    }

    // All or nothing: every conflict is found before anything is stored.
    method Store(x: Item) returns (committed: bool)
      modifies this
      ensures committed == Commit(old(Contents()), x).Some?
      ensures Contents() == if committed then Commit(old(Contents()), x).value else old(Contents())
    {
      if x.key in batchDigests {
        return batchDigests[x.key] == x.p;
      }
      var updates := NodeUpdates(nodes, x.p.nodes);
      if updates.Err? {
        return false;
      }
      if exists id :: id in x.p.edges && id in edges && edges[id] != x.p.edges[id] {
        return false;
      }
      UpdatesMerge(Contents(), x.p, updates.value);
      nodes := nodes + updates.value;
      edges := edges + x.p.edges;
      batchDigests := batchDigests[x.key := x.p];
      committed := true;
    }

    method WriteBatch(b: Batch) returns (r: Result<WriteResult, WriteError>)
      modifies this
      ensures (Contents(), r) == Write(old(Contents()), b)
    {
      var projected := ProjectFactBatch(b);
      if projected.Err? {
        return Err(InvalidBatch);
      }
      var status := if KeyOf(b) in batchDigests then AlreadyPresent else Written;
      var committed := Store(Item(KeyOf(b), projected.value));
      if !committed {
        return Err(Conflict);
      }
      r := Ok(WriteResult(BatchIdOf(b), KeyOf(b), status, |projected.value.nodes|, |projected.value.edges|));
    }
  }

  ghost predicate AreUpdates(stored: map<NodeId, Node>, incoming: map<NodeId, Node>, updates: map<NodeId, Node>)
    requires forall id :: id in incoming && id in stored ==> Compatible(stored[id], incoming[id])
  {
    && (forall id :: id in updates <==> id in incoming && (id !in stored || stored[id] != incoming[id]))
    && (forall id :: id in updates ==> updates[id] == if id in stored then Join(stored[id], incoming[id]) else incoming[id])
  }

  lemma UpdatesMerge(g: Graph, p: Projection, updates: map<NodeId, Node>)
    requires Mergeable(g, p) && AreUpdates(g.nodes, p.nodes, updates)
    ensures g.nodes + updates == MergedNodes(g, p)
  {
  }

  method NodeUpdates(stored: map<NodeId, Node>, incoming: map<NodeId, Node>) returns (r: Result<map<NodeId, Node>, WriteError>)
    ensures r.Ok? <==> forall id :: id in incoming && id in stored ==> Compatible(stored[id], incoming[id])
    ensures r.Ok? ==> AreUpdates(stored, incoming, r.value)
  {
    var updates: map<NodeId, Node> := map[];
    var rest := incoming.Keys;
    while rest != {}
      invariant rest <= incoming.Keys
      invariant forall id :: id in incoming && id !in rest && id in stored ==> Compatible(stored[id], incoming[id])
      invariant forall id :: id in updates <==> id in incoming && id !in rest && (id !in stored || stored[id] != incoming[id])
      invariant forall id :: id in updates ==> updates[id] == if id in stored then Join(stored[id], incoming[id]) else incoming[id]
    {
      var id :| id in rest;
      rest := rest - {id};
      var node := incoming[id];
      if id in stored && stored[id] != node {
        var merged := MergeEntityAliases(stored[id], node);
        if merged.None? {
          return Err(Conflict);
        }
        updates := updates[id := merged.value];
      } else if id !in stored {
        updates := updates[id := node];
      }
    }
    r := Ok(updates);
  }

  // ---------------------------------------------------------------- integrity

  // Nodes keep their own identifiers and labels; both endpoints of every edge are present.
  predicate ClosedParts(nodes: map<NodeId, Node>, edges: map<EdgeId, GraphEdge>) {
    && (forall id :: id in nodes ==> nodes[id].id == id && Labelled(nodes[id]))
    && WellKeyed(edges)
    && (forall id :: id in edges ==> id.source in nodes && id.target in nodes)
  }

  predicate Closed(g: Graph) {
    ClosedParts(g.nodes, g.edges)
  }

  lemma ProjectionIsClosed(b: Batch)
    requires ValidBatch(b)
    ensures ClosedParts(Project(b).nodes, Project(b).edges)
  {
    forall id | id in Project(b).nodes
      ensures Project(b).nodes[id].id == id && Labelled(Project(b).nodes[id])
    {
      ProjectedLabelled(b, id);
    }
    forall id | id in Project(b).edges
      ensures id.source in Project(b).nodes && id.target in Project(b).nodes
    {
      ProjectionClosed(b, id);
    }
    ProjectionExact(b);
  }

  lemma MergeKeepsClosed(g: Graph, p: Projection)
    requires Closed(g) && ClosedParts(p.nodes, p.edges) && Mergeable(g, p)
    ensures ClosedParts(MergedNodes(g, p), g.edges + p.edges)
  {
    var nodes := MergedNodes(g, p);
    forall id | id in nodes
      ensures nodes[id].id == id && Labelled(nodes[id])
    {
      if id in p.nodes && id in g.nodes {
        CompatibleMeansSameSkeleton(g.nodes[id], p.nodes[id]);
      }
    }
  }

  // A write keeps the graph closed; one that fails or repeats changes nothing at all.
  lemma WriteKeepsClosed(g: Graph, b: Batch)
    requires Closed(g)
    ensures Closed(Write(g, b).0)
    ensures (Write(g, b).1.Err? || Write(g, b).1.value.status == AlreadyPresent) ==> Write(g, b).0 == g
    ensures g.nodes.Keys <= Write(g, b).0.nodes.Keys && g.edges.Keys <= Write(g, b).0.edges.Keys
  {
    if Write(g, b).0 != g {
      ProjectionIsClosed(b);
      MergeKeepsClosed(g, Project(b));
    }
  }

  // An accepted write reports its batch, the sizes of its projection, and whether the key was
  // there before; afterwards it is there with exactly this projection.
  lemma WriteReports(g: Graph, b: Batch)
    requires Write(g, b).1.Ok?
    ensures var (after, r) := (Write(g, b).0, Write(g, b).1.value);
            && r.batchId == BatchIdOf(b) && r.key == KeyOf(b)
            && r.nodeCount == |Project(b).nodes| && r.edgeCount == |Project(b).edges|
            && (r.status == AlreadyPresent <==> KeyOf(b) in g.batches)
            && KeyOf(b) in after.batches && after.batches[KeyOf(b)] == Project(b)
  {
  }

  // Edges are determined by their identifiers, so only batch keys and nodes can conflict.
  lemma ConflictsAreNodes(g: Graph, b: Batch)
    requires Closed(g) && ValidBatch(b)
    ensures Mergeable(g, Project(b)) <==> forall id :: id in Project(b).nodes && id in g.nodes ==> Compatible(g.nodes[id], Project(b).nodes[id])
  {
    ProjectionIsClosed(b);
  }

  // ---------------------------------------------------------------- confluence

  predicate Sound(xs: seq<Item>) {
    forall i :: 0 <= i < |xs| ==> ClosedParts(xs[i].p.nodes, xs[i].p.edges)
  }

  // Two batches can live in one graph.
  predicate Agree(x: Item, y: Item) {
    && (x.key == y.key ==> x.p == y.p)
    && (forall id :: id in x.p.nodes && id in y.p.nodes ==> Skeleton(x.p.nodes[id]) == Skeleton(y.p.nodes[id]))
  }

  predicate AllAgree(xs: seq<Item>) {
    forall i, j :: 0 <= i < |xs| && 0 <= j < |xs| ==> Agree(xs[i], xs[j])
  }

  ghost predicate KeyFrom(xs: seq<Item>, k: IdempotencyKey) {
    exists i :: 0 <= i < |xs| && xs[i].key == k
  }

  ghost predicate NodeFrom(xs: seq<Item>, id: NodeId) {
    exists i :: 0 <= i < |xs| && id in xs[i].p.nodes
  }

  ghost predicate AliasFrom(xs: seq<Item>, id: NodeId, a: string) {
    exists i :: 0 <= i < |xs| && id in xs[i].p.nodes && a in Aliases(xs[i].p.nodes[id])
  }

  ghost predicate EdgeFrom(xs: seq<Item>, id: EdgeId) {
    exists i :: 0 <= i < |xs| && id in xs[i].p.edges
  }

  ghost predicate DescribesBatches(batches: map<IdempotencyKey, Projection>, xs: seq<Item>) {
    && (forall k :: k in batches <==> KeyFrom(xs, k))
    && (forall i :: 0 <= i < |xs| ==> xs[i].key in batches && batches[xs[i].key] == xs[i].p)
  }

  ghost predicate DescribesNodes(nodes: map<NodeId, Node>, xs: seq<Item>) {
    && (forall id :: id in nodes <==> NodeFrom(xs, id))
    && (forall i, id :: 0 <= i < |xs| && id in xs[i].p.nodes ==>
          id in nodes && Skeleton(nodes[id]) == Skeleton(xs[i].p.nodes[id]))
    && (forall id, a :: id in nodes ==> (a in Aliases(nodes[id]) <==> AliasFrom(xs, id, a)))
  }

  // The graph that holds exactly what the listed batches say, whatever their order.
  ghost predicate Describes(g: Graph, xs: seq<Item>) {
    && Closed(g)
    && DescribesBatches(g.batches, xs)
    && DescribesNodes(g.nodes, xs)
    && (forall id :: id in g.edges <==> EdgeFrom(xs, id))
  }

  function CommitItems(xs: seq<Item>): Option<Graph> {
    if xs == [] then Some(EmptyGraph)
    else
      match CommitItems(xs[..|xs| - 1])
      case None => None
      case Some(g) => Commit(g, xs[|xs| - 1])
  }

  lemma MergeableMeansAgree(g: Graph, xs: seq<Item>, x: Item, i: nat)
    requires Closed(g) && DescribesNodes(g.nodes, xs) && Sound(xs) && ClosedParts(x.p.nodes, x.p.edges)
    requires Mergeable(g, x.p) && i < |xs| && xs[i].key != x.key
    ensures Agree(xs[i], x)
  {
    forall id | id in xs[i].p.nodes && id in x.p.nodes
      ensures Skeleton(xs[i].p.nodes[id]) == Skeleton(x.p.nodes[id])
    {
      CompatibleMeansSameSkeleton(g.nodes[id], x.p.nodes[id]);
    }
  }

  lemma AgreeMeansCompatible(g: Graph, xs: seq<Item>, x: Item, i: nat, id: NodeId)
    requires Closed(g) && DescribesNodes(g.nodes, xs) && ClosedParts(x.p.nodes, x.p.edges)
    requires i < |xs| && id in xs[i].p.nodes && id in x.p.nodes && Agree(xs[i], x)
    ensures id in g.nodes && Compatible(g.nodes[id], x.p.nodes[id])
  {
    CompatibleMeansSameSkeleton(g.nodes[id], x.p.nodes[id]);
  }

  lemma AgreeMeansMergeable(g: Graph, xs: seq<Item>, x: Item)
    requires Closed(g) && DescribesNodes(g.nodes, xs) && ClosedParts(x.p.nodes, x.p.edges)
    requires forall i :: 0 <= i < |xs| ==> Agree(xs[i], x)
    ensures Mergeable(g, x.p)
  {
    forall id | id in x.p.nodes && id in g.nodes
      ensures Compatible(g.nodes[id], x.p.nodes[id])
    {
      AgreeMeansCompatibleAt(g, xs, x, id);
    }
    KeyedEdgesAgree(g.edges, x.p.edges);
  }

  lemma AgreeMeansCompatibleAt(g: Graph, xs: seq<Item>, x: Item, id: NodeId)
    requires Closed(g) && DescribesNodes(g.nodes, xs) && ClosedParts(x.p.nodes, x.p.edges)
    requires forall i :: 0 <= i < |xs| ==> Agree(xs[i], x)
    requires id in x.p.nodes && id in g.nodes
    ensures Compatible(g.nodes[id], x.p.nodes[id])
  {
    var i := Contributor(g, xs, id);
    assert Agree(xs[i], x);
    AgreeMeansCompatible(g, xs, x, i, id);
  }

  lemma KeyedEdgesAgree(m: map<EdgeId, GraphEdge>, n: map<EdgeId, GraphEdge>)
    requires WellKeyed(m) && WellKeyed(n)
    ensures forall id :: id in m && id in n ==> m[id] == n[id]
  {
  }

  lemma Contributor(g: Graph, xs: seq<Item>, id: NodeId) returns (i: nat)
    requires DescribesNodes(g.nodes, xs) && id in g.nodes
    ensures i < |xs| && id in xs[i].p.nodes
  {
    assert NodeFrom(xs, id);
    i :| 0 <= i < |xs| && id in xs[i].p.nodes;
  }

  lemma FromAppend(xs: seq<Item>, x: Item)
    ensures forall k :: KeyFrom(xs + [x], k) <==> KeyFrom(xs, k) || x.key == k
    ensures forall id :: NodeFrom(xs + [x], id) <==> NodeFrom(xs, id) || id in x.p.nodes
    ensures forall id, a :: AliasFrom(xs + [x], id, a) <==> AliasFrom(xs, id, a) || (id in x.p.nodes && a in Aliases(x.p.nodes[id]))
    ensures forall id :: EdgeFrom(xs + [x], id) <==> EdgeFrom(xs, id) || id in x.p.edges
  {
    var all := xs + [x];
    assert all[|xs|] == x;
    forall i | 0 <= i < |xs|
      ensures all[i] == xs[i]
    {
    }
  }

  lemma MergedNode(g: Graph, p: Projection, id: NodeId)
    requires Closed(g) && ClosedParts(p.nodes, p.edges) && Mergeable(g, p) && id in g.nodes.Keys + p.nodes.Keys
    ensures id in g.nodes ==> Skeleton(MergedNodes(g, p)[id]) == Skeleton(g.nodes[id])
    ensures id in p.nodes ==> Skeleton(MergedNodes(g, p)[id]) == Skeleton(p.nodes[id])
    ensures Aliases(MergedNodes(g, p)[id]) ==
            (if id in g.nodes then Aliases(g.nodes[id]) else {}) + (if id in p.nodes then Aliases(p.nodes[id]) else {})
  {
    if id in g.nodes && id in p.nodes {
      CompatibleMeansSameSkeleton(g.nodes[id], p.nodes[id]);
    }
  }

  lemma MergeAddsAliases(g: Graph, xs: seq<Item>, x: Item, id: NodeId)
    requires Closed(g) && DescribesNodes(g.nodes, xs) && ClosedParts(x.p.nodes, x.p.edges) && Mergeable(g, x.p)
    requires id in MergedNodes(g, x.p)
    ensures forall a :: a in Aliases(MergedNodes(g, x.p)[id]) <==> AliasFrom(xs + [x], id, a)
  {
    FromAppend(xs, x);
    MergedNode(g, x.p, id);
    forall a | AliasFrom(xs, id, a)
      ensures NodeFrom(xs, id)
    {
    }
  }

  lemma MergeKeepsSkeletons(g: Graph, xs: seq<Item>, x: Item, i: nat, id: NodeId)
    requires Closed(g) && DescribesNodes(g.nodes, xs) && ClosedParts(x.p.nodes, x.p.edges) && Mergeable(g, x.p)
    requires i <= |xs| && id in (xs + [x])[i].p.nodes
    ensures id in MergedNodes(g, x.p) && Skeleton(MergedNodes(g, x.p)[id]) == Skeleton((xs + [x])[i].p.nodes[id])
  {
    if i < |xs| {
      assert (xs + [x])[i] == xs[i];
    }
    MergedNode(g, x.p, id);
  }

  lemma MergeDescribesNodes(g: Graph, xs: seq<Item>, x: Item)
    requires Closed(g) && DescribesNodes(g.nodes, xs) && ClosedParts(x.p.nodes, x.p.edges) && Mergeable(g, x.p)
    ensures DescribesNodes(MergedNodes(g, x.p), xs + [x])
  {
    var after, all := MergedNodes(g, x.p), xs + [x];
    FromAppend(xs, x);
    forall i, id | 0 <= i < |all| && id in all[i].p.nodes
      ensures id in after && Skeleton(after[id]) == Skeleton(all[i].p.nodes[id])
    {
      MergeKeepsSkeletons(g, xs, x, i, id);
    }
    forall id | id in after
      ensures forall a :: a in Aliases(after[id]) <==> AliasFrom(all, id, a)
    {
      MergeAddsAliases(g, xs, x, id);
    }
  }

  lemma MergeDescribesBatches(batches: map<IdempotencyKey, Projection>, xs: seq<Item>, x: Item)
    requires DescribesBatches(batches, xs) && x.key !in batches
    ensures DescribesBatches(batches[x.key := x.p], xs + [x])
  {
    var all := xs + [x];
    FromAppend(xs, x);
    forall i | 0 <= i < |all|
      ensures all[i].key in batches[x.key := x.p] && batches[x.key := x.p][all[i].key] == all[i].p
    {
      if i < |xs| {
        assert all[i] == xs[i];
        assert KeyFrom(xs, xs[i].key);
      }
    }
  }

  lemma MergeDescribes(g: Graph, xs: seq<Item>, x: Item)
    requires Describes(g, xs) && ClosedParts(x.p.nodes, x.p.edges) && x.key !in g.batches && Mergeable(g, x.p)
    ensures Describes(Commit(g, x).value, xs + [x])
  {
    MergeKeepsClosed(g, x.p);
    MergeDescribesNodes(g, xs, x);
    MergeDescribesBatches(g.batches, xs, x);
    FromAppend(xs, x);
  }

  // An item listed already adds nothing.
  lemma FromRepeat(xs: seq<Item>, j: nat)
    requires j < |xs|
    ensures forall k :: KeyFrom(xs + [xs[j]], k) <==> KeyFrom(xs, k)
    ensures forall id :: NodeFrom(xs + [xs[j]], id) <==> NodeFrom(xs, id)
    ensures forall id, a :: AliasFrom(xs + [xs[j]], id, a) <==> AliasFrom(xs, id, a)
    ensures forall id :: EdgeFrom(xs + [xs[j]], id) <==> EdgeFrom(xs, id)
  {
    FromAppend(xs, xs[j]);
  }

  lemma AppendedItem(xs: seq<Item>, x: Item, i: nat)
    requires i <= |xs|
    ensures (xs + [x])[i] == if i < |xs| then xs[i] else x
  {
  }

  lemma RepeatDescribesNodes(nodes: map<NodeId, Node>, xs: seq<Item>, j: nat)
    requires DescribesNodes(nodes, xs) && j < |xs|
    ensures DescribesNodes(nodes, xs + [xs[j]])
  {
    var all := xs + [xs[j]];
    FromRepeat(xs, j);
    forall i, id | 0 <= i < |all| && id in all[i].p.nodes
      ensures id in nodes && Skeleton(nodes[id]) == Skeleton(all[i].p.nodes[id])
    {
      AppendedItem(xs, xs[j], i);
    }
  }

  lemma RepeatDescribesBatches(batches: map<IdempotencyKey, Projection>, xs: seq<Item>, j: nat)
    requires DescribesBatches(batches, xs) && j < |xs|
    ensures DescribesBatches(batches, xs + [xs[j]])
  {
    var all := xs + [xs[j]];
    FromRepeat(xs, j);
    forall i | 0 <= i < |all|
      ensures all[i].key in batches && batches[all[i].key] == all[i].p
    {
      AppendedItem(xs, xs[j], i);
    }
  }

  lemma RepeatDescribes(g: Graph, xs: seq<Item>, j: nat)
    requires Describes(g, xs) && j < |xs|
    ensures Describes(g, xs + [xs[j]])
  {
    RepeatDescribesNodes(g.nodes, xs, j);
    RepeatDescribesBatches(g.batches, xs, j);
    FromRepeat(xs, j);
  }

  lemma AgreeAppend(xs: seq<Item>, x: Item)
    ensures AllAgree(xs + [x]) <==> AllAgree(xs) && forall i :: 0 <= i < |xs| ==> Agree(xs[i], x)
  {
    var all := xs + [x];
    assert forall i :: 0 <= i < |xs| ==> all[i] == xs[i];
    if AllAgree(all) {
      forall i | 0 <= i < |xs|
        ensures Agree(xs[i], x)
      {
        assert Agree(all[i], all[|xs|]);
      }
      forall i, j | 0 <= i < |xs| && 0 <= j < |xs|
        ensures Agree(xs[i], xs[j])
      {
        assert Agree(all[i], all[j]);
      }
    }
    if AllAgree(xs) && forall i :: 0 <= i < |xs| ==> Agree(xs[i], x) {
      forall i, j | 0 <= i < |all| && 0 <= j < |all|
        ensures Agree(all[i], all[j])
      {
        if i < |xs| && j < |xs| {
          assert Agree(xs[i], xs[j]);
        } else if i < |xs| {
          assert Agree(xs[i], x);
        } else if j < |xs| {
          assert Agree(xs[j], x);
        }
      }
    }
  }

  lemma CommitOne(g: Graph, xs: seq<Item>, x: Item)
    requires Describes(g, xs) && Sound(xs) && AllAgree(xs) && ClosedParts(x.p.nodes, x.p.edges)
    ensures Commit(g, x).Some? <==> forall i :: 0 <= i < |xs| ==> Agree(xs[i], x)
    ensures Commit(g, x).Some? ==> Describes(Commit(g, x).value, xs + [x])
  {
    if x.key in g.batches {
      assert KeyFrom(xs, x.key);
      var j :| 0 <= j < |xs| && xs[j].key == x.key;
      if g.batches[x.key] == x.p {
        RepeatDescribes(g, xs, j);
        forall i | 0 <= i < |xs|
          ensures Agree(xs[i], x)
        {
          assert Agree(xs[i], xs[j]);
        }
      } else {
        assert !Agree(xs[j], x);
      }
    } else {
      forall i | 0 <= i < |xs|
        ensures xs[i].key != x.key
      {
        assert KeyFrom(xs, xs[i].key);
      }
      if Mergeable(g, x.p) {
        forall i | 0 <= i < |xs|
          ensures Agree(xs[i], x)
        {
          MergeableMeansAgree(g, xs, x, i);
        }
        MergeDescribes(g, xs, x);
      } else if forall i :: 0 <= i < |xs| ==> Agree(xs[i], x) {
        AgreeMeansMergeable(g, xs, x);
      }
    }
  }

  // Batches commit in the given order exactly when they agree pairwise, and the result
  // is what they describe together.
  lemma {:induction false} CommitsIffAgree(xs: seq<Item>)
    requires Sound(xs)
    ensures CommitItems(xs).Some? <==> AllAgree(xs)
    ensures CommitItems(xs).Some? ==> Describes(CommitItems(xs).value, xs)
  {
    if xs == [] {
      NothingDescribed();
    } else {
      var front, x := xs[..|xs| - 1], xs[|xs| - 1];
      assert xs == front + [x];
      CommitsIffAgree(front);
      CommitLast(front, x);
    }
  }

  lemma CommitLast(front: seq<Item>, x: Item)
    requires Sound(front) && ClosedParts(x.p.nodes, x.p.edges)
    requires CommitItems(front).Some? <==> AllAgree(front)
    requires CommitItems(front).Some? ==> Describes(CommitItems(front).value, front)
    ensures CommitItems(front + [x]).Some? <==> AllAgree(front + [x])
    ensures CommitItems(front + [x]).Some? ==> Describes(CommitItems(front + [x]).value, front + [x])
  {
    assert (front + [x])[..|front|] == front;
    AgreeAppend(front, x);
    if CommitItems(front).Some? {
      CommitOne(CommitItems(front).value, front, x);
    }
  }

  // A batch that agrees with all committed before it is committed, and found under its key.
  lemma AgreeingCommits(xs: seq<Item>, g: Graph, x: Item)
    requires Sound(xs) && CommitItems(xs) == Some(g) && ClosedParts(x.p.nodes, x.p.edges)
    requires forall i :: 0 <= i < |xs| ==> Agree(xs[i], x)
    ensures Commit(g, x).Some? && x.key in Commit(g, x).value.batches && Commit(g, x).value.batches[x.key] == x.p
  {
    CommitsIffAgree(xs);
    CommitOne(g, xs, x);
    CommitHasKey(g, x);
  }

  lemma CommitHasKey(g: Graph, x: Item)
    requires Commit(g, x).Some?
    ensures x.key in Commit(g, x).value.batches && Commit(g, x).value.batches[x.key] == x.p
  {
  }

  lemma NothingDescribed()
    ensures Describes(EmptyGraph, [])
  {
  }

  lemma NodesOnce(m: map<NodeId, Node>, n: map<NodeId, Node>, xs: seq<Item>)
    requires DescribesNodes(m, xs) && DescribesNodes(n, xs)
    ensures m == n
  {
    forall id | id in m
      ensures id in n && m[id] == n[id]
    {
      assert NodeFrom(xs, id);
      var i :| 0 <= i < |xs| && id in xs[i].p.nodes;
      assert Aliases(m[id]) == Aliases(n[id]);
      SkeletonAndAliases(m[id], n[id]);
    }
    assert m.Keys == n.Keys;
  }

  lemma BatchesOnce(m: map<IdempotencyKey, Projection>, n: map<IdempotencyKey, Projection>, xs: seq<Item>)
    requires DescribesBatches(m, xs) && DescribesBatches(n, xs)
    ensures m == n
  {
    forall k | k in m
      ensures k in n && m[k] == n[k]
    {
      assert KeyFrom(xs, k);
      var i :| 0 <= i < |xs| && xs[i].key == k;
    }
    assert m.Keys == n.Keys;
  }

  lemma EdgesOnce(m: map<EdgeId, GraphEdge>, n: map<EdgeId, GraphEdge>, xs: seq<Item>)
    requires WellKeyed(m) && WellKeyed(n)
    requires (forall id :: id in m <==> EdgeFrom(xs, id)) && (forall id :: id in n <==> EdgeFrom(xs, id))
    ensures m == n
  {
    assert m.Keys == n.Keys;
  }

  lemma DescribedOnce(g: Graph, h: Graph, xs: seq<Item>)
    requires Describes(g, xs) && Describes(h, xs)
    ensures g == h
  {
    NodesOnce(g.nodes, h.nodes, xs);
    BatchesOnce(g.batches, h.batches, xs);
    EdgesOnce(g.edges, h.edges, xs);
  }

  // Only which batches are listed matters to what they describe.
  lemma DescribesSameSet(g: Graph, xs: seq<Item>, ys: seq<Item>)
    requires Describes(g, xs) && Elements(xs) == Elements(ys)
    ensures Describes(g, ys)
  {
    FromSameSet(xs, ys);
    FromSameSet(ys, xs);
    BatchesSameSet(g.batches, xs, ys);
    NodesSameSet(g.nodes, xs, ys);
  }

  lemma Position(xs: seq<Item>, ys: seq<Item>, j: nat) returns (i: nat)
    requires Elements(ys) <= Elements(xs) && j < |ys|
    ensures i < |xs| && xs[i] == ys[j]
  {
    assert ys[j] in Elements(ys);
    i :| 0 <= i < |xs| && xs[i] == ys[j];
  }

  lemma BatchesSameSet(batches: map<IdempotencyKey, Projection>, xs: seq<Item>, ys: seq<Item>)
    requires DescribesBatches(batches, xs) && Elements(xs) == Elements(ys)
    ensures DescribesBatches(batches, ys)
  {
    FromSameSet(xs, ys);
    FromSameSet(ys, xs);
    forall j | 0 <= j < |ys|
      ensures ys[j].key in batches && batches[ys[j].key] == ys[j].p
    {
      var i := Position(xs, ys, j);
    }
  }

  lemma NodesSameSet(nodes: map<NodeId, Node>, xs: seq<Item>, ys: seq<Item>)
    requires DescribesNodes(nodes, xs) && Elements(xs) == Elements(ys)
    ensures DescribesNodes(nodes, ys)
  {
    FromSameSet(xs, ys);
    FromSameSet(ys, xs);
    forall j, id | 0 <= j < |ys| && id in ys[j].p.nodes
      ensures id in nodes && Skeleton(nodes[id]) == Skeleton(ys[j].p.nodes[id])
    {
      var i := Position(xs, ys, j);
    }
  }

  lemma FromSameSet(xs: seq<Item>, ys: seq<Item>)
    requires Elements(xs) <= Elements(ys)
    ensures forall k :: KeyFrom(xs, k) ==> KeyFrom(ys, k)
    ensures forall id :: NodeFrom(xs, id) ==> NodeFrom(ys, id)
    ensures forall id, a :: AliasFrom(xs, id, a) ==> AliasFrom(ys, id, a)
    ensures forall id :: EdgeFrom(xs, id) ==> EdgeFrom(ys, id)
  {
    forall i | 0 <= i < |xs|
      ensures exists j :: 0 <= j < |ys| && ys[j] == xs[i]
    {
      var j := Position(ys, xs, i);
    }
  }

  lemma ItemsConfluent(xs: seq<Item>, ys: seq<Item>)
    requires Sound(xs) && Sound(ys) && Elements(xs) == Elements(ys) && CommitItems(xs).Some?
    ensures CommitItems(ys) == CommitItems(xs)
  {
    CommitsIffAgree(xs);
    CommitsIffAgree(ys);
    forall i, j | 0 <= i < |ys| && 0 <= j < |ys|
      ensures Agree(ys[i], ys[j])
    {
      assert ys[i] in Elements(xs) && ys[j] in Elements(xs);
      var a :| 0 <= a < |xs| && xs[a] == ys[i];
      var c :| 0 <= c < |xs| && xs[c] == ys[j];
      assert Agree(xs[a], xs[c]);
    }
    DescribesSameSet(CommitItems(xs).value, xs, ys);
    DescribedOnce(CommitItems(xs).value, CommitItems(ys).value, ys);
  }

  // ---------------------------------------------------------------- runs of the writer

  function Then(g: Option<Graph>, b: Batch): Option<Graph> {
    if g.None? || Write(g.value, b).1.Err? then None else Some(Write(g.value, b).0)
  }

  // Write the batches in order; fail if any write fails.
  function WriteAll(bs: seq<Batch>): Option<Graph> {
    if bs == [] then Some(EmptyGraph) else Then(WriteAll(bs[..|bs| - 1]), bs[|bs| - 1])
  }

  function ItemsOf(bs: seq<Batch>): seq<Item> {
    seq(|bs|, i requires 0 <= i < |bs| => ItemOf(bs[i]))
  }

  predicate AllValid(bs: seq<Batch>) {
    forall i :: 0 <= i < |bs| ==> ValidBatch(bs[i])
  }

  lemma ThenNeedsValid(g: Option<Graph>, b: Batch)
    requires Then(g, b).Some?
    ensures g.Some? && ValidBatch(b)
  {
  }

  lemma ThenIsCommit(g: Graph, b: Batch)
    requires ValidBatch(b)
    ensures Then(Some(g), b) == Commit(g, ItemOf(b))
  {
  }

  lemma {:induction false} WrittenAreValid(bs: seq<Batch>)
    requires WriteAll(bs).Some?
    ensures AllValid(bs)
  {
    if bs != [] {
      LastIsValid(bs);
      WrittenAreValid(bs[..|bs| - 1]);
      AllValidAppend(bs);
    }
  }

  lemma LastIsValid(bs: seq<Batch>)
    requires bs != [] && WriteAll(bs).Some?
    ensures WriteAll(bs[..|bs| - 1]).Some? && ValidBatch(bs[|bs| - 1])
  {
    ThenNeedsValid(WriteAll(bs[..|bs| - 1]), bs[|bs| - 1]);
  }

  lemma AllValidAppend(bs: seq<Batch>)
    requires bs != [] && AllValid(bs[..|bs| - 1]) && ValidBatch(bs[|bs| - 1])
    ensures AllValid(bs)
  {
    var front := bs[..|bs| - 1];
    forall i | 0 <= i < |bs|
      ensures ValidBatch(bs[i])
    {
      if i < |front| {
        assert bs[i] == front[i];
      }
    }
  }

  lemma {:induction false} WriteAllIsCommit(bs: seq<Batch>)
    requires AllValid(bs)
    ensures WriteAll(bs) == CommitItems(ItemsOf(bs))
  {
    if bs != [] {
      var front, b := bs[..|bs| - 1], bs[|bs| - 1];
      assert AllValid(front);
      WriteAllIsCommit(front);
      assert ItemsOf(bs)[..|bs| - 1] == ItemsOf(front);
      assert ItemsOf(bs)[|bs| - 1] == ItemOf(b);
      if WriteAll(front).Some? {
        ThenIsCommit(WriteAll(front).value, b);
      }
    }
  }

  lemma ItemsSound(bs: seq<Batch>)
    requires AllValid(bs)
    ensures Sound(ItemsOf(bs))
  {
    forall i | 0 <= i < |bs|
      ensures ClosedParts(ItemsOf(bs)[i].p.nodes, ItemsOf(bs)[i].p.edges)
    {
      ProjectionIsClosed(bs[i]);
    }
  }

  // If a set of batches all commit in one order, they commit in every order, repeats
  // included, and always leave the same graph.
  lemma WritesAreConfluent(bs: seq<Batch>, cs: seq<Batch>)
    requires Elements(bs) == Elements(cs) && WriteAll(bs).Some?
    ensures WriteAll(cs) == WriteAll(bs)
  {
    WrittenAreValid(bs);
    forall i | 0 <= i < |cs|
      ensures ValidBatch(cs[i])
    {
      assert cs[i] in Elements(bs);
    }
    WriteAllIsCommit(bs);
    WriteAllIsCommit(cs);
    ItemsSound(bs);
    ItemsSound(cs);
    SameItems(bs, cs);
    SameItems(cs, bs);
    ItemsConfluent(ItemsOf(bs), ItemsOf(cs));
  }

  lemma SameItems(bs: seq<Batch>, cs: seq<Batch>)
    requires Elements(bs) <= Elements(cs)
    ensures Elements(ItemsOf(bs)) <= Elements(ItemsOf(cs))
  {
    forall x | x in ItemsOf(bs)
      ensures x in ItemsOf(cs)
    {
      var i :| 0 <= i < |bs| && ItemsOf(bs)[i] == x;
      assert bs[i] in Elements(cs);
      var j :| 0 <= j < |cs| && cs[j] == bs[i];
      assert ItemsOf(cs)[j] == x;
    }
  }

  // A run commits exactly when its batches are valid and agree pairwise, and its graph is closed.
  lemma RunsCommitIffAgree(bs: seq<Batch>)
    ensures WriteAll(bs).Some? <==> AllValid(bs) && AllAgree(ItemsOf(bs))
    ensures WriteAll(bs).Some? ==> Describes(WriteAll(bs).value, ItemsOf(bs))
  {
    if WriteAll(bs).Some? {
      WrittenAreValid(bs);
    }
    if AllValid(bs) {
      WriteAllIsCommit(bs);
      ItemsSound(bs);
      CommitsIffAgree(ItemsOf(bs));
    }
  }
}
