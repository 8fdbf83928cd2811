// Evidence-gated facts and their projection onto a property graph.  Content-addressed
// identifiers are free constructors over the hashed payload, so equal identifiers mean
// equal payloads.  Aliases are sets.

module FactGraph {
  import opened Common

  // A text together with its case-folded form.
  datatype Text = Text(written: string, folded: string)

  datatype Provenance = Provenance(generationId: string, extractor: string)

  datatype Anchors = Anchors(page: Option<nat>, section: Option<string>, table: Option<string>,
                             figure: Option<string>, blockIndex: Option<nat>)

  datatype Uri = Uri(rootId: string, sourceId: nat, anchors: Anchors)

  datatype EvidenceLink = EvidenceLink(fragmentId: nat, sourceId: nat, rootId: string, relativePath: string,
                                       anchors: Anchors, role: string)

  datatype EntityRef = EntityRef(entityType: string, canonicalName: Text, aliases: set<string>, identifiers: map<string, string>)

  // What relations and observations share: conditions, confidence, epistemic status, extractor.
  datatype Claim = Claim(testConditions: seq<string>, processConditions: seq<string>, confidence: real,
                         quality: string, status: string, extraction: Provenance)

  datatype Fact =
    | Relation(subject: EntityRef, predicate_: string, object_: EntityRef, claim: Claim, evidence: seq<EvidenceLink>)
    | Observation(subject: EntityRef, subjectRole: string, property: Text, value: real, unit_: string, testMethod: Text,
                  claim: Claim, evidence: seq<EvidenceLink>)

  datatype Batch = Batch(fragmentId: nat, extraction: Provenance, entities: seq<EntityRef>, facts: seq<Fact>)

  // ---------------------------------------------------------------- identifiers

  datatype NodeId =
    | EntityId(entityType: string, foldedName: string, identifiers: map<string, string>)
    | RelationId(subject: NodeId, predicate_: string, object_: NodeId, claim: Claim, evidence: seq<NodeId>)
    | ObservationId(subject: NodeId, subjectRole: string, foldedProperty: string, value: real, unit_: string,
                    foldedMethod: string, claim: Claim, evidence: seq<NodeId>)
    | EvidenceId(fragmentId: nat, sourceId: nat, uri: Uri)

  datatype EdgeId = EdgeId(edgeType: string, source: NodeId, target: NodeId, role: Option<string>)

  datatype IdempotencyKey = IdempotencyKey(fragmentId: nat, generationId: string)

  datatype BatchId = BatchId(key: IdempotencyKey, entityIds: seq<NodeId>, factIds: seq<NodeId>)

  function UriOf(link: EvidenceLink): Uri {
    Uri(link.rootId, link.sourceId, link.anchors)
  }

  function EvidenceIdOf(link: EvidenceLink): NodeId {
    EvidenceId(link.fragmentId, link.sourceId, UriOf(link))
  }

  function EntityIdOf(e: EntityRef): NodeId {
    EntityId(e.entityType, e.canonicalName.folded, e.identifiers)
  }

  function FactIdOf(f: Fact): NodeId {
    var links := seq(|f.evidence|, i requires 0 <= i < |f.evidence| => EvidenceIdOf(f.evidence[i]));
    match f
    case Relation(s, p, o, claim, _) => RelationId(EntityIdOf(s), p, EntityIdOf(o), claim, links)
    case Observation(s, role, property, value, u, m, claim, _) =>
      ObservationId(EntityIdOf(s), role, property.folded, value, u, m.folded, claim, links)
  }

  function KeyOf(b: Batch): IdempotencyKey {
    IdempotencyKey(b.fragmentId, b.extraction.generationId)
  }

  function BatchIdOf(b: Batch): BatchId {
    BatchId(KeyOf(b),
            seq(|b.entities|, i requires 0 <= i < |b.entities| => EntityIdOf(b.entities[i])),
            seq(|b.facts|, i requires 0 <= i < |b.facts| => FactIdOf(b.facts[i])))
  }

  // ---------------------------------------------------------------- batch validation

  predicate UniqueEvidence(f: Fact) {
    f.evidence != []
    && forall i, j :: 0 <= i < j < |f.evidence| ==> EvidenceIdOf(f.evidence[i]) != EvidenceIdOf(f.evidence[j])
  }

  predicate ValidRole(f: Fact) {
    f.Relation?
    || (f.subjectRole == "material" && f.subject.entityType in {"material", "composition"})
    || (f.subjectRole == "sample" && f.subject.entityType == "sample")
  }

  predicate Declared(b: Batch, e: EntityRef) {
    exists i :: 0 <= i < |b.entities| && b.entities[i] == e
  }

  predicate ValidFact(b: Batch, f: Fact) {
    && UniqueEvidence(f)
    && ValidRole(f)
    && f.claim.extraction == b.extraction
    && (exists i :: 0 <= i < |f.evidence| && f.evidence[i].fragmentId == b.fragmentId)
    && Declared(b, f.subject)
    && (f.Relation? ==> Declared(b, f.object_))
  }

  predicate ValidBatch(b: Batch) {
    && b.entities != [] && b.facts != []
    && (forall i, j :: 0 <= i < j < |b.entities| ==> EntityIdOf(b.entities[i]) != EntityIdOf(b.entities[j]))
    && (forall i, j :: 0 <= i < j < |b.facts| ==> FactIdOf(b.facts[i]) != FactIdOf(b.facts[j]))
    && (forall i :: 0 <= i < |b.facts| ==> ValidFact(b, b.facts[i]))
  }

  // ---------------------------------------------------------------- property graph

  datatype Props =
    | EntityProps(entityType: string, canonicalName: string, aliases: set<string>, identifiers: map<string, string>)
    | RelationProps(predicate_: string, claim: Claim)
    | ObservationProps(subjectRole: string, property: string, value: real, unit_: string, testMethod: string, claim: Claim)
    | EvidenceProps(fragmentId: nat, sourceId: nat, uri: Uri, anchors: Anchors)

  datatype Node = Node(id: NodeId, labels: seq<string>, props: Props)

  datatype GraphEdge = GraphEdge(id: EdgeId, edgeType: string, source: NodeId, target: NodeId, role: Option<string>)

  datatype Projection = Projection(nodes: map<NodeId, Node>, edges: map<EdgeId, GraphEdge>)

  function EntityLabels(entityType: string): seq<string> {
    if entityType == "material" then ["Entity", "MaterialEntity"]
    else if entityType == "composition" then ["Composition", "Entity", "MaterialEntity"]
    else if entityType == "sample" then ["Entity", "MaterialEntity", "Sample"]
    else if entityType == "process" then ["Entity", "Process"]
    else if entityType == "test_method" then ["Entity", "TestMethod"]
    else if entityType == "application" then ["Application", "Entity"]
    else if entityType == "source" then ["Entity", "Source"]
    else ["Entity"]
  }

  function EntityNodeOf(e: EntityRef): Node {
    Node(EntityIdOf(e), EntityLabels(e.entityType), EntityProps(e.entityType, e.canonicalName.written, e.aliases, e.identifiers))
  }

  function FactNodeOf(f: Fact): Node {
    match f
    case Relation(_, p, _, claim, _) => Node(FactIdOf(f), ["Fact", "RelationAssertion"], RelationProps(p, claim))
    case Observation(_, role, property, value, u, m, claim, _) =>
      Node(FactIdOf(f), ["Fact", "PropertyObservation"], ObservationProps(role, property.written, value, u, m.written, claim))
  }

  function EvidenceNodeOf(link: EvidenceLink): Node {
    Node(EvidenceIdOf(link), ["EvidenceFragment"], EvidenceProps(link.fragmentId, link.sourceId, UriOf(link), link.anchors))
  }

  function MakeEdge(edgeType: string, source: NodeId, target: NodeId, role: Option<string>): GraphEdge {
    GraphEdge(EdgeId(edgeType, source, target, role), edgeType, source, target, role)
  }

  function FactEdges(f: Fact): seq<GraphEdge> {
    match f
    case Relation(s, _, o, _, _) =>
      [MakeEdge("ASSERTION_SUBJECT", EntityIdOf(s), FactIdOf(f), None), MakeEdge("ASSERTION_OBJECT", FactIdOf(f), EntityIdOf(o), None)]
    case Observation(s, _, _, _, _, _, _, _) =>
      [MakeEdge("OBSERVED_ON", FactIdOf(f), EntityIdOf(s), None)]
  }

  function SupportEdge(f: Fact, link: EvidenceLink): GraphEdge {
    MakeEdge("SUPPORTED_BY", FactIdOf(f), EvidenceIdOf(link), Some(link.role))
  }

  // A node of the batch, before any is stored.
  predicate NodeOf(b: Batch, n: Node) {
    || (exists i :: 0 <= i < |b.entities| && n == EntityNodeOf(b.entities[i]))
    || (exists i :: 0 <= i < |b.facts| && n == FactNodeOf(b.facts[i]))
    || (exists i, j :: 0 <= i < |b.facts| && 0 <= j < |b.facts[i].evidence| && n == EvidenceNodeOf(b.facts[i].evidence[j]))
  }

  predicate EdgeOf(b: Batch, e: GraphEdge) {
    || (exists i, j :: 0 <= i < |b.facts| && 0 <= j < |FactEdges(b.facts[i])| && e == FactEdges(b.facts[i])[j])
    || (exists i, j :: 0 <= i < |b.facts| && 0 <= j < |b.facts[i].evidence| && e == SupportEdge(b.facts[i], b.facts[i].evidence[j]))
  }

  // Which kind of node an identifier can name.
  lemma NodeKinds(b: Batch, n: Node)
    requires NodeOf(b, n)
    ensures n.id.EvidenceId? ==> n == Node(n.id, ["EvidenceFragment"], EvidenceProps(n.id.fragmentId, n.id.sourceId, n.id.uri, n.id.uri.anchors))
    ensures n.id.EntityId? ==> exists i :: 0 <= i < |b.entities| && n == EntityNodeOf(b.entities[i])
    ensures n.id.RelationId? || n.id.ObservationId? ==> exists i :: 0 <= i < |b.facts| && n == FactNodeOf(b.facts[i])
  {
  }

  lemma SameEntity(b: Batch, i: nat, j: nat)
    requires ValidBatch(b) && i < |b.entities| && j < |b.entities| && EntityNodeOf(b.entities[i]).id == EntityNodeOf(b.entities[j]).id
    ensures i == j
  {
    assert EntityIdOf(b.entities[i]) == EntityIdOf(b.entities[j]);
  }

  lemma SameFact(b: Batch, i: nat, j: nat)
    requires ValidBatch(b) && i < |b.facts| && j < |b.facts| && FactNodeOf(b.facts[i]).id == FactNodeOf(b.facts[j]).id
    ensures i == j
  {
    FactNodeIn(b, i);
    FactNodeIn(b, j);
    assert FactIdOf(b.facts[i]) == FactIdOf(b.facts[j]);
  }

  // In a valid batch an identifier determines its node, so projecting cannot conflict.
  lemma NodeIdDetermines(b: Batch, m: Node, n: Node)
    requires ValidBatch(b) && NodeOf(b, m) && NodeOf(b, n) && m.id == n.id
    ensures m == n
  {
    NodeKinds(b, m);
    NodeKinds(b, n);
    if m.id.EntityId? {
      var i :| 0 <= i < |b.entities| && m == EntityNodeOf(b.entities[i]);
      var j :| 0 <= j < |b.entities| && n == EntityNodeOf(b.entities[j]);
      SameEntity(b, i, j);
    } else if !m.id.EvidenceId? {
      var i :| 0 <= i < |b.facts| && m == FactNodeOf(b.facts[i]);
      var j :| 0 <= j < |b.facts| && n == FactNodeOf(b.facts[j]);
      SameFact(b, i, j);
    }
  }

  ghost predicate UniqueIds(b: Batch) {
    forall m, n :: NodeOf(b, m) && NodeOf(b, n) && m.id == n.id ==> m == n
  }

  lemma IdsAreUnique(b: Batch)
    requires ValidBatch(b)
    ensures UniqueIds(b)
  {
    forall m, n | NodeOf(b, m) && NodeOf(b, n) && m.id == n.id
      ensures m == n
    {
      NodeIdDetermines(b, m, n);
    }
  }

  ghost predicate HasNode(b: Batch, id: NodeId) {
    exists n :: NodeOf(b, n) && n.id == id
  }

  // Both endpoints of every edge are nodes of the batch.
  lemma EdgeEndpoints(b: Batch, e: GraphEdge)
    requires ValidBatch(b) && EdgeOf(b, e)
    ensures HasNode(b, e.source) && HasNode(b, e.target)
  {
    if i, j :| 0 <= i < |b.facts| && 0 <= j < |FactEdges(b.facts[i])| && e == FactEdges(b.facts[i])[j] {
      FactEdgeEndpoints(b, i, j);
    } else {
      var i, j :| 0 <= i < |b.facts| && 0 <= j < |b.facts[i].evidence| && e == SupportEdge(b.facts[i], b.facts[i].evidence[j]);
      FactNodeIn(b, i);
      var n := EvidenceNodeOf(b.facts[i].evidence[j]);
      assert NodeOf(b, n) && n.id == e.target;
    }
  }

  lemma FactEdgeEndpoints(b: Batch, i: nat, j: nat)
    requires ValidBatch(b) && i < |b.facts| && j < |FactEdges(b.facts[i])|
    ensures HasNode(b, FactEdges(b.facts[i])[j].source) && HasNode(b, FactEdges(b.facts[i])[j].target)
  {
    var f := b.facts[i];
    assert ValidFact(b, f);
    FactNodeIn(b, i);
    EntityNodeIn(b, f.subject);
    if f.Relation? {
      EntityNodeIn(b, f.object_);
    }
  }

  lemma FactNodeIn(b: Batch, i: nat)
    requires i < |b.facts|
    ensures NodeOf(b, FactNodeOf(b.facts[i])) && FactNodeOf(b.facts[i]).id == FactIdOf(b.facts[i])
  {
  }

  lemma EntityNodeIn(b: Batch, e: EntityRef)
    requires Declared(b, e)
    ensures NodeOf(b, EntityNodeOf(e)) && EntityNodeOf(e).id == EntityIdOf(e)
  {
  }

  // ---------------------------------------------------------------- projecting

  datatype FactError = InvalidFactBatch | InvalidGraphProjection

  function EntityNodes(b: Batch): seq<Node> {
    seq(|b.entities|, i requires 0 <= i < |b.entities| => EntityNodeOf(b.entities[i]))
  }

  function FactNodes(f: Fact): seq<Node> {
    [FactNodeOf(f)] + seq(|f.evidence|, j requires 0 <= j < |f.evidence| => EvidenceNodeOf(f.evidence[j]))
  }

  function AllFactEdges(f: Fact): seq<GraphEdge> {
    FactEdges(f) + seq(|f.evidence|, j requires 0 <= j < |f.evidence| => SupportEdge(f, f.evidence[j]))
  }

  // Everything added while the first `k` facts are walked, in that order.
  function NodesUpTo(b: Batch, k: nat): seq<Node>
    requires k <= |b.facts|
  {
    if k == 0 then EntityNodes(b) else NodesUpTo(b, k - 1) + FactNodes(b.facts[k - 1])
  }

  function EdgesUpTo(b: Batch, k: nat): seq<GraphEdge>
    requires k <= |b.facts|
  {
    if k == 0 then [] else EdgesUpTo(b, k - 1) + AllFactEdges(b.facts[k - 1])
  }

  function StoreNodes(nodes: map<NodeId, Node>, list: seq<Node>): map<NodeId, Node>
    decreases |list|
  {
    if list == [] then nodes
    else StoreNodes(nodes[list[0].id := list[0]], list[1..])
  }

  function StoreEdges(edges: map<EdgeId, GraphEdge>, list: seq<GraphEdge>): map<EdgeId, GraphEdge>
    decreases |list|
  {
    if list == [] then edges
    else StoreEdges(edges[list[0].id := list[0]], list[1..])
  }

  function WithFact(p: Projection, f: Fact): Projection {
    Projection(StoreNodes(p.nodes, FactNodes(f)), StoreEdges(p.edges, AllFactEdges(f)))
  }

  // The dictionaries after the first `k` facts.
  function ProjectUpTo(b: Batch, k: nat): Projection
    requires k <= |b.facts|
  {
    if k == 0 then Projection(StoreNodes(map[], EntityNodes(b)), map[])
    else WithFact(ProjectUpTo(b, k - 1), b.facts[k - 1])
  }

  function Project(b: Batch): Projection {
    ProjectUpTo(b, |b.facts|)
  }

  lemma {:induction false} StoredAtOnce(b: Batch, k: nat)
    requires k <= |b.facts|
    ensures ProjectUpTo(b, k).nodes == StoreNodes(map[], NodesUpTo(b, k))
    ensures ProjectUpTo(b, k).edges == StoreEdges(map[], EdgesUpTo(b, k))
  {
    if k > 0 {
      StoredAtOnce(b, k - 1);
      StoreNodesAppend(map[], NodesUpTo(b, k - 1), FactNodes(b.facts[k - 1]));
      StoreEdgesAppend(map[], EdgesUpTo(b, k - 1), AllFactEdges(b.facts[k - 1]));
    }
  }

  // The dictionary holds nodes of the batch only, each under its own identifier.
  predicate FromBatch(b: Batch, nodes: map<NodeId, Node>) {
    forall id :: id in nodes ==> nodes[id].id == id && NodeOf(b, nodes[id])
  }

  predicate WellKeyed(edges: map<EdgeId, GraphEdge>) {
    forall id :: id in edges ==> edges[id] == MakeEdge(id.edgeType, id.source, id.target, id.role)
  }

  lemma {:induction false} StoringNodes(b: Batch, nodes: map<NodeId, Node>, list: seq<Node>)
    requires FromBatch(b, nodes) && forall i :: 0 <= i < |list| ==> NodeOf(b, list[i])
    ensures FromBatch(b, StoreNodes(nodes, list))
    decreases |list|
  {
    if list != [] {
      assert NodeOf(b, list[0]);
      StoringNodes(b, nodes[list[0].id := list[0]], list[1..]);
    }
  }

  lemma {:induction false} StoringEdges(edges: map<EdgeId, GraphEdge>, list: seq<GraphEdge>)
    requires WellKeyed(edges) && KeyedByContent(list)
    ensures WellKeyed(StoreEdges(edges, list))
    decreases |list|
  {
    if list != [] {
      StoringEdges(edges[list[0].id := list[0]], list[1..]);
    }
  }

  predicate Belongs(b: Batch, p: Projection) {
    FromBatch(b, p.nodes) && WellKeyed(p.edges)
  }

  lemma FactBelongs(b: Batch, k: nat, p: Projection)
    requires k < |b.facts| && Belongs(b, p)
    ensures Belongs(b, WithFact(p, b.facts[k]))
  {
    FactNodesBelong(b, k);
    FactEdgesKeyed(b.facts[k]);
    StoringNodes(b, p.nodes, FactNodes(b.facts[k]));
    StoringEdges(p.edges, AllFactEdges(b.facts[k]));
  }

  // What the first `k` facts leave are nodes of the batch and edges keyed by their content.
  lemma {:induction false} UpToBelongs(b: Batch, k: nat)
    requires k <= |b.facts|
    ensures Belongs(b, ProjectUpTo(b, k))
  {
    if k == 0 {
      EntityNodesBelong(b);
      StoringNodes(b, map[], EntityNodes(b));
    } else {
      UpToBelongs(b, k - 1);
      FactBelongs(b, k - 1, ProjectUpTo(b, k - 1));
    }
  }

  method AddNodes(ghost b: Batch, nodes: map<NodeId, Node>, list: seq<Node>) returns (r: Result<map<NodeId, Node>, FactError>)
    requires UniqueIds(b) && FromBatch(b, nodes) && forall i :: 0 <= i < |list| ==> NodeOf(b, list[i])
    ensures r == Ok(StoreNodes(nodes, list))
  {
    var current := nodes;
    for i := 0 to |list|
      invariant FromBatch(b, current)
      invariant StoreNodes(current, list[i..]) == StoreNodes(nodes, list)
    {
      var candidate := list[i];
      assert list[i..][1..] == list[i + 1..];
      assert NodeOf(b, candidate);
      if candidate.id in current {
        assert NodeOf(b, current[candidate.id]);
      }
      if candidate.id in current && current[candidate.id] != candidate {
        return Err(InvalidGraphProjection);
      }
      current := current[candidate.id := candidate];
    }
    r := Ok(current);
  }

  method AddEdges(edges: map<EdgeId, GraphEdge>, list: seq<GraphEdge>) returns (r: Result<map<EdgeId, GraphEdge>, FactError>)
    requires WellKeyed(edges)
    requires KeyedByContent(list)
    ensures r == Ok(StoreEdges(edges, list))
  {
    var current := edges;
    for i := 0 to |list|
      invariant WellKeyed(current)
      invariant StoreEdges(current, list[i..]) == StoreEdges(edges, list)
    {
      var candidate := list[i];
      assert list[i..][1..] == list[i + 1..];
      if candidate.id in current && current[candidate.id] != candidate {
        return Err(InvalidGraphProjection);
      }
      current := current[candidate.id := candidate];
    }
    r := Ok(current);
  }

  // A valid batch always projects: no identifier is ever claimed by two different nodes or edges.
  method ProjectFactBatch(b: Batch) returns (r: Result<Projection, FactError>)
    ensures r == if ValidBatch(b) then Ok(Project(b)) else Err(InvalidFactBatch)
  {
    if !ValidBatch(b) {
      return Err(InvalidFactBatch);
    }
    IdsAreUnique(b);
    r := ProjectUnique(b);
  }

  method ProjectUnique(b: Batch) returns (r: Result<Projection, FactError>)
    requires UniqueIds(b)
    ensures r == Ok(Project(b))
  {
    r := AddEntities(b);
    for k := 0 to |b.facts|
      invariant r == Ok(ProjectUpTo(b, k))
    {
      r := AddFact(b, k, r.value);
    }
  }

  method AddEntities(b: Batch) returns (r: Result<Projection, FactError>)
    requires UniqueIds(b)
    ensures r == Ok(ProjectUpTo(b, 0))
  {
    EntityNodesBelong(b);
    var nodes := AddNodes(b, map[], EntityNodes(b));
    if nodes.Err? {
      return Err(InvalidGraphProjection);
    }
    r := Ok(Projection(nodes.value, map[]));
  }

  // One relation or observation: its node, its evidence nodes, and their edges.
  method AddFact(b: Batch, k: nat, p: Projection) returns (r: Result<Projection, FactError>)
    requires UniqueIds(b) && k < |b.facts| && p == ProjectUpTo(b, k)
    ensures r == Ok(WithFact(p, b.facts[k]))
  {
    UpToBelongs(b, k);
    FactNodesBelong(b, k);
    FactEdgesKeyed(b.facts[k]);
    var nodes := AddNodes(b, p.nodes, FactNodes(b.facts[k]));
    if nodes.Err? {
      return Err(InvalidGraphProjection);
    }
    var edges := AddEdges(p.edges, AllFactEdges(b.facts[k]));
    if edges.Err? {
      return Err(InvalidGraphProjection);
    }
    r := Ok(Projection(nodes.value, edges.value));
  }

  predicate KeyedByContent(list: seq<GraphEdge>) {
    forall i :: 0 <= i < |list| ==> list[i] == MakeEdge(list[i].edgeType, list[i].source, list[i].target, list[i].role)
  }

  lemma FactEdgesKeyed(f: Fact)
    ensures KeyedByContent(AllFactEdges(f))
  {
  }

  lemma EntityNodesBelong(b: Batch)
    ensures forall i :: 0 <= i < |EntityNodes(b)| ==> NodeOf(b, EntityNodes(b)[i])
  {
  }

  lemma FactNodesBelong(b: Batch, k: nat)
    requires k < |b.facts|
    ensures forall i :: 0 <= i < |FactNodes(b.facts[k])| ==> NodeOf(b, FactNodes(b.facts[k])[i])
  {
    var f := b.facts[k];
    forall i | 0 <= i < |FactNodes(f)|
      ensures NodeOf(b, FactNodes(f)[i])
    {
      if i == 0 {
        FactNodeIn(b, k);
      } else {
        assert FactNodes(f)[i] == EvidenceNodeOf(b.facts[k].evidence[i - 1]);
      }
    }
  }

  lemma {:induction false} StoreNodesAppend(nodes: map<NodeId, Node>, a: seq<Node>, c: seq<Node>)
    ensures StoreNodes(nodes, a + c) == StoreNodes(StoreNodes(nodes, a), c)
    decreases |a|
  {
    if a == [] {
      assert a + c == c;
    } else {
      assert (a + c)[1..] == a[1..] + c;
      StoreNodesAppend(nodes[a[0].id := a[0]], a[1..], c);
    }
  }

  lemma {:induction false} StoreEdgesAppend(edges: map<EdgeId, GraphEdge>, a: seq<GraphEdge>, c: seq<GraphEdge>)
    ensures StoreEdges(edges, a + c) == StoreEdges(StoreEdges(edges, a), c)
    decreases |a|
  {
    if a == [] {
      assert a + c == c;
    } else {
      assert (a + c)[1..] == a[1..] + c;
      StoreEdgesAppend(edges[a[0].id := a[0]], a[1..], c);
    }
  }

  // ---------------------------------------------------------------- what a projection contains

  ghost predicate IsProjection(b: Batch, p: Projection) {
    && FromBatch(b, p.nodes)
    && (forall n :: NodeOf(b, n) ==> n.id in p.nodes && p.nodes[n.id] == n)
    && WellKeyed(p.edges)
    && (forall id :: id in p.edges <==> EdgeOf(b, MakeEdge(id.edgeType, id.source, id.target, id.role)))
  }

  predicate Consistent(list: seq<Node>) {
    forall i, j :: 0 <= i < j < |list| && list[i].id == list[j].id ==> list[i] == list[j]
  }

  lemma {:induction false} StoredNodes(nodes: map<NodeId, Node>, list: seq<Node>, id: NodeId)
    requires Consistent(list)
    ensures id in StoreNodes(nodes, list) <==> id in nodes || exists i :: 0 <= i < |list| && list[i].id == id
    ensures forall i :: 0 <= i < |list| && list[i].id == id ==> StoreNodes(nodes, list)[id] == list[i]
    ensures id in nodes && (forall i :: 0 <= i < |list| ==> list[i].id != id) ==> StoreNodes(nodes, list)[id] == nodes[id]
    decreases |list|
  {
    if list != [] {
      var rest, next := list[1..], nodes[list[0].id := list[0]];
      assert forall i :: 1 <= i < |list| ==> list[i] == rest[i - 1];
      StoredNodes(next, rest, id);
    }
  }

  lemma {:induction false} StoredEdges(edges: map<EdgeId, GraphEdge>, list: seq<GraphEdge>, id: EdgeId)
    requires KeyedByContent(list)
    ensures id in StoreEdges(edges, list) <==> id in edges || exists i :: 0 <= i < |list| && list[i].id == id
    decreases |list|
  {
    if list != [] {
      var rest, next := list[1..], edges[list[0].id := list[0]];
      assert forall i :: 1 <= i < |list| ==> list[i] == rest[i - 1];
      StoredEdges(next, rest, id);
    }
  }

  lemma {:induction false} ListedNodes(b: Batch, k: nat, n: Node)
    requires k <= |b.facts|
    ensures n in NodesUpTo(b, k) <==>
              || (exists i :: 0 <= i < |b.entities| && n == EntityNodeOf(b.entities[i]))
              || (exists i :: 0 <= i < k && n in FactNodes(b.facts[i]))
  {
    if k == 0 {
      if i :| 0 <= i < |b.entities| && n == EntityNodeOf(b.entities[i]) {
        assert EntityNodes(b)[i] == n;
      }
    } else {
      ListedNodes(b, k - 1, n);
      InSum(NodesUpTo(b, k - 1), FactNodes(b.facts[k - 1]), n);
    }
  }

  predicate EdgeOfFact(b: Batch, i: nat, e: GraphEdge)
    requires i < |b.facts|
  {
    e in AllFactEdges(b.facts[i])
  }

  lemma {:induction false} ListedEdges(b: Batch, k: nat, e: GraphEdge)
    requires k <= |b.facts|
    ensures e in EdgesUpTo(b, k) <==> exists i :: 0 <= i < k && EdgeOfFact(b, i, e)
  {
    if k > 0 {
      ListedEdges(b, k - 1, e);
      InSum(EdgesUpTo(b, k - 1), AllFactEdges(b.facts[k - 1]), e);
      var last := k - 1;
      assert EdgeOfFact(b, last, e) <==> e in AllFactEdges(b.facts[last]);
    }
  }

  lemma InSum<T>(a: seq<T>, c: seq<T>, x: T)
    ensures x in a + c <==> x in a || x in c
  {
  }

  lemma InFactNodes(f: Fact, n: Node)
    ensures n in FactNodes(f) <==> n == FactNodeOf(f) || exists j :: 0 <= j < |f.evidence| && n == EvidenceNodeOf(f.evidence[j])
  {
    if j :| 0 <= j < |f.evidence| && n == EvidenceNodeOf(f.evidence[j]) {
      assert FactNodes(f)[j + 1] == n;
    }
  }

  lemma InFactEdges(f: Fact, e: GraphEdge)
    ensures e in AllFactEdges(f) <==> e in FactEdges(f) || exists j :: 0 <= j < |f.evidence| && e == SupportEdge(f, f.evidence[j])
  {
    if j :| 0 <= j < |f.evidence| && e == SupportEdge(f, f.evidence[j]) {
      assert AllFactEdges(f)[|FactEdges(f)| + j] == e;
    }
  }

  lemma NodeListed(b: Batch, n: Node)
    ensures NodeOf(b, n) <==> n in NodesUpTo(b, |b.facts|)
  {
    ListedNodes(b, |b.facts|, n);
    forall i | 0 <= i < |b.facts|
      ensures n in FactNodes(b.facts[i]) <==>
                n == FactNodeOf(b.facts[i]) || exists j :: 0 <= j < |b.facts[i].evidence| && n == EvidenceNodeOf(b.facts[i].evidence[j])
    {
      InFactNodes(b.facts[i], n);
    }
  }

  lemma EdgeListed(b: Batch, e: GraphEdge)
    ensures EdgeOf(b, e) <==> e in EdgesUpTo(b, |b.facts|)
  {
    ListedEdges(b, |b.facts|, e);
    forall i | 0 <= i < |b.facts|
      ensures EdgeOfFact(b, i, e) <==>
                e in FactEdges(b.facts[i]) || exists j :: 0 <= j < |b.facts[i].evidence| && e == SupportEdge(b.facts[i], b.facts[i].evidence[j])
    {
      InFactEdges(b.facts[i], e);
    }
  }

  lemma EdgesAreKeyed(b: Batch)
    ensures KeyedByContent(EdgesUpTo(b, |b.facts|))
  {
    var list := EdgesUpTo(b, |b.facts|);
    forall i | 0 <= i < |list|
      ensures list[i] == MakeEdge(list[i].edgeType, list[i].source, list[i].target, list[i].role)
    {
      assert list[i] in list;
      ListedEdges(b, |b.facts|, list[i]);
      var k :| 0 <= k < |b.facts| && EdgeOfFact(b, k, list[i]);
      FactEdgesKeyed(b.facts[k]);
    }
  }

  // The projection of a valid batch is exactly its nodes and edges.
  lemma ProjectionExact(b: Batch)
    requires ValidBatch(b)
    ensures IsProjection(b, Project(b))
  {
    var nodes, edges := NodesUpTo(b, |b.facts|), EdgesUpTo(b, |b.facts|);
    StoredAtOnce(b, |b.facts|);
    forall i, j | 0 <= i < j < |nodes| && nodes[i].id == nodes[j].id
      ensures nodes[i] == nodes[j]
    {
      assert nodes[i] in nodes && nodes[j] in nodes;
      NodeListed(b, nodes[i]);
      NodeListed(b, nodes[j]);
      NodeIdDetermines(b, nodes[i], nodes[j]);
    }
    forall id | id in Project(b).nodes
      ensures Project(b).nodes[id].id == id && NodeOf(b, Project(b).nodes[id])
    {
      StoredNodes(map[], nodes, id);
      var i :| 0 <= i < |nodes| && nodes[i].id == id;
      assert nodes[i] in nodes;
      NodeListed(b, nodes[i]);
    }
    forall n | NodeOf(b, n)
      ensures n.id in Project(b).nodes && Project(b).nodes[n.id] == n
    {
      NodeListed(b, n);
      StoredNodes(map[], nodes, n.id);
    }
    EdgesAreKeyed(b);
    StoringEdges(map[], edges);
    forall id
      ensures id in Project(b).edges <==> EdgeOf(b, MakeEdge(id.edgeType, id.source, id.target, id.role))
    {
      var e := MakeEdge(id.edgeType, id.source, id.target, id.role);
      EdgeListed(b, e);
      StoredEdges(map[], edges, id);
    }
  }

  // Every edge of a projection joins two of its nodes.
  lemma ProjectionClosed(b: Batch, id: EdgeId)
    requires ValidBatch(b) && id in Project(b).edges
    ensures id.source in Project(b).nodes && id.target in Project(b).nodes
  {
    ProjectionExact(b);
    EdgeEndpoints(b, MakeEdge(id.edgeType, id.source, id.target, id.role));
  }
}
