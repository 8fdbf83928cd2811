// What a projected graph says, told without the functions that build it: who is said to do what
// to whom, on which evidence.

module FactReading {
  import opened Common
  import opened FactGraph

  // The edges a fact gives rise to, one by one.
  predicate EdgeFor(f: Fact, id: EdgeId) {
    || (f.Relation? && id == EdgeId("ASSERTION_SUBJECT", EntityIdOf(f.subject), FactIdOf(f), None))
    || (f.Relation? && id == EdgeId("ASSERTION_OBJECT", FactIdOf(f), EntityIdOf(f.object_), None))
    || (f.Observation? && id == EdgeId("OBSERVED_ON", FactIdOf(f), EntityIdOf(f.subject), None))
    || exists j :: 0 <= j < |f.evidence| && id == EdgeId("SUPPORTED_BY", FactIdOf(f), EvidenceIdOf(f.evidence[j]), Some(f.evidence[j].role))
  }

  // The edges of a projection are exactly those of its facts.
  lemma ProjectedEdges(b: Batch, id: EdgeId)
    requires ValidBatch(b)
    ensures id in Project(b).edges <==> exists i :: 0 <= i < |b.facts| && EdgeFor(b.facts[i], id)
    ensures id in Project(b).edges ==> Project(b).edges[id] == GraphEdge(id, id.edgeType, id.source, id.target, id.role)
  {
    ProjectionExact(b);
    EdgesOfFacts(b, id);
  }

  lemma EdgesOfFacts(b: Batch, id: EdgeId)
    ensures EdgeOf(b, MakeEdge(id.edgeType, id.source, id.target, id.role)) <==> exists i :: 0 <= i < |b.facts| && EdgeFor(b.facts[i], id)
  {
    var e := MakeEdge(id.edgeType, id.source, id.target, id.role);
    forall i | 0 <= i < |b.facts|
      ensures EdgeFor(b.facts[i], id) <==>
                (exists j :: 0 <= j < |FactEdges(b.facts[i])| && e == FactEdges(b.facts[i])[j])
                || (exists j :: 0 <= j < |b.facts[i].evidence| && e == SupportEdge(b.facts[i], b.facts[i].evidence[j]))
    {
      EdgeForListed(b.facts[i], id);
    }
  }

  lemma EdgeForListed(f: Fact, id: EdgeId)
    ensures var e := MakeEdge(id.edgeType, id.source, id.target, id.role);
            EdgeFor(f, id) <==>
              (exists j :: 0 <= j < |FactEdges(f)| && e == FactEdges(f)[j])
              || (exists j :: 0 <= j < |f.evidence| && e == SupportEdge(f, f.evidence[j]))
  {
    var e := MakeEdge(id.edgeType, id.source, id.target, id.role);
    assert f.Relation? ==> FactEdges(f)[0].id == EdgeId("ASSERTION_SUBJECT", EntityIdOf(f.subject), FactIdOf(f), None);
    assert f.Relation? ==> FactEdges(f)[1].id == EdgeId("ASSERTION_OBJECT", FactIdOf(f), EntityIdOf(f.object_), None);
    assert f.Observation? ==> FactEdges(f)[0].id == EdgeId("OBSERVED_ON", FactIdOf(f), EntityIdOf(f.subject), None);
    assert forall j :: 0 <= j < |f.evidence| ==>
             SupportEdge(f, f.evidence[j]).id == EdgeId("SUPPORTED_BY", FactIdOf(f), EvidenceIdOf(f.evidence[j]), Some(f.evidence[j].role));
    if j :| 0 <= j < |f.evidence| && id == EdgeId("SUPPORTED_BY", FactIdOf(f), EvidenceIdOf(f.evidence[j]), Some(f.evidence[j].role)) {
      assert e == SupportEdge(f, f.evidence[j]);
    }
  }

  lemma OneFactPerEdge(f: Fact, g: Fact, id: EdgeId)
    requires EdgeFor(f, id) && (id.source == FactIdOf(g) || id.target == FactIdOf(g))
    ensures FactIdOf(f) == FactIdOf(g)
  {
  }

  // A fact is read back from the graph as it was stated: around its node there are the edges to
  // and from its own subject and object, and those to its evidence, and no others.
  lemma FactReadBack(b: Batch, i: nat, id: EdgeId)
    requires ValidBatch(b) && i < |b.facts|
    requires id.source == FactIdOf(b.facts[i]) || id.target == FactIdOf(b.facts[i])
    ensures id in Project(b).edges <==> EdgeFor(b.facts[i], id)
  {
    ProjectedEdges(b, id);
    if id in Project(b).edges {
      var k :| 0 <= k < |b.facts| && EdgeFor(b.facts[k], id);
      OneFactPerEdge(b.facts[k], b.facts[i], id);
      SameFact(b, k, i);
    }
  }

  // What an identifier of a fact says: who, what, about whom, under which claim, on which evidence.
  lemma FactIdSays(f: Fact)
    ensures var id := FactIdOf(f);
            match f
            case Relation(s, p, o, claim, links) =>
              && id.RelationId? && id.predicate_ == p && id.claim == claim
              && id.subject == EntityId(s.entityType, s.canonicalName.folded, s.identifiers)
              && id.object_ == EntityId(o.entityType, o.canonicalName.folded, o.identifiers)
              && |id.evidence| == |links|
              && forall j :: 0 <= j < |links| ==>
                   id.evidence[j] == EvidenceId(links[j].fragmentId, links[j].sourceId, Uri(links[j].rootId, links[j].sourceId, links[j].anchors))
            case Observation(s, role, property, value, u, m, claim, links) =>
              && id.ObservationId? && id.subjectRole == role && id.foldedProperty == property.folded && id.value == value
              && id.unit_ == u && id.foldedMethod == m.folded && id.claim == claim
              && id.subject == EntityId(s.entityType, s.canonicalName.folded, s.identifiers)
              && |id.evidence| == |links|
              && forall j :: 0 <= j < |links| ==>
                   id.evidence[j] == EvidenceId(links[j].fragmentId, links[j].sourceId, Uri(links[j].rootId, links[j].sourceId, links[j].anchors))
  {
  }

  // Every entity, fact and piece of evidence is stored with what it says.
  lemma ProjectedNodes(b: Batch, i: nat)
    requires ValidBatch(b)
    ensures i < |b.entities| ==>
              var e, id := b.entities[i], EntityIdOf(b.entities[i]);
              id in Project(b).nodes && Project(b).nodes[id].props == EntityProps(e.entityType, e.canonicalName.written, e.aliases, e.identifiers)
    ensures i < |b.facts| ==>
              var f, id := b.facts[i], FactIdOf(b.facts[i]);
              && id in Project(b).nodes
              && (f.Relation? ==> Project(b).nodes[id].props == RelationProps(f.predicate_, f.claim))
              && (f.Observation? ==> Project(b).nodes[id].props
                                     == ObservationProps(f.subjectRole, f.property.written, f.value, f.unit_, f.testMethod.written, f.claim))
    ensures i < |b.facts| ==>
              forall j :: 0 <= j < |b.facts[i].evidence| ==>
                var link, id := b.facts[i].evidence[j], EvidenceIdOf(b.facts[i].evidence[j]);
                && id in Project(b).nodes && Project(b).nodes[id].props.EvidenceProps?
                && Project(b).nodes[id].props.fragmentId == link.fragmentId && Project(b).nodes[id].props.sourceId == link.sourceId
                && Project(b).nodes[id].props.anchors == link.anchors
                && Project(b).nodes[id].props.uri == Uri(link.rootId, link.sourceId, link.anchors)
  {
    ProjectionExact(b);
    if i < |b.entities| {
      assert NodeOf(b, EntityNodeOf(b.entities[i]));
    }
    if i < |b.facts| {
      FactNodeIn(b, i);
      forall j | 0 <= j < |b.facts[i].evidence|
        ensures NodeOf(b, EvidenceNodeOf(b.facts[i].evidence[j]))
      {
      }
    }
  }

  // ---------------------------------------------------------------- which batches are refused

  // No evidence twice, and some of it from the batch's own fragment.
  predicate Supported(b: Batch, f: Fact) {
    && FactIdOf(f).evidence != [] && NoDup(FactIdOf(f).evidence)
    && exists link :: link in f.evidence && link.fragmentId == b.fragmentId
  }

  // A batch is projected exactly if it has entities and facts, each under its own identifier, and
  // every fact was extracted with the batch, is supported, is about declared entities, and
  // observes a material or composition as a material or a sample as a sample.
  lemma AcceptedMeans(b: Batch)
    ensures ValidBatch(b) <==>
              && b.entities != [] && b.facts != []
              && NoDup(BatchIdOf(b).entityIds) && NoDup(BatchIdOf(b).factIds)
              && forall f :: f in b.facts ==>
                   && Supported(b, f) && f.claim.extraction == b.extraction && f.subject in b.entities
                   && (f.Relation? ==> f.object_ in b.entities)
                   && (f.Observation? ==>
                         (f.subject.entityType, f.subjectRole) in {("material", "material"), ("composition", "material"), ("sample", "sample")})
  {
    DistinctIds(b);
    forall f
      ensures ValidFact(b, f) <==>
                && Supported(b, f) && f.claim.extraction == b.extraction && f.subject in b.entities
                && (f.Relation? ==> f.object_ in b.entities)
                && (f.Observation? ==>
                      (f.subject.entityType, f.subjectRole) in {("material", "material"), ("composition", "material"), ("sample", "sample")})
    {
      FactAcceptedMeans(b, f);
    }
  }

  lemma DistinctIds(b: Batch)
    ensures NoDup(BatchIdOf(b).entityIds) <==> forall i, j :: 0 <= i < j < |b.entities| ==> EntityIdOf(b.entities[i]) != EntityIdOf(b.entities[j])
    ensures NoDup(BatchIdOf(b).factIds) <==> forall i, j :: 0 <= i < j < |b.facts| ==> FactIdOf(b.facts[i]) != FactIdOf(b.facts[j])
  {
    var entities, facts := BatchIdOf(b).entityIds, BatchIdOf(b).factIds;
    forall i, j | 0 <= i < j < |b.entities| && NoDup(entities)
      ensures EntityIdOf(b.entities[i]) != EntityIdOf(b.entities[j])
    {
      assert entities[i] != entities[j];
    }
    forall i, j | 0 <= i < j < |b.facts| && NoDup(facts)
      ensures FactIdOf(b.facts[i]) != FactIdOf(b.facts[j])
    {
      assert facts[i] != facts[j];
    }
  }

  lemma FactAcceptedMeans(b: Batch, f: Fact)
    ensures ValidFact(b, f) <==>
              && Supported(b, f) && f.claim.extraction == b.extraction && f.subject in b.entities
              && (f.Relation? ==> f.object_ in b.entities)
              && (f.Observation? ==>
                    (f.subject.entityType, f.subjectRole) in {("material", "material"), ("composition", "material"), ("sample", "sample")})
  {
    var ids := FactIdOf(f).evidence;
    assert |ids| == |f.evidence| && forall i :: 0 <= i < |ids| ==> ids[i] == EvidenceIdOf(f.evidence[i]);
    assert UniqueEvidence(f) <==> ids != [] && NoDup(ids);
  }

  // What an entity is labelled: itself, what kind of material it is, or what else.
  lemma LabelsMean(e: EntityRef, tag: string)
    ensures tag in EntityNodeOf(e).labels <==>
              || tag == "Entity"
              || (tag == "MaterialEntity" && e.entityType in {"material", "composition", "sample"})
              || (tag, e.entityType) in {("Composition", "composition"), ("Sample", "sample"), ("Process", "process"),
                                           ("TestMethod", "test_method"), ("Application", "application"), ("Source", "source")}
  {
  }

  // Facts and evidence are labelled by their kind.
  lemma OtherLabels(b: Batch, i: nat)
    requires ValidBatch(b) && i < |b.facts|
    ensures Project(b).nodes.Keys >= {FactIdOf(b.facts[i])}
    ensures Project(b).nodes[FactIdOf(b.facts[i])].labels == ["Fact", if b.facts[i].Relation? then "RelationAssertion" else "PropertyObservation"]
    ensures forall j :: 0 <= j < |b.facts[i].evidence| ==>
              var id := EvidenceIdOf(b.facts[i].evidence[j]); id in Project(b).nodes && Project(b).nodes[id].labels == ["EvidenceFragment"]
  {
    ProjectionExact(b);
    FactNodeIn(b, i);
    forall j | 0 <= j < |b.facts[i].evidence|
      ensures NodeOf(b, EvidenceNodeOf(b.facts[i].evidence[j]))
    {
    }
  }
}
