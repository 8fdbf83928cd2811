// The source catalog.  The in-memory catalog recomputes every canonical pointer and version
// relation after each upsert; the PostgreSQL catalog repairs only what the upsert touched.
// The repaired pointers equal the recomputed ones in every state.

module Catalog {
  import opened Common

  datatype Value = Null | Text(text: string) | Number(number: int) | List(items: seq<Value>) | Object(fields: map<string, Value>)

  // A prepared catalog record without its identifier and its canonical pointer, which the
  // catalogs below keep in maps of their own.
  datatype Entry = Entry(rootId: string, path: string, kind: string, title: string, status: string, year: Option<int>,
                         doi: Option<string>, application: Option<string>, publication: Option<string>, grant_: Option<string>,
                         legalStatus: string, sha: Option<string>, byteSize: Option<int>, category: Option<string>,
                         domain: string, metadata: map<string, Value>)

  datatype Pair = Pair(source: nat, target: nat)

  datatype Relation = Relation(pair: Pair, doi: string)

  datatype Path = Path(rootId: string, path: string)

  function PathOf(e: Entry): Path {
    Path(e.rootId, e.path)
  }

  // ---------------------------------------------------------------- merging

  predicate HasText(o: Option<string>) {
    o.Some? && o.value != ""
  }

  function PreferText(incoming: Option<string>, existing: Option<string>): Option<string> {
    if HasText(incoming) then incoming else existing
  }

  function PreferNumber(incoming: Option<int>, existing: Option<int>): Option<int> {
    if incoming.Some? then incoming else existing
  }

  function PreferString(incoming: string, existing: string): string {
    if incoming != "" then incoming else existing
  }

  function PreferKnown(incoming: string, existing: string): string {
    if incoming != "unknown" || existing == "unknown" then incoming else existing
  }

  function MergeRecords(existing: Entry, incoming: Entry): Entry {
    existing.(
      title := PreferString(incoming.title, existing.title),
      kind := PreferKnown(incoming.kind, existing.kind),
      status := incoming.status,
      year := PreferNumber(incoming.year, existing.year),
      doi := PreferText(incoming.doi, existing.doi),
      application := PreferText(incoming.application, existing.application),
      publication := PreferText(incoming.publication, existing.publication),
      grant_ := PreferText(incoming.grant_, existing.grant_),
      legalStatus := PreferKnown(incoming.legalStatus, existing.legalStatus),
      sha := PreferText(incoming.sha, existing.sha),
      byteSize := PreferNumber(incoming.byteSize, existing.byteSize),
      category := PreferText(incoming.category, existing.category),
      domain := PreferString(incoming.domain, existing.domain),
      metadata := existing.metadata + incoming.metadata)
  }

  // Merging is a band: repeating an update, or a whole tail of updates, adds nothing.
  lemma MergeIdempotent(e: Entry, i: Entry)
    ensures MergeRecords(MergeRecords(e, i), i) == MergeRecords(e, i)
    ensures MergeRecords(e, e) == e
  {
    assert e.metadata + i.metadata + i.metadata == e.metadata + i.metadata;
    assert e.metadata + e.metadata == e.metadata;
  }

  lemma MergeAssociative(e: Entry, i: Entry, j: Entry)
    ensures MergeRecords(MergeRecords(e, i), j) == MergeRecords(e, MergeRecords(i, j))
  {
    assert e.metadata + i.metadata + j.metadata == e.metadata + (i.metadata + j.metadata);
  }

  // ---------------------------------------------------------------- choosing

  predicate HasValue(v: Value) {
    v != Null && v != Text("") && v != List([]) && v != Object(map[])
  }

  const INTERNAL_KEYS := {"source_version_key", "remote_modified_at", "exclusion_reason"}

  function Completeness(e: Entry): nat {
    One(HasText(e.doi)) + One(HasText(e.application)) + One(HasText(e.publication)) + One(HasText(e.grant_))
    + One(e.year.Some?) + One(HasText(e.sha)) + One(e.byteSize.Some?) + One(HasText(e.category))
    + MetadataCompleteness(e.metadata)
  }

  function MetadataCompleteness(metadata: map<string, Value>): nat {
    |set k | k in metadata && k !in INTERNAL_KEYS && !("_" <= k) && HasValue(metadata[k])|
  }

  // Richest first, then the primary corpus, then the smallest identifier.
  predicate Precedes(entries: map<nat, Entry>, a: nat, b: nat)
    requires a in entries && b in entries
  {
    var (ca, cb) := (Completeness(entries[a]), Completeness(entries[b]));
    var (ra, rb) := (One(entries[a].rootId != "document_data_1"), One(entries[b].rootId != "document_data_1"));
    ca > cb || (ca == cb && (ra < rb || (ra == rb && a < b)))
  }

  ghost predicate IsBest(entries: map<nat, Entry>, ids: set<nat>, c: nat)
    requires ids <= entries.Keys
  {
    c in ids && forall x :: x in ids && x != c ==> Precedes(entries, c, x)
  }

  method ChooseCanonicalSource(entries: map<nat, Entry>, ids: set<nat>) returns (c: nat)
    requires ids <= entries.Keys && ids != {}
    ensures c == Choose(entries, ids)
  {
    c :| c in ids;
    var rest := ids - {c};
    while rest != {}
      invariant rest <= ids && c in ids && c !in rest
      invariant IsBest(entries, ids - rest, c)
    {
      var x :| x in rest;
      ghost var seen := ids - rest;
      rest := rest - {x};
      assert ids - rest == seen + {x};
      if Precedes(entries, x, c) {
        c := x;
      }
    }
    assert ids - rest == ids;
    ChooseUnique(entries, ids, c);
  }

  lemma {:induction false} BestExists(entries: map<nat, Entry>, ids: set<nat>)
    requires ids <= entries.Keys && ids != {}
    ensures exists c :: IsBest(entries, ids, c)
    decreases |ids|
  {
    var x :| x in ids;
    if ids == {x} {
      assert IsBest(entries, ids, x);
    } else {
      BestExists(entries, ids - {x});
      var c :| IsBest(entries, ids - {x}, c);
      if Precedes(entries, c, x) {
        assert IsBest(entries, ids, c);
      } else {
        forall y | y in ids && y != x
          ensures Precedes(entries, x, y)
        {
          assert y == c || Precedes(entries, c, y);
        }
        assert IsBest(entries, ids, x);
      }
    }
  }

  ghost function Choose(entries: map<nat, Entry>, ids: set<nat>): (c: nat)
    requires ids <= entries.Keys && ids != {}
    ensures IsBest(entries, ids, c)
  {
    BestExists(entries, ids);
    var c :| IsBest(entries, ids, c);
    c
  }

  lemma ChooseUnique(entries: map<nat, Entry>, ids: set<nat>, c: nat)
    requires ids <= entries.Keys && IsBest(entries, ids, c)
    ensures ids != {} && c == Choose(entries, ids)
  {
  }

  // The choice depends on the candidates only.
  lemma ChooseCongruent(a: map<nat, Entry>, b: map<nat, Entry>, ids: set<nat>)
    requires ids <= a.Keys && ids <= b.Keys && ids != {} && forall x :: x in ids ==> a[x] == b[x]
    ensures Choose(a, ids) == Choose(b, ids)
  {
    assert IsBest(b, ids, Choose(a, ids));
    ChooseUnique(b, ids, Choose(a, ids));
  }

  // ---------------------------------------------------------------- pointers, recomputed

  function Group(entries: map<nat, Entry>, sha: string): set<nat> {
    set id | id in entries && entries[id].sha == Some(sha)
  }

  ghost function Canonical(entries: map<nat, Entry>, id: nat): (c: nat)
    requires id in entries
    ensures c in entries
  {
    if entries[id].sha.None? then id
    else
      assert id in Group(entries, entries[id].sha.value);
      Choose(entries, Group(entries, entries[id].sha.value))
  }

  ghost function Pointers(entries: map<nat, Entry>): map<nat, nat> {
    map id | id in entries && Canonical(entries, id) != id :: Canonical(entries, id)
  }

  function CanonicalFor(pointers: map<nat, nat>, id: nat): nat {
    if id in pointers then pointers[id] else id
  }

  // Following a pointer always ends at once, at the same record for the whole digest group,
  // which is its only member without a pointer.
  lemma PointersNeverChain(entries: map<nat, Entry>, id: nat)
    requires id in entries
    ensures CanonicalFor(Pointers(entries), id) == Canonical(entries, id)
    ensures Canonical(entries, id) in entries && Canonical(entries, id) !in Pointers(entries)
    ensures entries[Canonical(entries, id)].sha == entries[id].sha
  {
    var c := Canonical(entries, id);
    if entries[id].sha.Some? {
      assert c in Group(entries, entries[id].sha.value);
    }
  }

  lemma OneRootPerDigest(entries: map<nat, Entry>, sha: string)
    requires Group(entries, sha) != {}
    ensures exists c :: c in Group(entries, sha) && c !in Pointers(entries)
                        && forall id :: id in Group(entries, sha) && id != c ==> id in Pointers(entries) && Pointers(entries)[id] == c
  {
    var c := Choose(entries, Group(entries, sha));
    assert c in Group(entries, sha) && c !in Pointers(entries);
    forall id | id in Group(entries, sha) && id != c
      ensures id in Pointers(entries) && Pointers(entries)[id] == c
    {
      assert Canonical(entries, id) == c;
    }
  }

  // ---------------------------------------------------------------- version relations, recomputed

  predicate Member(entries: map<nat, Entry>, doi: string, id: nat) {
    id in entries && entries[id].doi == Some(doi) && entries[id].sha.Some?
  }

  ghost function Versions(entries: map<nat, Entry>, doi: string): (v: set<nat>)
    ensures v <= entries.Keys
  {
    set id | id in entries && Member(entries, doi, id) :: Canonical(entries, id)
  }

  ghost predicate IsRelation(entries: map<nat, Entry>, r: Relation) {
    var versions := Versions(entries, r.doi);
    versions != {} && r.pair.source in versions && r.pair.source != r.pair.target && r.pair.target == Choose(entries, versions)
  }

  // No pair of sources is related by two DOIs.
  ghost predicate OneDoiPerPair(entries: map<nat, Entry>) {
    forall r, s :: IsRelation(entries, r) && IsRelation(entries, s) && r.pair == s.pair ==> r == s
  }

  // ---------------------------------------------------------------- one upsert

  predicate UniquePaths(entries: map<nat, Entry>) {
    forall i, j :: i in entries && j in entries && PathOf(entries[i]) == PathOf(entries[j]) ==> i == j
  }

  ghost function Owner(entries: map<nat, Entry>, path: Path): (o: Option<nat>)
    ensures o.Some? ==> o.value in entries && PathOf(entries[o.value]) == path
    ensures o.None? ==> forall id :: id in entries ==> PathOf(entries[id]) != path
  {
    if exists id :: id in entries && PathOf(entries[id]) == path then
      var id :| id in entries && PathOf(entries[id]) == path;
      Some(id)
    else None
  }

  ghost function Target(entries: map<nat, Entry>, id: nat, e: Entry): nat {
    if Owner(entries, PathOf(e)).Some? then Owner(entries, PathOf(e)).value else id
  }

  // A new path is stored under the given identifier; a known path keeps its own.
  ghost function Put(entries: map<nat, Entry>, id: nat, e: Entry): map<nat, Entry> {
    if Owner(entries, PathOf(e)).Some? then
      var j := Owner(entries, PathOf(e)).value;
      entries[j := MergeRecords(entries[j], e)]
    else entries[id := e]
  }

  // Identifiers belong to one path each.
  ghost predicate MayPut(entries: map<nat, Entry>, id: nat, e: Entry) {
    Owner(entries, PathOf(e)).Some? || id !in entries
  }

  lemma PutKeepsPaths(entries: map<nat, Entry>, id: nat, e: Entry)
    requires UniquePaths(entries) && MayPut(entries, id, e)
    ensures UniquePaths(Put(entries, id, e))
    ensures Put(entries, id, e).Keys == entries.Keys + {Target(entries, id, e)}
  {
  }

  // Putting the same entry again changes nothing.
  lemma PutIdempotent(entries: map<nat, Entry>, id: nat, e: Entry, again: nat)
    requires UniquePaths(entries) && MayPut(entries, id, e)
    ensures Put(Put(entries, id, e), again, e) == Put(entries, id, e)
  {
    var once := Put(entries, id, e);
    var t := Target(entries, id, e);
    PutKeepsPaths(entries, id, e);
    assert PathOf(once[t]) == PathOf(e);
    assert Owner(once, PathOf(e)) == Some(t);
    MergeIdempotent(if t in entries then entries[t] else e, e);
    MergeIdempotent(e, e);
  }

  // ---------------------------------------------------------------- repairing pointers

  function ShaOf(entries: map<nat, Entry>, id: nat): Option<string> {
    if id in entries then entries[id].sha else None
  }

  function DoiOf(entries: map<nat, Entry>, id: nat): Option<string> {
    if id in entries then entries[id].doi else None
  }

  // Entries differ at one identifier at most.
  predicate DifferAt(a: map<nat, Entry>, b: map<nat, Entry>, t: nat) {
    && t in b && b.Keys == a.Keys + {t}
    && forall id :: id in a && id != t ==> a[id] == b[id]
  }

  predicate Touched(a: map<nat, Entry>, b: map<nat, Entry>, t: nat, sha: Option<string>) {
    sha.Some? && (sha == ShaOf(a, t) || sha == ShaOf(b, t))
  }

  lemma UntouchedGroup(a: map<nat, Entry>, b: map<nat, Entry>, t: nat, id: nat)
    requires DifferAt(a, b, t) && id in b && !Touched(a, b, t, b[id].sha) && (b[id].sha.None? ==> id != t)
    ensures id in a && a[id] == b[id] && id != t && Canonical(a, id) == Canonical(b, id)
    ensures b[id].sha.Some? ==> Canonical(b, id) != t && a[Canonical(b, id)] == b[Canonical(b, id)]
  {
    if b[id].sha.Some? {
      var sha := b[id].sha.value;
      assert Group(a, sha) == Group(b, sha);
      assert id in Group(b, sha) && t !in Group(b, sha);
      ChooseCongruent(a, b, Group(b, sha));
    }
  }

  // The update of one digest group: its choice loses its pointer, the others point to it.
  ghost function RepairSha(pointers: map<nat, nat>, entries: map<nat, Entry>, sha: string): map<nat, nat> {
    if Group(entries, sha) == {} then pointers
    else
      var c := Choose(entries, Group(entries, sha));
      map id | id in pointers.Keys + Group(entries, sha) && id != c ::
        if id in Group(entries, sha) then c else pointers[id]
  }

  ghost function RepairOptional(pointers: map<nat, nat>, entries: map<nat, Entry>, sha: Option<string>): map<nat, nat> {
    if sha.Some? then RepairSha(pointers, entries, sha.value) else pointers
  }

  // The pointers are right at every record outside the pending digests.
  ghost predicate RightExcept(pointers: map<nat, nat>, entries: map<nat, Entry>, pending: set<string>) {
    && pointers.Keys <= entries.Keys
    && forall id :: id in entries && (entries[id].sha.None? || entries[id].sha.value !in pending) ==>
         CanonicalFor(pointers, id) == Canonical(entries, id) && (id in pointers ==> pointers[id] != id)
  }

  lemma RepairShaRight(pointers: map<nat, nat>, entries: map<nat, Entry>, sha: string, pending: set<string>)
    requires RightExcept(pointers, entries, pending)
    ensures RightExcept(RepairSha(pointers, entries, sha), entries, pending - {sha})
  {
    var after := RepairSha(pointers, entries, sha);
    forall id | id in entries && (entries[id].sha.None? || entries[id].sha.value !in pending - {sha})
      ensures CanonicalFor(after, id) == Canonical(entries, id) && (id in after ==> after[id] != id)
    {
      if entries[id].sha == Some(sha) {
        assert id in Group(entries, sha);
      } else if Group(entries, sha) != {} {
        assert Choose(entries, Group(entries, sha)) in Group(entries, sha);
      }
    }
  }

  lemma RightEverywhere(pointers: map<nat, nat>, entries: map<nat, Entry>)
    requires RightExcept(pointers, entries, {})
    ensures pointers == Pointers(entries)
  {
    forall id | id in entries
      ensures id in pointers <==> id in Pointers(entries)
      ensures id in pointers ==> pointers[id] == Pointers(entries)[id]
    {
      assert CanonicalFor(pointers, id) == Canonical(entries, id);
    }
  }

  function Pending(a: map<nat, Entry>, b: map<nat, Entry>, t: nat): set<string> {
    (if ShaOf(a, t).Some? then {ShaOf(a, t).value} else {}) + (if ShaOf(b, t).Some? then {ShaOf(b, t).value} else {})
  }

  lemma UpsertLeavesPending(a: map<nat, Entry>, b: map<nat, Entry>, t: nat)
    requires DifferAt(a, b, t)
    ensures RightExcept(Pointers(a) - {t}, b, Pending(a, b, t))
  {
    var pointers := Pointers(a) - {t};
    forall id | id in b && (b[id].sha.None? || b[id].sha.value !in Pending(a, b, t))
      ensures CanonicalFor(pointers, id) == Canonical(b, id) && (id in pointers ==> pointers[id] != id)
    {
      if id != t {
        UntouchedGroup(a, b, t, id);
      }
    }
  }

  // ---------------------------------------------------------------- repairing relations

  // The DOIs an upsert can have changed.
  predicate Affected(a: map<nat, Entry>, b: map<nat, Entry>, t: nat, doi: string) {
    || DoiOf(a, t) == Some(doi) || DoiOf(b, t) == Some(doi)
    || exists id :: id in b && b[id].doi == Some(doi) && Touched(a, b, t, b[id].sha)
  }

  lemma UnaffectedVersions(a: map<nat, Entry>, b: map<nat, Entry>, t: nat, doi: string)
    requires DifferAt(a, b, t) && !Affected(a, b, t, doi)
    ensures Versions(a, doi) == Versions(b, doi)
    ensures forall v :: v in Versions(b, doi) ==> v in a && a[v] == b[v]
  {
    forall id | Member(a, doi, id) || Member(b, doi, id)
      ensures Member(a, doi, id) && Member(b, doi, id) && Canonical(a, id) == Canonical(b, id) && a[Canonical(b, id)] == b[Canonical(b, id)]
    {
      UnaffectedMember(a, b, t, doi, id);
    }
    forall v
      ensures v in Versions(a, doi) <==> v in Versions(b, doi)
    {
      if v in Versions(a, doi) {
        var id :| id in a && Member(a, doi, id) && Canonical(a, id) == v;
        assert Member(b, doi, id);
      }
      if v in Versions(b, doi) {
        var id :| id in b && Member(b, doi, id) && Canonical(b, id) == v;
        assert Member(a, doi, id);
      }
    }
  }

  lemma UnaffectedMember(a: map<nat, Entry>, b: map<nat, Entry>, t: nat, doi: string, id: nat)
    requires DifferAt(a, b, t) && !Affected(a, b, t, doi) && (Member(a, doi, id) || Member(b, doi, id))
    ensures Member(a, doi, id) && Member(b, doi, id) && Canonical(a, id) == Canonical(b, id) && Canonical(b, id) in a
    ensures a[Canonical(b, id)] == b[Canonical(b, id)]
  {
    assert id != t && id in b && !Touched(a, b, t, b[id].sha);
    UntouchedGroup(a, b, t, id);
  }

  lemma UnaffectedRelations(a: map<nat, Entry>, b: map<nat, Entry>, t: nat, r: Relation)
    requires DifferAt(a, b, t) && !Affected(a, b, t, r.doi)
    ensures IsRelation(a, r) <==> IsRelation(b, r)
  {
    UnaffectedVersions(a, b, t, r.doi);
    if Versions(a, r.doi) != {} {
      ChooseCongruent(a, b, Versions(a, r.doi));
    }
  }

  function PairsTo(sources: set<nat>, target: nat): set<Pair> {
    set v | v in sources && v != target :: Pair(v, target)
  }

  ghost function Rows(entries: map<nat, Entry>, doi: string): map<Pair, string> {
    var versions := Versions(entries, doi);
    if versions == {} then map[] else map p | p in PairsTo(versions, Choose(entries, versions)) :: doi
  }

  // Delete the rows of one DOI, then insert its relations over whatever is there.
  ghost function RepairDoi(relations: map<Pair, string>, entries: map<nat, Entry>, doi: string): map<Pair, string> {
    (map p | p in relations && relations[p] != doi :: relations[p]) + Rows(entries, doi)
  }

  lemma RepairedRow(relations: map<Pair, string>, entries: map<nat, Entry>, doi: string, p: Pair)
    ensures p in RepairDoi(relations, entries, doi) <==>
              IsRelation(entries, Relation(p, doi)) || (p in relations && relations[p] != doi)
    ensures p in RepairDoi(relations, entries, doi) ==>
              RepairDoi(relations, entries, doi)[p] == if IsRelation(entries, Relation(p, doi)) then doi else relations[p]
  {
  }

  ghost function RepairDois(relations: map<Pair, string>, entries: map<nat, Entry>, order: seq<string>): map<Pair, string> {
    if order == [] then relations
    else RepairDoi(RepairDois(relations, entries, order[..|order| - 1]), entries, order[|order| - 1])
  }

  // The last repaired DOI that relates a pair.
  ghost function LastRelating(entries: map<nat, Entry>, order: seq<string>, p: Pair): Option<string> {
    if order == [] then None
    else if IsRelation(entries, Relation(p, order[|order| - 1])) then Some(order[|order| - 1])
    else LastRelating(entries, order[..|order| - 1], p)
  }

  lemma {:induction false} LastRelatingFacts(entries: map<nat, Entry>, order: seq<string>, p: Pair)
    ensures LastRelating(entries, order, p).Some? ==>
              LastRelating(entries, order, p).value in order && IsRelation(entries, Relation(p, LastRelating(entries, order, p).value))
    ensures LastRelating(entries, order, p).None? ==> forall doi :: doi in order ==> !IsRelation(entries, Relation(p, doi))
  {
    if order != [] {
      LastRelatingFacts(entries, order[..|order| - 1], p);
      assert order == order[..|order| - 1] + [order[|order| - 1]];
    }
  }

  // What a whole repair leaves at one pair.
  lemma {:induction false} RepairedRows(relations: map<Pair, string>, entries: map<nat, Entry>, order: seq<string>, p: Pair)
    ensures var after, last := RepairDois(relations, entries, order), LastRelating(entries, order, p);
            && (p in after <==> last.Some? || (p in relations && relations[p] !in order))
            && (p in after ==> after[p] == if last.Some? then last.value else relations[p])
  {
    if order != [] {
      var front, doi := order[..|order| - 1], order[|order| - 1];
      RepairedRows(relations, entries, front, p);
      RepairedRow(RepairDois(relations, entries, front), entries, doi, p);
      LastRelatingFacts(entries, front, p);
      assert order == front + [doi];
    }
  }

  ghost predicate RelationsAgree(relations: map<Pair, string>, entries: map<nat, Entry>) {
    forall r :: IsRelation(entries, r) <==> r.pair in relations && relations[r.pair] == r.doi
  }

  // Halfway: repaired DOIs follow `b`, the others still follow `a` unless overwritten.
  ghost predicate RowHalfway(relations: map<Pair, string>, a: map<nat, Entry>, b: map<nat, Entry>, done: set<string>, p: Pair) {
    p in relations ==> IsRelation(if relations[p] in done then b else a, Relation(p, relations[p]))
  }

  ghost predicate RelationHalfway(relations: map<Pair, string>, a: map<nat, Entry>, b: map<nat, Entry>, done: set<string>, r: Relation) {
    && (IsRelation(b, r) && r.doi in done ==> r.pair in relations && relations[r.pair] == r.doi)
    && (IsRelation(a, r) && r.doi !in done ==> r.pair in relations && (relations[r.pair] == r.doi || relations[r.pair] in done))
  }

  ghost predicate Halfway(relations: map<Pair, string>, a: map<nat, Entry>, b: map<nat, Entry>, done: set<string>) {
    && (forall p :: RowHalfway(relations, a, b, done, p))
    && (forall r :: RelationHalfway(relations, a, b, done, r))
  }

  lemma RepairOneRow(relations: map<Pair, string>, a: map<nat, Entry>, b: map<nat, Entry>, done: set<string>, doi: string, p: Pair)
    requires RowHalfway(relations, a, b, done, p)
    ensures RowHalfway(RepairDoi(relations, b, doi), a, b, done + {doi}, p)
  {
    RepairedRow(relations, b, doi, p);
  }

  lemma SamePairSameDoi(entries: map<nat, Entry>, r: Relation, doi: string)
    requires OneDoiPerPair(entries) && IsRelation(entries, r) && IsRelation(entries, Relation(r.pair, doi))
    ensures r.doi == doi
  {
  }

  lemma RepairOneRelation(relations: map<Pair, string>, a: map<nat, Entry>, b: map<nat, Entry>, done: set<string>, doi: string, r: Relation)
    requires RelationHalfway(relations, a, b, done, r) && RowHalfway(relations, a, b, done, r.pair) && OneDoiPerPair(b)
    ensures RelationHalfway(RepairDoi(relations, b, doi), a, b, done + {doi}, r)
  {
    RepairedRow(relations, b, doi, r.pair);
    assert r == Relation(r.pair, r.doi);
    if IsRelation(b, r) && IsRelation(b, Relation(r.pair, doi)) {
      SamePairSameDoi(b, r, doi);
    }
  }

  lemma RepairOneDoi(relations: map<Pair, string>, a: map<nat, Entry>, b: map<nat, Entry>, done: set<string>, doi: string)
    requires Halfway(relations, a, b, done) && OneDoiPerPair(b)
    ensures Halfway(RepairDoi(relations, b, doi), a, b, done + {doi})
  {
    forall p
      ensures RowHalfway(RepairDoi(relations, b, doi), a, b, done + {doi}, p)
    {
      RepairOneRow(relations, a, b, done, doi, p);
    }
    forall r
      ensures RelationHalfway(RepairDoi(relations, b, doi), a, b, done + {doi}, r)
    {
      RepairOneRelation(relations, a, b, done, doi, r);
    }
  }

  lemma {:induction false} RepairAllDois(relations: map<Pair, string>, a: map<nat, Entry>, b: map<nat, Entry>, order: seq<string>)
    requires RelationsAgree(relations, a) && OneDoiPerPair(b)
    ensures Halfway(RepairDois(relations, b, order), a, b, Elements(order))
  {
    if order == [] {
      forall p
        ensures RowHalfway(relations, a, b, {}, p)
      {
        assert p in relations ==> Relation(p, relations[p]).pair == p;
      }
      forall r
        ensures RelationHalfway(relations, a, b, {}, r)
      {
      }
    } else {
      var front, doi := order[..|order| - 1], order[|order| - 1];
      RepairAllDois(relations, a, b, front);
      RepairOneDoi(RepairDois(relations, b, front), a, b, Elements(front), doi);
      assert order == front + [doi];
      assert Elements(order) == Elements(front) + {doi};
    }
  }

  // Repairing the affected DOIs, in any order, gives the recomputed relations.
  lemma RepairedRelationsAgree(relations: map<Pair, string>, a: map<nat, Entry>, b: map<nat, Entry>, t: nat, order: seq<string>)
    requires DifferAt(a, b, t) && RelationsAgree(relations, a) && OneDoiPerPair(b)
    requires forall doi :: Affected(a, b, t, doi) <==> doi in Elements(order)
    ensures RelationsAgree(RepairDois(relations, b, order), b)
  {
    RepairAllDois(relations, a, b, order);
    forall r
      ensures IsRelation(b, r) <==> r.pair in RepairDois(relations, b, order) && RepairDois(relations, b, order)[r.pair] == r.doi
    {
      if r.doi !in Elements(order) {
        UnaffectedRelations(a, b, t, r);
      }
      HalfwayAgrees(RepairDois(relations, b, order), a, b, Elements(order), r);
    }
  }

  lemma HalfwayAgrees(relations: map<Pair, string>, a: map<nat, Entry>, b: map<nat, Entry>, done: set<string>, r: Relation)
    requires Halfway(relations, a, b, done) && OneDoiPerPair(b)
    requires r.doi !in done ==> (IsRelation(a, r) <==> IsRelation(b, r))
    ensures IsRelation(b, r) <==> r.pair in relations && relations[r.pair] == r.doi
  {
    assert RowHalfway(relations, a, b, done, r.pair) && RelationHalfway(relations, a, b, done, r);
    assert r == Relation(r.pair, r.doi);
    if IsRelation(b, r) && relations[r.pair] in done {
      SamePairSameDoi(b, r, relations[r.pair]);
    }
  }

  // ---------------------------------------------------------------- the in-memory catalog

  function Digests(entries: map<nat, Entry>): set<string> {
    set id | id in entries && entries[id].sha.Some? :: entries[id].sha.value
  }

  function Dois(entries: map<nat, Entry>): set<string> {
    set id | id in entries && entries[id].doi.Some? :: entries[id].doi.value
  }

  function Members(entries: map<nat, Entry>, doi: string): set<nat> {
    set id | id in entries && Member(entries, doi, id)
  }

  function Followed(pointers: map<nat, nat>, ids: set<nat>): set<nat> {
    set id | id in ids :: CanonicalFor(pointers, id)
  }

  lemma FollowedAreVersions(pointers: map<nat, nat>, entries: map<nat, Entry>, doi: string)
    requires pointers == Pointers(entries)
    ensures Followed(pointers, Members(entries, doi)) == Versions(entries, doi)
  {
    forall id | id in Members(entries, doi)
      ensures CanonicalFor(pointers, id) == Canonical(entries, id)
    {
      PointersNeverChain(entries, id);
    }
    forall v
      ensures v in Versions(entries, doi) <==> v in Followed(pointers, Members(entries, doi))
    {
      if v in Versions(entries, doi) {
        var id :| id in entries && Member(entries, doi, id) && Canonical(entries, id) == v;
        assert id in Members(entries, doi);
      }
    }
  }

  // No record of a pending digest has a pointer yet.
  ghost predicate Rebuilding(pointers: map<nat, nat>, entries: map<nat, Entry>, pending: set<string>) {
    && RightExcept(pointers, entries, pending)
    && forall id :: id in pointers ==> entries[id].sha.Some? && entries[id].sha.value !in pending
  }

  lemma RebuildGroup(pointers: map<nat, nat>, entries: map<nat, Entry>, pending: set<string>, sha: string, c: nat)
    requires Rebuilding(pointers, entries, pending) && sha in pending && Group(entries, sha) != {} && c == Choose(entries, Group(entries, sha))
    ensures Rebuilding(pointers + (map id | id in Group(entries, sha) && id != c :: c), entries, pending - {sha})
  {
    var after := pointers + (map id | id in Group(entries, sha) && id != c :: c);
    forall id | id in entries && (entries[id].sha.None? || entries[id].sha.value !in pending - {sha})
      ensures CanonicalFor(after, id) == Canonical(entries, id) && (id in after ==> after[id] != id)
    {
      if entries[id].sha == Some(sha) {
        assert id in Group(entries, sha);
      }
    }
  }

  lemma LonelyGroup(entries: map<nat, Entry>, sha: string)
    requires |Group(entries, sha)| == 1
    ensures forall id :: id in Group(entries, sha) ==> Group(entries, sha) == {id} && Choose(entries, Group(entries, sha)) == id
  {
    var x :| x in Group(entries, sha);
    SubsetCardinality({x}, Group(entries, sha));
  }

  // What the in-memory catalog stores; pointers and relations are recomputed from it.
  datatype Memory = Memory(entries: map<nat, Entry>, paths: map<Path, nat>)

  function StoredAs(m: Memory, id: nat, e: Entry): nat {
    if PathOf(e) in m.paths then m.paths[PathOf(e)] else id
  }

  function AfterMemory(m: Memory, id: nat, e: Entry): Memory {
    var stored := StoredAs(m, id, e);
    var known := PathOf(e) in m.paths && stored in m.entries;
    Memory(m.entries[stored := if known then MergeRecords(m.entries[stored], e) else e], m.paths[PathOf(e) := stored])
  }

  class InMemorySourceCatalog {
    var entries: map<nat, Entry>
    var paths: map<Path, nat>
    var pointers: map<nat, nat>
    var relations: set<Relation>

    predicate Valid()
      reads this
    {
      forall p :: p in paths ==> paths[p] in entries
    }

    constructor ()
      ensures Valid() && entries == map[] && paths == map[] && pointers == map[] && relations == {}
    {
      entries, paths, pointers, relations := map[], map[], map[], {};
    }

    method Upsert(id: nat, incoming: Entry) returns (stored: nat)
      requires Valid()
      modifies this
      ensures Valid()
      ensures stored == StoredAs(old(Memory(entries, paths)), id, incoming)
      ensures Memory(entries, paths) == AfterMemory(old(Memory(entries, paths)), id, incoming)
      ensures pointers == Pointers(entries)
      ensures forall r :: r in relations <==> IsRelation(entries, r)
    {
      if PathOf(incoming) in paths {
        stored := paths[PathOf(incoming)];
        entries := entries[stored := MergeRecords(entries[stored], incoming)];
      } else {
        stored := id;
        entries := entries[id := incoming];
        paths := paths[PathOf(incoming) := id];
      }
      assert paths == old(paths)[PathOf(incoming) := stored];
      ReconcilePointers();
      ReconcileRelations();
    }

    method ReconcilePointers()
      modifies this`pointers
      ensures pointers == Pointers(entries)
    {
      pointers := map[];
      var rest := Digests(entries);
      while rest != {}
        invariant rest <= Digests(entries)
        invariant Rebuilding(pointers, entries, rest)
      {
        var sha :| sha in rest;
        ReconcileGroup(sha, rest);
        rest := rest - {sha};
      }
      RightEverywhere(pointers, entries);
    }

    method ReconcileGroup(sha: string, ghost pending: set<string>)
      requires Rebuilding(pointers, entries, pending) && sha in pending && sha in Digests(entries)
      modifies this`pointers
      ensures Rebuilding(pointers, entries, pending - {sha})
    {
      var group := Group(entries, sha);
      ghost var member :| member in entries && entries[member].sha == Some(sha);
      assert member in group;
      var c := ChooseCanonicalSource(entries, group);
      RebuildGroup(pointers, entries, pending, sha, c);
      if |group| < 2 {
        SubsetCardinality({member}, group);
        LonelyGroup(entries, sha);
        assert pointers + (map id | id in group && id != c :: c) == pointers;
      } else {
        pointers := pointers + map id | id in group && id != c :: c;
      }
    }

    method ReconcileRelations()
      requires pointers == Pointers(entries)
      modifies this`relations
      ensures forall r :: r in relations <==> IsRelation(entries, r)
    {
      relations := {};
      var rest := Dois(entries);
      while rest != {}
        invariant rest <= Dois(entries)
        invariant forall r :: r in relations <==> IsRelation(entries, r) && r.doi !in rest
      {
        var doi :| doi in rest;
        var versions := Followed(pointers, Members(entries, doi));
        FollowedAreVersions(pointers, entries, doi);
        ghost var before := relations;
        if |versions| >= 2 {
          var c := ChooseCanonicalSource(entries, versions);
          relations := relations + Relations(versions, c, doi);
        } else {
          LonelyVersions(entries, doi);
        }
        forall r
          ensures r in relations <==> IsRelation(entries, r) && r.doi !in rest - {doi}
        {
          assert r == Relation(r.pair, r.doi) && r.pair == Pair(r.pair.source, r.pair.target);
        }
        rest := rest - {doi};
      }
    }
  }

  function Relations(sources: set<nat>, target: nat, doi: string): set<Relation> {
    set v | v in sources && v != target :: Relation(Pair(v, target), doi)
  }

  lemma LonelyVersions(entries: map<nat, Entry>, doi: string)
    requires |Versions(entries, doi)| < 2
    ensures forall r: Relation :: r.doi == doi ==> !IsRelation(entries, r)
  {
    forall r: Relation | r.doi == doi && IsRelation(entries, r)
      ensures false
    {
      SubsetCardinality({r.pair.source, r.pair.target}, Versions(entries, doi));
    }
  }

  // The path index of a catalog in which every identifier belongs to one path.
  ghost predicate Indexed(entries: map<nat, Entry>, paths: map<Path, nat>) {
    && (forall p :: p in paths ==> paths[p] in entries && PathOf(entries[paths[p]]) == p)
    && (forall id :: id in entries ==> PathOf(entries[id]) in paths && paths[PathOf(entries[id])] == id)
  }

  lemma IndexedUpsert(m: Memory, id: nat, e: Entry)
    requires Indexed(m.entries, m.paths) && MayPut(m.entries, id, e)
    ensures UniquePaths(m.entries) && StoredAs(m, id, e) == Target(m.entries, id, e)
    ensures AfterMemory(m, id, e).entries == Put(m.entries, id, e)
    ensures Indexed(AfterMemory(m, id, e).entries, AfterMemory(m, id, e).paths)
  {
  }

  // ---------------------------------------------------------------- the PostgreSQL catalog

  datatype Table = Table(sources: map<nat, Entry>, pointers: map<nat, nat>, relations: map<Pair, string>)

  ghost predicate IsAffected(a: map<nat, Entry>, b: map<nat, Entry>, t: nat, dois: set<string>) {
    forall doi :: Affected(a, b, t, doi) <==> doi in dois
  }

  // What one transaction does, with the DOIs repaired in the given order.
  ghost predicate PostgresStep(a: Table, id: nat, e: Entry, b: Table, order: seq<string>) {
    && MayPut(a.sources, id, e)
    && b.sources == Put(a.sources, id, e)
    && var t := Target(a.sources, id, e);
    && b.pointers == RepairOptional(RepairOptional(a.pointers - {t}, b.sources, ShaOf(a.sources, t)), b.sources, ShaOf(b.sources, t))
    && IsAffected(a.sources, b.sources, t, Elements(order))
    && b.relations == RepairDois(a.relations, b.sources, order)
  }

  function DoisOfGroup(entries: map<nat, Entry>, sha: Option<string>): set<string> {
    if sha.None? then {}
    else set id | id in Group(entries, sha.value) && entries[id].doi.Some? :: entries[id].doi.value
  }

  function Both(a: Option<string>, b: Option<string>): set<string> {
    (if a.Some? then {a.value} else {}) + (if b.Some? then {b.value} else {})
  }

  lemma AffectedAre(a: map<nat, Entry>, b: map<nat, Entry>, t: nat, first: set<string>, second: set<string>)
    requires DifferAt(a, b, t) && first == DoisOfGroup(b, ShaOf(a, t)) && second == DoisOfGroup(b, ShaOf(b, t))
    ensures IsAffected(a, b, t, Both(DoiOf(a, t), DoiOf(b, t)) + first + second)
  {
    forall doi
      ensures Affected(a, b, t, doi) <==> doi in Both(DoiOf(a, t), DoiOf(b, t)) + first + second
    {
      GroupDoi(b, ShaOf(a, t), doi);
      GroupDoi(b, ShaOf(b, t), doi);
    }
  }

  lemma GroupDoi(entries: map<nat, Entry>, sha: Option<string>, doi: string)
    ensures doi in DoisOfGroup(entries, sha) <==> sha.Some? && exists id :: id in entries && entries[id].doi == Some(doi) && entries[id].sha == sha
  {
    if sha.Some? && exists id :: id in entries && entries[id].doi == Some(doi) && entries[id].sha == sha {
      var id :| id in entries && entries[id].doi == Some(doi) && entries[id].sha == sha;
      assert id in Group(entries, sha.value);
    }
  }

  // Strings in the order of their code points.
  predicate AtMost(a: string, b: string) {
    a == "" || (b != "" && (a[0] < b[0] || (a[0] == b[0] && AtMost(a[1..], b[1..]))))
  }

  lemma {:induction false} AtMostTotal(a: string, b: string)
    ensures AtMost(a, b) || AtMost(b, a)
    ensures AtMost(a, b) && AtMost(b, a) ==> a == b
  {
    if a != "" && b != "" && a[0] == b[0] {
      AtMostTotal(a[1..], b[1..]);
      assert a == [a[0]] + a[1..] && b == [b[0]] + b[1..];
    }
  }

  lemma {:induction false} AtMostTransitive(a: string, b: string, c: string)
    requires AtMost(a, b) && AtMost(b, c)
    ensures AtMost(a, c)
  {
    if a != "" && b != "" && c != "" && a[0] == b[0] == c[0] {
      AtMostTransitive(a[1..], b[1..], c[1..]);
    }
  }

  predicate IsLeast(s: set<string>, m: string) {
    m in s && forall x :: x in s ==> AtMost(m, x)
  }

  lemma {:induction false} LeastExists(s: set<string>)
    requires s != {}
    ensures exists m :: IsLeast(s, m)
    decreases |s|
  {
    var x :| x in s;
    AtMostTotal(x, x);
    if s == {x} {
      assert IsLeast(s, x);
    } else {
      LeastExists(s - {x});
      var m :| IsLeast(s - {x}, m);
      var least := if AtMost(m, x) then m else x;
      forall y | y in s
        ensures AtMost(least, y)
      {
        AtMostTotal(m, x);
        if y != x && least == x {
          AtMostTransitive(x, m, y);
        }
      }
      assert IsLeast(s, least);
    }
  }

  ghost function Sorted(s: set<string>): seq<string> {
    if s == {} then []
    else
      LeastExists(s);
      var m :| IsLeast(s, m);
      [m] + Sorted(s - {m})
  }

  lemma {:induction false} SortedElements(s: set<string>)
    ensures Elements(Sorted(s)) == s
    decreases |s|
  {
    if s != {} {
      LeastExists(s);
      var m :| IsLeast(s, m);
      SortedStarts(s, m);
      SortedElements(s - {m});
      ConsElements(m, Sorted(s - {m}));
      assert s == {m} + (s - {m});
    }
  }

  lemma ConsElements(m: string, rest: seq<string>)
    ensures Elements([m] + rest) == {m} + Elements(rest)
  {
    assert forall x :: x in [m] + rest <==> x == m || x in rest;
  }

  lemma SortedStarts(s: set<string>, m: string)
    requires IsLeast(s, m)
    ensures Sorted(s) == [m] + Sorted(s - {m})
  {
    LeastExists(s);
    forall other | IsLeast(s, other)
      ensures other == m
    {
      AtMostTotal(other, m);
    }
  }

  lemma SortedEnds(order: seq<string>)
    ensures order + Sorted({}) == order && [] + order == order
  {
  }

  lemma SortedStep(order: seq<string>, rest: set<string>, m: string)
    requires IsLeast(rest, m)
    ensures (order + [m]) + Sorted(rest - {m}) == order + Sorted(rest)
    ensures (order + [m])[..|order|] == order
  {
    SortedStarts(rest, m);
  }

  // The DOIs one transaction collects.
  function CollectedDois(a: map<nat, Entry>, b: map<nat, Entry>, t: nat): set<string> {
    Both(DoiOf(a, t), DoiOf(b, t)) + DoisOfGroup(b, ShaOf(a, t)) + DoisOfGroup(b, ShaOf(b, t))
  }

  ghost function OrderOf(a: Table, id: nat, e: Entry): seq<string> {
    Sorted(CollectedDois(a.sources, Put(a.sources, id, e), Target(a.sources, id, e)))
  }

  // The table after one upsert, which repairs the collected DOIs in ascending order.
  ghost function AfterUpsert(a: Table, id: nat, e: Entry): Table {
    var sources, t := Put(a.sources, id, e), Target(a.sources, id, e);
    Table(sources,
          RepairOptional(RepairOptional(a.pointers - {t}, sources, ShaOf(a.sources, t)), sources, ShaOf(sources, t)),
          RepairDois(a.relations, sources, OrderOf(a, id, e)))
  }

  lemma AfterUpsertIsStep(a: Table, id: nat, e: Entry)
    requires UniquePaths(a.sources) && MayPut(a.sources, id, e)
    ensures PostgresStep(a, id, e, AfterUpsert(a, id, e), OrderOf(a, id, e))
  {
    var b, t := Put(a.sources, id, e), Target(a.sources, id, e);
    PutKeepsPaths(a.sources, id, e);
    AffectedAre(a.sources, b, t, DoisOfGroup(b, ShaOf(a.sources, t)), DoisOfGroup(b, ShaOf(b, t)));
    SortedElements(CollectedDois(a.sources, b, t));
  }

  class PostgresSourceCatalogRepository {
    var sources: map<nat, Entry>
    var pointers: map<nat, nat>
    var relations: map<Pair, string>

    function Contents(): Table
      reads this
    {
      Table(sources, pointers, relations)
    }

    ghost predicate Valid()
      reads this
    {
      UniquePaths(sources) && pointers == Pointers(sources)
    }

    constructor ()
      ensures Valid() && Contents() == Table(map[], map[], map[])
    {
      sources, pointers, relations := map[], map[], map[];
    }

    // The identifier is the primary key: a new path under a taken identifier is refused.
    method Upsert(id: nat, incoming: Entry) returns (stored: Option<nat>)
      requires Valid()
      modifies this
      ensures Valid()
      ensures stored.Some? <==> MayPut(old(sources), id, incoming)
      ensures stored.Some? ==> stored.value == Target(old(sources), id, incoming)
      ensures Contents() == if stored.Some? then AfterUpsert(old(Contents()), id, incoming) else old(Contents())
    {
      var known := SelectByPath(PathOf(incoming));
      if known.None? && id in sources {
        return None;
      }
      var t := if known.Some? then known.value else id;
      PutKeepsPaths(sources, id, incoming);
      RepairedPointers(sources, Put(sources, id, incoming), t);
      var previousSha, previousDoi := ShaOf(sources, t), DoiOf(sources, t);
      sources := sources[t := if known.Some? then MergeRecords(sources[t], incoming) else incoming];
      pointers := pointers - {t};
      var first := ReconcileSha(previousSha);
      var second := ReconcileSha(sources[t].sha);
      var dois := Both(previousDoi, sources[t].doi) + first + second;
      ReconcileDois(dois);
      stored := Some(t);
    }

    method SelectByPath(path: Path) returns (found: Option<nat>)
      requires UniquePaths(sources)
      ensures found == Owner(sources, path)
    {
      if id :| id in sources && PathOf(sources[id]) == path {
        return Some(id);
      }
      found := None;
    }

    method ReconcileSha(sha: Option<string>) returns (dois: set<string>)
      modifies this`pointers
      ensures pointers == RepairOptional(old(pointers), sources, sha)
      ensures dois == DoisOfGroup(sources, sha)
    {
      if sha.None? {
        return {};
      }
      var group := Group(sources, sha.value);
      dois := DoisOfGroup(sources, sha);
      if group != {} {
        var c := ChooseCanonicalSource(sources, group);
        pointers := map id | id in pointers.Keys + group && id != c :: if id in group then c else pointers[id];
      }
    }

    method ReconcileDois(dois: set<string>)
      requires pointers == Pointers(sources)
      modifies this`relations
      ensures relations == RepairDois(old(relations), sources, Sorted(dois))
    {
      var rest := dois;
      ghost var order: seq<string> := [];
      SortedEnds(Sorted(dois));
      while rest != {}
        invariant rest <= dois && order + Sorted(rest) == Sorted(dois)
        invariant relations == RepairDois(old(relations), sources, order)
      {
        var doi := LeastOf(rest);
        SortedStep(order, rest, doi);
        ReconcileDoi(doi);
        order := order + [doi];
        rest := rest - {doi};
      }
      SortedEnds(order);
    }

    method ReconcileDoi(doi: string)
      requires pointers == Pointers(sources)
      modifies this`relations
      ensures relations == RepairDoi(old(relations), sources, doi)
    {
      var versions := Followed(pointers, Members(sources, doi));
      FollowedAreVersions(pointers, sources, doi);
      relations := map p | p in relations && relations[p] != doi :: relations[p];
      if |versions| < 2 {
        LonelyVersions(sources, doi);
        NoRows(sources, doi);
        return;
      }
      var c := ChooseCanonicalSource(sources, versions);
      relations := relations + map p | p in PairsTo(versions, c) :: doi;
    }
  }

  method LeastOf(s: set<string>) returns (m: string)
    requires s != {}
    ensures IsLeast(s, m)
  {
    m :| m in s;
    AtMostTotal(m, m);
    var rest := s - {m};
    while rest != {}
      invariant rest <= s && m in s
      invariant forall x :: x in s && x !in rest ==> AtMost(m, x)
    {
      var x :| x in rest;
      rest := rest - {x};
      AtMostTotal(x, m);
      AtMostTotal(x, x);
      if AtMost(x, m) {
        forall y | y in s && y !in rest
          ensures AtMost(x, y)
        {
          if y != x {
            AtMostTransitive(x, m, y);
          }
        }
        m := x;
      }
    }
  }

  lemma NoRows(entries: map<nat, Entry>, doi: string)
    requires forall r: Relation :: r.doi == doi ==> !IsRelation(entries, r)
    ensures Rows(entries, doi) == map[]
  {
    forall p
      ensures p !in Rows(entries, doi)
    {
      assert Relation(p, doi).doi == doi && !IsRelation(entries, Relation(p, doi));
    }
  }

  lemma RepairedPointers(a: map<nat, Entry>, b: map<nat, Entry>, t: nat)
    requires DifferAt(a, b, t)
    ensures RepairOptional(RepairOptional(Pointers(a) - {t}, b, ShaOf(a, t)), b, ShaOf(b, t)) == Pointers(b)
  {
    UpsertLeavesPending(a, b, t);
    var pending := Pending(a, b, t);
    var first := RepairOptional(Pointers(a) - {t}, b, ShaOf(a, t));
    if ShaOf(a, t).Some? {
      RepairShaRight(Pointers(a) - {t}, b, ShaOf(a, t).value, pending);
      pending := pending - {ShaOf(a, t).value};
    }
    if ShaOf(b, t).Some? {
      RepairShaRight(first, b, ShaOf(b, t).value, pending);
      pending := pending - {ShaOf(b, t).value};
    }
    assert pending == {};
    RightEverywhere(RepairOptional(first, b, ShaOf(b, t)), b);
  }

  // ---------------------------------------------------------------- runs of upserts

  datatype Upserted = Upserted(id: nat, entry: Entry, order: seq<string>)

  ghost predicate PostgresRun(tables: seq<Table>, upserts: seq<Upserted>) {
    && |tables| == |upserts| + 1
    && tables[0] == Table(map[], map[], map[])
    && forall i :: 0 <= i < |upserts| ==> PostgresStep(tables[i], upserts[i].id, upserts[i].entry, tables[i + 1], upserts[i].order)
  }

  lemma StepPointers(a: Table, id: nat, e: Entry, b: Table, order: seq<string>)
    requires UniquePaths(a.sources) && a.pointers == Pointers(a.sources) && PostgresStep(a, id, e, b, order)
    ensures UniquePaths(b.sources) && b.pointers == Pointers(b.sources)
    ensures DifferAt(a.sources, b.sources, Target(a.sources, id, e))
  {
    PutKeepsPaths(a.sources, id, e);
    RepairedPointers(a.sources, b.sources, Target(a.sources, id, e));
  }

  // The incremental repair gives, in every state of every run, the pointers of the full recomputation.
  lemma {:induction false} IncrementalEqualsFull(tables: seq<Table>, upserts: seq<Upserted>, i: nat)
    requires PostgresRun(tables, upserts) && i < |tables|
    ensures UniquePaths(tables[i].sources) && tables[i].pointers == Pointers(tables[i].sources)
  {
    if i > 0 {
      IncrementalEqualsFull(tables, upserts, i - 1);
      var u := upserts[i - 1];
      StepPointers(tables[i - 1], u.id, u.entry, tables[i], u.order);
    }
  }

  // The same upserts give both catalogs the same records and the same canonical pointers.
  lemma {:induction false} CatalogsAgree(tables: seq<Table>, upserts: seq<Upserted>, memories: seq<Memory>, i: nat)
    requires PostgresRun(tables, upserts) && |memories| == |tables| && i < |tables| && memories[0] == Memory(map[], map[])
    requires forall j :: 0 <= j < |upserts| ==> memories[j + 1] == AfterMemory(memories[j], upserts[j].id, upserts[j].entry)
    ensures memories[i].entries == tables[i].sources && Indexed(memories[i].entries, memories[i].paths)
    ensures Pointers(memories[i].entries) == tables[i].pointers
  {
    if i > 0 {
      CatalogsAgree(tables, upserts, memories, i - 1);
      assert PostgresStep(tables[i - 1], upserts[i - 1].id, upserts[i - 1].entry, tables[i], upserts[i - 1].order);
      IndexedUpsert(memories[i - 1], upserts[i - 1].id, upserts[i - 1].entry);
    }
    IncrementalEqualsFull(tables, upserts, i);
  }

  // ---------------------------------------------------------------- replayed upserts

  ghost predicate ValidTable(a: Table) {
    UniquePaths(a.sources) && a.pointers == Pointers(a.sources)
  }

  // Records and pointers; the relations may differ.
  ghost predicate Similar(a: Table, b: Table) {
    a.sources == b.sources && a.pointers == b.pointers
  }

  lemma AfterUpsertFacts(a: Table, id: nat, e: Entry)
    requires ValidTable(a) && MayPut(a.sources, id, e)
    ensures ValidTable(AfterUpsert(a, id, e)) && DifferAt(a.sources, AfterUpsert(a, id, e).sources, Target(a.sources, id, e))
    ensures PostgresStep(a, id, e, AfterUpsert(a, id, e), OrderOf(a, id, e))
  {
    AfterUpsertIsStep(a, id, e);
    StepPointers(a, id, e, AfterUpsert(a, id, e), OrderOf(a, id, e));
  }

  // A repeated upsert keeps the records and the pointers.
  lemma ReplayedStep(a: Table, id: nat, e: Entry, b: Table, first: seq<string>, again: nat, c: Table, second: seq<string>)
    requires ValidTable(a) && PostgresStep(a, id, e, b, first) && PostgresStep(b, again, e, c, second)
    ensures Similar(b, c) && ValidTable(c)
    ensures Target(b.sources, again, e) == Target(a.sources, id, e)
    ensures forall doi :: doi in second ==> doi in first
  {
    StepPointers(a, id, e, b, first);
    StepPointers(b, again, e, c, second);
    PutIdempotent(a.sources, id, e, again);
    var t := Target(a.sources, id, e);
    assert PathOf(b.sources[t]) == PathOf(e) && Owner(b.sources, PathOf(e)) == Some(t);
    forall doi | doi in second
      ensures doi in first
    {
      assert doi in Elements(second) && Affected(b.sources, c.sources, t, doi);
      assert Affected(a.sources, b.sources, t, doi);
      assert doi in Elements(first);
    }
  }

  // It keeps the relations exactly when each pair related by a DOI it repairs is already
  // stored under the last such DOI.
  ghost predicate Settled(b: Table, order: seq<string>) {
    forall p :: LastRelating(b.sources, order, p).Some? ==>
      p in b.relations && b.relations[p] == LastRelating(b.sources, order, p).value
  }

  ghost predicate ReplayedRow(b: Table, c: Table, order: seq<string>, p: Pair) {
    var last := LastRelating(b.sources, order, p);
    && (p in c.relations <==> last.Some? || p in b.relations)
    && (p in c.relations ==> c.relations[p] == if last.Some? then last.value else b.relations[p])
  }

  // A stored row under a repaired DOI is a relation, because the first call repaired it too.
  lemma ReplayedAt(relations: map<Pair, string>, b: Table, first: seq<string>, c: Table, second: seq<string>, p: Pair)
    requires b.relations == RepairDois(relations, b.sources, first) && c.relations == RepairDois(b.relations, b.sources, second)
    requires forall doi :: doi in second ==> doi in first
    ensures ReplayedRow(b, c, second, p)
  {
    RepairedRows(b.relations, b.sources, second, p);
    RepairedRows(relations, b.sources, first, p);
    LastRelatingFacts(b.sources, first, p);
    LastRelatingFacts(b.sources, second, p);
  }

  lemma RowsKeptIff(b: Table, c: Table, order: seq<string>)
    requires forall p :: ReplayedRow(b, c, order, p)
    ensures c.relations == b.relations <==> Settled(b, order)
  {
    if Settled(b, order) {
      forall p
        ensures p in c.relations <==> p in b.relations
        ensures p in c.relations ==> c.relations[p] == b.relations[p]
      {
        assert ReplayedRow(b, c, order, p);
      }
    }
    if c.relations == b.relations {
      forall p | LastRelating(b.sources, order, p).Some?
        ensures p in b.relations && b.relations[p] == LastRelating(b.sources, order, p).value
      {
        assert ReplayedRow(b, c, order, p);
      }
    }
  }

  lemma ReplayKeepsRelationsIff(a: Table, id: nat, e: Entry, b: Table, first: seq<string>, again: nat, c: Table, second: seq<string>)
    requires ValidTable(a) && PostgresStep(a, id, e, b, first) && PostgresStep(b, again, e, c, second)
    ensures c.relations == b.relations <==> Settled(b, second)
  {
    ReplayedStep(a, id, e, b, first, again, c, second);
    forall p
      ensures ReplayedRow(b, c, second, p)
    {
      ReplayedAt(a.relations, b, first, c, second, p);
    }
    RowsKeptIff(b, c, second);
  }

  // Two tables of relations that agree with the same catalog are one table.
  lemma AgreeOnce(relations: map<Pair, string>, other: map<Pair, string>, entries: map<nat, Entry>)
    requires RelationsAgree(relations, entries) && RelationsAgree(other, entries)
    ensures relations == other
  {
    forall p
      ensures p in relations <==> p in other
      ensures p in relations ==> relations[p] == other[p]
    {
      assert p in relations ==> IsRelation(entries, Relation(p, relations[p]));
      assert p in other ==> IsRelation(entries, Relation(p, other[p]));
    }
  }

  lemma UpsertKeepsAgreement(a: Table, id: nat, e: Entry)
    requires ValidTable(a) && MayPut(a.sources, id, e) && RelationsAgree(a.relations, a.sources)
    requires OneDoiPerPair(AfterUpsert(a, id, e).sources)
    ensures RelationsAgree(AfterUpsert(a, id, e).relations, AfterUpsert(a, id, e).sources)
  {
    AfterUpsertFacts(a, id, e);
    RepairedRelationsAgree(a.relations, a.sources, AfterUpsert(a, id, e).sources, Target(a.sources, id, e), OrderOf(a, id, e));
  }

  // ---------------------------------------------------------------- agreement of relations

  // A table keeps one DOI per pair, so it can only agree with relations that do.
  lemma AgreeingIsFunctional(relations: map<Pair, string>, entries: map<nat, Entry>)
    requires RelationsAgree(relations, entries)
    ensures OneDoiPerPair(entries)
  {
  }

  lemma {:induction false} RelationsStayRight(tables: seq<Table>, upserts: seq<Upserted>, i: nat)
    requires PostgresRun(tables, upserts) && i < |tables|
    requires forall j :: 0 <= j < |tables| ==> OneDoiPerPair(tables[j].sources)
    ensures RelationsAgree(tables[i].relations, tables[i].sources)
  {
    if i > 0 {
      RelationsStayRight(tables, upserts, i - 1);
      IncrementalEqualsFull(tables, upserts, i - 1);
      var u := upserts[i - 1];
      StepPointers(tables[i - 1], u.id, u.entry, tables[i], u.order);
      RepairedRelationsAgree(tables[i - 1].relations, tables[i - 1].sources, tables[i].sources,
                             Target(tables[i - 1].sources, u.id, u.entry), u.order);
    } else {
      forall r: Relation
        ensures !IsRelation(map[], r)
      {
      }
    }
  }

  // The version relations agree with the recomputed ones in all states of a run exactly when
  // no state relates one pair of sources by two DOIs.
  lemma RelationsAgreeIffOneDoiPerPair(tables: seq<Table>, upserts: seq<Upserted>)
    requires PostgresRun(tables, upserts)
    ensures (forall i :: 0 <= i < |tables| ==> RelationsAgree(tables[i].relations, tables[i].sources)) <==>
            (forall i :: 0 <= i < |tables| ==> OneDoiPerPair(tables[i].sources))
  {
    if forall i :: 0 <= i < |tables| ==> RelationsAgree(tables[i].relations, tables[i].sources) {
      forall i | 0 <= i < |tables|
        ensures OneDoiPerPair(tables[i].sources)
      {
        AgreeingIsFunctional(tables[i].relations, tables[i].sources);
      }
    }
    if forall i :: 0 <= i < |tables| ==> OneDoiPerPair(tables[i].sources) {
      forall i | 0 <= i < |tables|
        ensures RelationsAgree(tables[i].relations, tables[i].sources)
      {
        RelationsStayRight(tables, upserts, i);
      }
    }
  }

  // ---------------------------------------------------------------- where they disagree

  // A digest of sixty-four equal digits.
  function Hex(digit: char): string {
    seq(64, _ => digit)
  }

  lemma HexDiffers(a: char, b: char)
    requires a != b
    ensures Hex(a) != Hex(b)
  {
    assert Hex(a)[0] != Hex(b)[0];
  }

  const X := "10.1000/x"
  const Z := "10.1000/z"

  lemma DoisDiffer()
    ensures X != Z
  {
    assert X[8] != Z[8];
  }

  function Plain(path: string, digit: char, doi: string): Entry {
    Entry("library", path, "unknown", path, "metadata_discovered", None, Some(doi), None, None, None, "unknown", Some(Hex(digit)),
          None, None, "domain_literature", map[])
  }

  // Two digests, each held once under each of two DOIs.
  function Crossed(): map<nat, Entry> {
    map[1 := Plain("a1", 'a', X), 2 := Plain("a2", 'a', Z), 3 := Plain("c1", 'c', X), 4 := Plain("c2", 'c', Z)]
  }

  // A third digest, and one more copy of the first.
  function Copied(): map<nat, Entry> {
    Crossed()[5 := Plain("b1", 'b', X)][6 := Plain("a3", 'a', X)]
  }

  // A new path is stored as it comes.
  lemma ExtendRun(tables: seq<Table>, upserts: seq<Upserted>, id: nat, e: Entry) returns (longer: seq<Table>, more: seq<Upserted>)
    requires PostgresRun(tables, upserts) && id !in tables[|upserts|].sources
    requires forall j :: j in tables[|upserts|].sources ==> tables[|upserts|].sources[j].path != e.path
    ensures PostgresRun(longer, more) && |more| == |upserts| + 1
    ensures longer[|more|].sources == tables[|upserts|].sources[id := e]
  {
    var a := tables[|upserts|];
    IncrementalEqualsFull(tables, upserts, |upserts|);
    assert Owner(a.sources, PathOf(e)).None?;
    AfterUpsertFacts(a, id, e);
    longer, more := tables + [AfterUpsert(a, id, e)], upserts + [Upserted(id, e, OrderOf(a, id, e))];
    forall i | 0 <= i < |more|
      ensures PostgresStep(longer[i], more[i].id, more[i].entry, longer[i + 1], more[i].order)
    {
      assert i < |upserts| ==> longer[i] == tables[i] && longer[i + 1] == tables[i + 1] && more[i] == upserts[i];
    }
  }

  lemma CrossedReached() returns (tables: seq<Table>, upserts: seq<Upserted>)
    ensures PostgresRun(tables, upserts) && |upserts| == 4 && tables[4].sources == Crossed()
  {
    tables, upserts := [Table(map[], map[], map[])], [];
    tables, upserts := ExtendRun(tables, upserts, 1, Plain("a1", 'a', X));
    tables, upserts := ExtendRun(tables, upserts, 2, Plain("a2", 'a', Z));
    tables, upserts := ExtendRun(tables, upserts, 3, Plain("c1", 'c', X));
    tables, upserts := ExtendRun(tables, upserts, 4, Plain("c2", 'c', Z));
  }

  lemma CrossedCanonicals()
    ensures var e := Crossed(); Canonical(e, 1) == 1 && Canonical(e, 2) == 1 && Canonical(e, 3) == 3 && Canonical(e, 4) == 3
    ensures Choose(Crossed(), {1, 3}) == 1
  {
    var e := Crossed();
    HexDiffers('a', 'c');
    assert Group(e, Hex('a')) == {1, 2} && Group(e, Hex('c')) == {3, 4};
    assert Precedes(e, 1, 2) && Precedes(e, 3, 4) && Precedes(e, 1, 3);
    ChooseUnique(e, {1, 2}, 1);
    ChooseUnique(e, {3, 4}, 3);
    ChooseUnique(e, {1, 3}, 1);
  }

  lemma CrossedRelations()
    ensures IsRelation(Crossed(), Relation(Pair(3, 1), X)) && IsRelation(Crossed(), Relation(Pair(3, 1), Z))
  {
    var e := Crossed();
    CrossedCanonicals();
    DoisDiffer();
    assert Member(e, X, 1) && Member(e, X, 3) && !Member(e, X, 2) && !Member(e, X, 4);
    assert Member(e, Z, 2) && Member(e, Z, 4) && !Member(e, Z, 1) && !Member(e, Z, 3);
    assert Versions(e, X) == {1, 3} && Versions(e, Z) == {1, 3};
  }

  // Both DOIs relate source 3 to source 1, so no table of relations can agree; four upserts
  // into the empty catalog lead there.
  lemma CrossedDisagrees(relations: map<Pair, string>)
    ensures IsRelation(Crossed(), Relation(Pair(3, 1), X)) && IsRelation(Crossed(), Relation(Pair(3, 1), Z))
    ensures !RelationsAgree(relations, Crossed())
    ensures exists tables: seq<Table>, upserts: seq<Upserted> :: PostgresRun(tables, upserts) && |upserts| == 4 && tables[4].sources == Crossed()
  {
    CrossedRelations();
    DoisDiffer();
    if RelationsAgree(relations, Crossed()) {
      AgreeingIsFunctional(relations, Crossed());
      SamePairSameDoi(Crossed(), Relation(Pair(3, 1), X), Z);
    }
    var tables, upserts := CrossedReached();
  }

  lemma CopiedReached() returns (tables: seq<Table>, upserts: seq<Upserted>)
    ensures PostgresRun(tables, upserts) && |upserts| == 6 && tables[6].sources == Copied()
  {
    tables, upserts := CrossedReached();
    tables, upserts := ExtendRun(tables, upserts, 5, Plain("b1", 'b', X));
    tables, upserts := ExtendRun(tables, upserts, 6, Plain("a3", 'a', X));
  }

  // The extra copy turns out to have the third digest.
  function Corrected(): Entry {
    Plain("a3", 'b', X)
  }

  lemma CorrectedGroups()
    ensures var e := Copied()[6 := Corrected()];
            Group(e, Hex('a')) == {1, 2} && Group(e, Hex('b')) == {5, 6} && Group(e, Hex('c')) == {3, 4}
  {
    HexDiffers('a', 'c');
    HexDiffers('a', 'b');
    HexDiffers('b', 'c');
  }

  lemma CorrectedCanonicals()
    ensures var e := Copied()[6 := Corrected()];
            && Canonical(e, 1) == 1 && Canonical(e, 2) == 1 && Canonical(e, 3) == 3 && Canonical(e, 4) == 3
            && Canonical(e, 5) == 5 && Canonical(e, 6) == 5
  {
    var e := Copied()[6 := Corrected()];
    CorrectedGroups();
    assert Precedes(e, 1, 2) && Precedes(e, 3, 4) && Precedes(e, 5, 6);
    ChooseUnique(e, {1, 2}, 1);
    ChooseUnique(e, {3, 4}, 3);
    ChooseUnique(e, {5, 6}, 5);
  }

  lemma CorrectedRelations()
    ensures var e := Copied()[6 := Corrected()];
            IsRelation(e, Relation(Pair(3, 1), X)) && IsRelation(e, Relation(Pair(3, 1), Z))
  {
    var e := Copied()[6 := Corrected()];
    CorrectedCanonicals();
    DoisDiffer();
    assert Precedes(e, 1, 3) && Precedes(e, 1, 5);
    ChooseUnique(e, {1, 3}, 1);
    ChooseUnique(e, {1, 3, 5}, 1);
    assert Member(e, X, 1) && Member(e, X, 3) && Member(e, X, 5) && Member(e, X, 6) && !Member(e, X, 2) && !Member(e, X, 4);
    assert Versions(e, X) == {1, 3, 5};
    assert Member(e, Z, 2) && Member(e, Z, 4) && !Member(e, Z, 1) && !Member(e, Z, 3) && !Member(e, Z, 5) && !Member(e, Z, 6);
    assert Versions(e, Z) == {1, 3};
  }

  lemma {:induction false} PrefixKeepsOrder(prefix: string, a: string, b: string)
    requires AtMost(a, b)
    ensures AtMost(prefix + a, prefix + b)
  {
    if prefix == "" {
      assert prefix + a == a && prefix + b == b;
    } else {
      assert (prefix + a)[1..] == prefix[1..] + a && (prefix + b)[1..] == prefix[1..] + b;
      PrefixKeepsOrder(prefix[1..], a, b);
    }
  }

  lemma SortedPair(a: string, b: string)
    requires a != b && AtMost(a, b)
    ensures Sorted({a, b}) == [a, b] && Sorted({a}) == [a]
  {
    AtMostTotal(a, a);
    AtMostTotal(b, b);
    assert {a, b} - {a} == {b} && {b} - {b} == {} && {a} - {a} == {};
    SortedStarts({a}, a);
    SortedStarts({b}, b);
    SortedStarts({a, b}, a);
  }

  lemma SortedXZ()
    ensures X != Z && Sorted({X, Z}) == [X, Z] && Sorted({X}) == [X]
  {
    PrefixKeepsOrder("10.1000/", "x", "z");
    assert "10.1000/" + "x" == X && "10.1000/" + "z" == Z;
    DoisDiffer();
    SortedPair(X, Z);
  }

  // Putting a known path stores the merge under its own identifier.
  lemma CorrectedPut(entries: map<nat, Entry>, id: nat)
    requires entries == Copied() || entries == Copied()[6 := Corrected()]
    ensures MayPut(entries, id, Corrected()) && Target(entries, id, Corrected()) == 6
    ensures Put(entries, id, Corrected()) == Copied()[6 := Corrected()]
  {
    assert PathOf(entries[6]) == PathOf(Corrected());
    assert forall j :: j in entries && PathOf(entries[j]) == PathOf(Corrected()) ==> j == 6;
    assert entries[6].metadata + Corrected().metadata == map[];
  }

  lemma CorrectedDois()
    ensures var e := Copied()[6 := Corrected()];
            DoisOfGroup(e, Some(Hex('a'))) == {X, Z} && DoisOfGroup(e, Some(Hex('b'))) == {X}
  {
    var e := Copied()[6 := Corrected()];
    CorrectedGroups();
    var first, second := DoisOfGroup(e, Some(Hex('a'))), DoisOfGroup(e, Some(Hex('b')));
    assert first == set id | id in {1, 2} && e[id].doi.Some? :: e[id].doi.value;
    assert second == set id | id in {5, 6} && e[id].doi.Some? :: e[id].doi.value;
    assert 1 in {1, 2} && 2 in {1, 2} && 5 in {5, 6};
    assert e[1].doi.value in first && e[2].doi.value in first && e[5].doi.value in second;
  }

  lemma CorrectedOrders(id: nat, a: Table, b: Table)
    requires a.sources == Copied() && b.sources == Copied()[6 := Corrected()]
    ensures OrderOf(a, id, Corrected()) == [X, Z] && OrderOf(b, id, Corrected()) == [X]
  {
    CorrectedPut(a.sources, id);
    CorrectedPut(b.sources, id);
    CorrectedDois();
    SortedXZ();
    assert ShaOf(a.sources, 6) == Some(Hex('a')) && ShaOf(b.sources, 6) == Some(Hex('b'));
    assert DoiOf(a.sources, 6) == DoiOf(b.sources, 6) == Some(X);
    assert CollectedDois(a.sources, b.sources, 6) == {X, Z} && CollectedDois(b.sources, b.sources, 6) == {X};
  }

  // The correction stores pair (3, 1) under the second DOI; replaying it stores the pair under
  // the first.
  lemma ReplayMovesRelation(a: Table, id: nat)
    requires a.sources == Copied()
    ensures var b := AfterUpsert(a, id, Corrected());
            var c := AfterUpsert(b, id, Corrected());
            && b.sources == c.sources && Pair(3, 1) in b.relations && Pair(3, 1) in c.relations
            && b.relations[Pair(3, 1)] == Z && c.relations[Pair(3, 1)] == X && b.relations != c.relations
  {
    var b := AfterUpsert(a, id, Corrected());
    CorrectedPut(a.sources, id);
    CorrectedPut(b.sources, id);
    CorrectedOrders(id, a, b);
    CorrectedRelations();
    RepairedRows(a.relations, b.sources, [X, Z], Pair(3, 1));
    RepairedRows(b.relations, b.sources, [X], Pair(3, 1));
    DoisDiffer();
  }

  // Six upserts into the empty catalog lead to a state where this happens.
  lemma ReplayMayMoveRelation() returns (tables: seq<Table>, upserts: seq<Upserted>)
    ensures PostgresRun(tables, upserts) && |upserts| == 6
    ensures var b := AfterUpsert(tables[6], 6, Corrected());
            MayPut(tables[6].sources, 6, Corrected()) && AfterUpsert(b, 6, Corrected()).relations != b.relations
  {
    tables, upserts := CopiedReached();
    CorrectedPut(tables[6].sources, 6);
    ReplayMovesRelation(tables[6], 6);
  }
}
