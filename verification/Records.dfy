// What the catalog's rules on records mean, field by field: which copy of a digest becomes the
// canonical one, what a record holds after any number of updates, and which sources are related.

module Records {
  import opened Common
  import opened Catalog

  // ---------------------------------------------------------------- the richest copy

  // What makes a record richer.
  datatype Field = Doi | Application | Publication | Grant | Year | Sha | ByteSize | Category | Meta(key: string)

  predicate Fills(e: Entry, f: Field) {
    match f
    case Doi => e.doi.Some? && e.doi.value != ""
    case Application => e.application.Some? && e.application.value != ""
    case Publication => e.publication.Some? && e.publication.value != ""
    case Grant => e.grant_.Some? && e.grant_.value != ""
    case Year => e.year.Some?
    case Sha => e.sha.Some? && e.sha.value != ""
    case ByteSize => e.byteSize.Some?
    case Category => e.category.Some? && e.category.value != ""
    case Meta(key) =>
      && key in e.metadata && key !in {"source_version_key", "remote_modified_at", "exclusion_reason"}
      && (key == "" || key[0] != '_')
      && e.metadata[key] !in {Null, Text(""), List([]), Object(map[])}
  }

  function OneOf(f: Field, b: bool): set<Field> {
    if b then {f} else {}
  }

  function Four(f: Field, a: bool, g: Field, b: bool, h: Field, c: bool, i: Field, d: bool): set<Field> {
    OneOf(f, a) + OneOf(g, b) + OneOf(h, c) + OneOf(i, d)
  }

  function Numbers(e: Entry): (r: set<Field>)
    ensures forall f :: f in r <==> f in {Doi, Application, Publication, Grant} && Fills(e, f)
  {
    Four(Doi, Fills(e, Doi), Application, Fills(e, Application), Publication, Fills(e, Publication), Grant, Fills(e, Grant))
  }

  function Others(e: Entry): (r: set<Field>)
    ensures forall f :: f in r <==> f in {Year, Sha, ByteSize, Category} && Fills(e, f)
  {
    Four(Year, Fills(e, Year), Sha, Fills(e, Sha), ByteSize, Fills(e, ByteSize), Category, Fills(e, Category))
  }

  function MetaFilled(e: Entry): (r: set<string>)
    ensures forall key :: key in r <==> Fills(e, Meta(key))
  {
    set key | key in e.metadata && Fills(e, Meta(key))
  }

  function Metas(keys: set<string>): set<Field> {
    set key | key in keys :: Meta(key)
  }

  function Filled(e: Entry): (r: set<Field>)
    ensures forall f :: f in r <==> Fills(e, f)
  {
    Numbers(e) + Others(e) + Metas(MetaFilled(e))
  }

  lemma OneMore(s: set<Field>, f: Field, b: bool)
    requires f !in s
    ensures |s + OneOf(f, b)| == |s| + One(b)
  {
  }

  lemma FourCount(f: Field, a: bool, g: Field, b: bool, h: Field, c: bool, i: Field, d: bool)
    requires f != g && f != h && f != i && g != h && g != i && h != i
    ensures |Four(f, a, g, b, h, c, i, d)| == One(a) + One(b) + One(c) + One(d)
  {
    var s1, s2 := OneOf(f, a), OneOf(f, a) + OneOf(g, b);
    OneMore({}, f, a);
    OneMore(s1, g, b);
    assert {} + s1 == s1 && h !in s2;
    OneMore(s2, h, c);
    assert i !in s2 + OneOf(h, c);
    OneMore(s2 + OneOf(h, c), i, d);
  }

  lemma DisjointSum<T>(s: set<T>, t: set<T>)
    requires s !! t
    ensures |s + t| == |s| + |t|
  {
  }

  lemma NumbersCount(e: Entry)
    ensures |Numbers(e)| == One(Fills(e, Doi)) + One(Fills(e, Application)) + One(Fills(e, Publication)) + One(Fills(e, Grant))
  {
    FourCount(Doi, Fills(e, Doi), Application, Fills(e, Application), Publication, Fills(e, Publication), Grant, Fills(e, Grant));
  }

  lemma OthersCount(e: Entry)
    ensures |Others(e)| == One(Fills(e, Year)) + One(Fills(e, Sha)) + One(Fills(e, ByteSize)) + One(Fills(e, Category))
  {
    FourCount(Year, Fills(e, Year), Sha, Fills(e, Sha), ByteSize, Fills(e, ByteSize), Category, Fills(e, Category));
  }

  lemma {:induction false} MetaCount(keys: set<string>)
    ensures |Metas(keys)| == |keys|
  {
    if keys != {} {
      var k :| k in keys;
      MetaCount(keys - {k});
      assert Metas(keys) == Metas(keys - {k}) + {Meta(k)};
    }
  }

  lemma MetaCompleteness(e: Entry)
    ensures MetadataCompleteness(e.metadata) == |MetaFilled(e)|
  {
    UnderscoreFirst();
    assert MetaFilled(e) == set k | k in e.metadata && k !in INTERNAL_KEYS && !("_" <= k) && HasValue(e.metadata[k]);
  }

  lemma ThreeCounts(e: Entry)
    ensures |Filled(e)| == |Numbers(e)| + |Others(e)| + |MetaFilled(e)|
  {
    MetaCount(MetaFilled(e));
    Apart(Numbers(e), Others(e), Metas(MetaFilled(e)));
  }

  lemma Apart(a: set<Field>, b: set<Field>, c: set<Field>)
    requires a <= {Doi, Application, Publication, Grant} && b <= {Year, Sha, ByteSize, Category} && forall f :: f in c ==> f.Meta?
    ensures |a + b + c| == |a| + |b| + |c|
  {
    DisjointSum(a, b);
    DisjointSum(a + b, c);
  }

  lemma ScoreParts(e: Entry)
    ensures Completeness(e) == One(Fills(e, Doi)) + One(Fills(e, Application)) + One(Fills(e, Publication)) + One(Fills(e, Grant))
                               + One(Fills(e, Year)) + One(Fills(e, Sha)) + One(Fills(e, ByteSize)) + One(Fills(e, Category))
                               + MetadataCompleteness(e.metadata)
  {
  }

  // The score of a record is the number of its filled fields.
  lemma CompletenessCounts(e: Entry)
    ensures Completeness(e) == |Filled(e)|
  {
    ScoreParts(e);
    NumbersCount(e);
    OthersCount(e);
    MetaCompleteness(e);
    ThreeCounts(e);
  }

  lemma UnderscoreFirst()
    ensures forall k: string :: "_" <= k <==> k != "" && k[0] == '_'
  {
    assert "_"[0] == '_';
  }

  predicate Primary(e: Entry) {
    e.rootId == "document_data_1"
  }

  // With more filled fields, or as many and in the primary corpus, or likewise and first.
  predicate Outranks(entries: map<nat, Entry>, a: nat, b: nat)
    requires a in entries && b in entries
  {
    || |Filled(entries[a])| > |Filled(entries[b])|
    || (|Filled(entries[a])| == |Filled(entries[b])|
        && ((Primary(entries[a]) && !Primary(entries[b])) || (Primary(entries[a]) == Primary(entries[b]) && a <= b)))
  }

  lemma ChosenOutranks(entries: map<nat, Entry>, ids: set<nat>, x: nat)
    requires ids <= entries.Keys && x in ids
    ensures Outranks(entries, Choose(entries, ids), x)
  {
    var c := Choose(entries, ids);
    CompletenessCounts(entries[c]);
    CompletenessCounts(entries[x]);
    ChosenComes(entries, ids, x, |Filled(entries[c])|, |Filled(entries[x])|);
  }

  lemma ChosenComes(entries: map<nat, Entry>, ids: set<nat>, x: nat, m: nat, n: nat)
    requires ids <= entries.Keys && x in ids
    requires m == Completeness(entries[Choose(entries, ids)]) && n == Completeness(entries[x])
    ensures var c := Choose(entries, ids);
            m > n || (m == n && ((Primary(entries[c]) && !Primary(entries[x])) || (Primary(entries[c]) == Primary(entries[x]) && c <= x)))
  {
  }

  // A copy that fills less than another, or no more and loses the tie, is not chosen.
  lemma PoorerIsNotChosen(entries: map<nat, Entry>, ids: set<nat>, a: nat, b: nat)
    requires ids <= entries.Keys && a in ids && b in ids && a != b
    requires forall f :: Fills(entries[b], f) ==> Fills(entries[a], f)
    requires (forall f :: Fills(entries[a], f) ==> Fills(entries[b], f)) ==>
               (Primary(entries[a]) && !Primary(entries[b])) || (Primary(entries[a]) == Primary(entries[b]) && a < b)
    ensures Choose(entries, ids) != b
  {
    ChosenOutranks(entries, ids, a);
    SubsetCardinality(Filled(entries[b]), Filled(entries[a]));
  }

  // Every record with a digest points to the best of its copies, or is it.
  lemma PointersLeadToTheBest(entries: map<nat, Entry>, id: nat, x: nat)
    requires id in entries && x in entries && entries[id].sha.Some? && entries[x].sha == entries[id].sha
    ensures var c := CanonicalFor(Pointers(entries), id);
            c in entries && entries[c].sha == entries[id].sha && Outranks(entries, c, x)
  {
    PointersNeverChain(entries, id);
    var ids := Group(entries, entries[id].sha.value);
    assert x in ids && id in ids;
    ChosenOutranks(entries, ids, x);
  }

  // ---------------------------------------------------------------- the last word on a field

  datatype Slot = TitleSlot | KindSlot | StatusSlot | LegalSlot | DomainSlot | FieldSlot(field: Field)

  datatype Datum = Str(s: string) | Num(n: int) | Val(v: Value)

  function ReadText(o: Option<string>): Option<Datum> {
    if o.Some? && o.value != "" then Some(Str(o.value)) else None
  }

  function ReadNumber(o: Option<int>): Option<Datum> {
    if o.Some? then Some(Num(o.value)) else None
  }

  // What a record says about a field, if anything.
  function Read(e: Entry, slot: Slot): Option<Datum> {
    match slot
    case TitleSlot => ReadText(Some(e.title))
    case KindSlot => if e.kind == "unknown" then None else Some(Str(e.kind))
    case StatusSlot => Some(Str(e.status))
    case LegalSlot => if e.legalStatus == "unknown" then None else Some(Str(e.legalStatus))
    case DomainSlot => ReadText(Some(e.domain))
    case FieldSlot(f) =>
      match f
      case Doi => ReadText(e.doi)
      case Application => ReadText(e.application)
      case Publication => ReadText(e.publication)
      case Grant => ReadText(e.grant_)
      case Year => ReadNumber(e.year)
      case Sha => ReadText(e.sha)
      case ByteSize => ReadNumber(e.byteSize)
      case Category => ReadText(e.category)
      case Meta(key) => if key in e.metadata then Some(Val(e.metadata[key])) else None
  }

  // The last record in the list that says anything about the field decides.
  function LastSaid(records: seq<Entry>, slot: Slot): Option<Datum> {
    if records == [] then None
    else if Read(records[|records| - 1], slot).Some? then Read(records[|records| - 1], slot)
    else LastSaid(records[..|records| - 1], slot)
  }

  // One record after all its updates.
  function Merged(records: seq<Entry>): Entry
    requires records != []
  {
    if |records| == 1 then records[0]
    else MergeRecords(Merged(records[..|records| - 1]), records[|records| - 1])
  }

  lemma MergeReads(existing: Entry, incoming: Entry, slot: Slot)
    ensures Read(MergeRecords(existing, incoming), slot) == if Read(incoming, slot).Some? then Read(incoming, slot) else Read(existing, slot)
    ensures PathOf(MergeRecords(existing, incoming)) == PathOf(existing)
  {
  }

  lemma {:induction false} LastWordStands(records: seq<Entry>, slot: Slot)
    requires records != []
    ensures Read(Merged(records), slot) == LastSaid(records, slot)
    ensures PathOf(Merged(records)) == PathOf(records[0])
  {
    if |records| > 1 {
      LastWordStands(records[..|records| - 1], slot);
      MergeReads(Merged(records[..|records| - 1]), records[|records| - 1], slot);
    } else {
      assert records[..0] == [];
    }
  }

  // What the updates of a run said about one path, in order.
  function Said(upserts: seq<Upserted>, path: Path): seq<Entry> {
    if upserts == [] then []
    else
      var last := upserts[|upserts| - 1].entry;
      Said(upserts[..|upserts| - 1], path) + if PathOf(last) == path then [last] else []
  }

  // The record of every path holds exactly what was said about that path, whatever else was
  // upserted in between, and every path that was mentioned has one.
  ghost predicate TellsHistory(entries: map<nat, Entry>, upserts: seq<Upserted>) {
    && UniquePaths(entries)
    && (forall id :: id in entries ==> Said(upserts, PathOf(entries[id])) != [] && entries[id] == Merged(Said(upserts, PathOf(entries[id]))))
    && (forall path :: Said(upserts, path) != [] ==> exists id :: id in entries && PathOf(entries[id]) == path)
  }

  lemma SaidMore(upserts: seq<Upserted>, u: Upserted, path: Path)
    ensures Said(upserts + [u], path) == if PathOf(u.entry) == path then Said(upserts, path) + [u.entry] else Said(upserts, path)
  {
    assert (upserts + [u])[..|upserts|] == upserts;
  }

  lemma MergedMore(records: seq<Entry>, e: Entry)
    ensures Merged(records + [e]) == if records == [] then e else MergeRecords(Merged(records), e)
  {
    assert (records + [e])[..|records|] == records;
  }

  lemma PutTellsAt(entries: map<nat, Entry>, upserts: seq<Upserted>, u: Upserted, id: nat)
    requires TellsHistory(entries, upserts) && MayPut(entries, u.id, u.entry) && id in Put(entries, u.id, u.entry)
    ensures var e, said := Put(entries, u.id, u.entry)[id], Said(upserts + [u], PathOf(Put(entries, u.id, u.entry)[id]));
            said != [] && e == Merged(said)
  {
    MergedMore(Said(upserts, PathOf(u.entry)), u.entry);
    SaidMore(upserts, u, PathOf(Put(entries, u.id, u.entry)[id]));
  }

  lemma PutTells(entries: map<nat, Entry>, upserts: seq<Upserted>, u: Upserted)
    requires TellsHistory(entries, upserts) && MayPut(entries, u.id, u.entry)
    ensures TellsHistory(Put(entries, u.id, u.entry), upserts + [u])
  {
    var after, t := Put(entries, u.id, u.entry), Target(entries, u.id, u.entry);
    PutKeepsPaths(entries, u.id, u.entry);
    forall id | id in after
      ensures Said(upserts + [u], PathOf(after[id])) != [] && after[id] == Merged(Said(upserts + [u], PathOf(after[id])))
    {
      PutTellsAt(entries, upserts, u, id);
    }
    forall path | Said(upserts + [u], path) != []
      ensures exists id :: id in after && PathOf(after[id]) == path
    {
      SaidMore(upserts, u, path);
      PathStored(entries, u, path);
    }
  }

  lemma PathStored(entries: map<nat, Entry>, u: Upserted, path: Path)
    requires MayPut(entries, u.id, u.entry)
    requires path == PathOf(u.entry) || exists id :: id in entries && PathOf(entries[id]) == path
    ensures exists id :: id in Put(entries, u.id, u.entry) && PathOf(Put(entries, u.id, u.entry)[id]) == path
  {
    var after, t := Put(entries, u.id, u.entry), Target(entries, u.id, u.entry);
    assert t in after && PathOf(after[t]) == PathOf(u.entry);
    if path != PathOf(u.entry) {
      var id :| id in entries && PathOf(entries[id]) == path;
      assert id != t && id in after && PathOf(after[id]) == path;
    }
  }

  lemma {:induction false} RecordsTellHistory(tables: seq<Table>, upserts: seq<Upserted>, i: nat)
    requires PostgresRun(tables, upserts) && i < |tables|
    ensures TellsHistory(tables[i].sources, upserts[..i])
  {
    if i > 0 {
      RecordsTellHistory(tables, upserts, i - 1);
      var u := upserts[i - 1];
      assert PostgresStep(tables[i - 1], u.id, u.entry, tables[i], u.order);
      PutTells(tables[i - 1].sources, upserts[..i - 1], u);
      assert upserts[..i - 1] + [upserts[i - 1]] == upserts[..i];
    }
  }

  // So every field of every record is the last thing the run said about it.
  lemma FieldsAreLastSaid(tables: seq<Table>, upserts: seq<Upserted>, i: nat, id: nat, slot: Slot)
    requires PostgresRun(tables, upserts) && i < |tables| && id in tables[i].sources
    ensures Read(tables[i].sources[id], slot) == LastSaid(Said(upserts[..i], PathOf(tables[i].sources[id])), slot)
  {
    RecordsTellHistory(tables, upserts, i);
    LastWordStands(Said(upserts[..i], PathOf(tables[i].sources[id])), slot);
  }

  // ---------------------------------------------------------------- which sources are related

  // A record with this DOI and a digest, whose best copy is `x`.
  ghost predicate BestCopy(entries: map<nat, Entry>, doi: string, id: nat, x: nat) {
    id in entries && entries[id].doi == Some(doi) && entries[id].sha.Some? && CanonicalFor(Pointers(entries), id) == x && x in entries
  }

  lemma BestCopyIsCanonical(entries: map<nat, Entry>, doi: string, id: nat, x: nat)
    ensures BestCopy(entries, doi, id, x) <==> Member(entries, doi, id) && Canonical(entries, id) == x
  {
    if id in entries {
      PointersNeverChain(entries, id);
    }
  }

  lemma VersionsAreBest(entries: map<nat, Entry>, doi: string, x: nat)
    ensures x in Versions(entries, doi) <==> exists id :: BestCopy(entries, doi, id, x)
  {
    if x in Versions(entries, doi) {
      var id :| id in entries && Member(entries, doi, id) && Canonical(entries, id) == x;
      BestCopyIsCanonical(entries, doi, id, x);
    }
    if id :| BestCopy(entries, doi, id, x) {
      BestCopyIsCanonical(entries, doi, id, x);
    }
  }

  lemma ChosenIsTop(entries: map<nat, Entry>, ids: set<nat>, t: nat)
    requires ids <= entries.Keys && t in ids
    ensures t == Choose(entries, ids) <==> forall y :: y in ids ==> Outranks(entries, t, y)
  {
    var c := Choose(entries, ids);
    forall y | y in ids
      ensures Outranks(entries, c, y)
    {
      ChosenOutranks(entries, ids, y);
    }
    if forall y :: y in ids ==> Outranks(entries, t, y) {
      TopIsOne(entries, c, t);
    }
  }

  lemma TopIsOne(entries: map<nat, Entry>, a: nat, b: nat)
    requires a in entries && b in entries && Outranks(entries, a, b) && Outranks(entries, b, a)
    ensures a == b
  {
  }

  // The richest of the best copies under a DOI, and it alone, is what the others relate to.
  lemma RelatedMeans(entries: map<nat, Entry>, doi: string, x: nat, t: nat)
    ensures IsRelation(entries, Relation(Pair(x, t), doi)) <==>
              && x != t && (exists id :: BestCopy(entries, doi, id, x)) && (exists id :: BestCopy(entries, doi, id, t))
              && forall id, y :: BestCopy(entries, doi, id, y) ==> Outranks(entries, t, y)
  {
    var versions := Versions(entries, doi);
    forall y
      ensures y in versions <==> exists id :: BestCopy(entries, doi, id, y)
    {
      VersionsAreBest(entries, doi, y);
    }
    if t in versions {
      ChosenIsTop(entries, versions, t);
      TopOfBest(entries, doi, versions, t);
    }
  }

  lemma TopOfBest(entries: map<nat, Entry>, doi: string, versions: set<nat>, t: nat)
    requires versions <= entries.Keys && t in versions && forall y :: y in versions <==> exists id :: BestCopy(entries, doi, id, y)
    ensures (forall y :: y in versions ==> Outranks(entries, t, y)) <==> forall id, y :: BestCopy(entries, doi, id, y) ==> Outranks(entries, t, y)
  {
    if forall id, y :: BestCopy(entries, doi, id, y) ==> Outranks(entries, t, y) {
      forall y | y in versions
        ensures Outranks(entries, t, y)
      {
        var id :| BestCopy(entries, doi, id, y);
      }
    }
  }
}
