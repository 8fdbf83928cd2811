// Streaming a metadata manifest into the catalog with a durable cursor.  Between the upsert
// of a record and the save of the cursor the process may die.  Whatever the crash points,
// restarting until done leaves the records, the canonical pointers, the cursor and the verdict
// of one clean run; the version relations too, unless two DOIs relate one pair of sources.

module Manifest {
  import opened Common
  import opened Framing
  import opened Catalog
  import opened Repetition

  type Bytes = seq<byte>

  datatype Format = Jsonl | Csv

  datatype Cursor = Cursor(version: string, offset: nat, records: nat, names: Option<seq<string>>)

  // A manifest, its limits, and the deterministic decoders of its records.  Record
  // identifiers are computed from the record's path.
  datatype Source = Source(format: Format, data: Bytes, version: string, maxLine: nat, maxRecord: nat,
                           json: Bytes -> Result<Entry, string>,
                           header: Bytes -> Result<seq<string>, string>,
                           row: (seq<string>, Bytes) -> Result<Entry, string>,
                           ident: Path -> nat)

  // ---------------------------------------------------------------- cursors

  predicate ValidCursor(format: Format, c: Cursor) {
    if format.Jsonl? then c.names.None? else c.offset > 0 ==> c.names.Some?
  }

  // The repository's rule for replacing a stored cursor.
  predicate AssertProgress(existing: Cursor, candidate: Cursor) {
    && existing.version == candidate.version
    && existing.offset <= candidate.offset && existing.records <= candidate.records
    && (candidate.offset == existing.offset ==> candidate.records == existing.records)
    && (existing.names.Some? ==> candidate.names == existing.names)
  }

  // ---------------------------------------------------------------- units and their effect

  function StripBreaks(line: Bytes): Bytes {
    if line != [] && (line[|line| - 1] == LF || line[|line| - 1] == CR) then StripBreaks(line[..|line| - 1]) else line
  }

  function UnitsOf(s: Source): seq<Bytes> {
    if s.format.Jsonl? then Frame(s.data, s.maxLine).lines else Units(s.data, s.maxLine, s.maxRecord).records
  }

  datatype Outcome = Blank | Header(names: seq<string>) | Row(entry: Entry) | Refused(code: string)

  function Classify(s: Source, names: Option<seq<string>>, unit_: Bytes): Outcome {
    if s.format.Jsonl? then
      if StripBreaks(unit_) == [] then Blank
      else
        match s.json(StripBreaks(unit_))
        case Ok(e) => Row(e)
        case Err(code) => Refused(code)
    else
      match names
      case None =>
        (match s.header(unit_)
         case Ok(n) => Header(n)
         case Err(code) => Refused(code))
      case Some(n) =>
        (match s.row(n, unit_)
         case Ok(e) => Row(e)
         case Err(code) => Refused(code))
  }

  // The rows upserted so far, in order.
  datatype Progress = Progress(rows: seq<Entry>, names: Option<seq<string>>)

  const START := Progress([], None)

  function Step(s: Source, p: Progress, unit_: Bytes): Result<Progress, string> {
    match Classify(s, p.names, unit_)
    case Blank => Ok(p)
    case Header(names) => Ok(p.(names := Some(names)))
    case Row(e) => Ok(p.(rows := p.rows + [e]))
    case Refused(code) => Err(code)
  }

  // Why reading stops after the last unit, if not at the end of a well-formed manifest.
  function EndCode(s: Source, p: Progress): Option<string> {
    var tooLong := Frame(s.data, s.maxLine).tooLong;
    if s.format.Jsonl? then if tooLong then Some("metadata.parse.line_too_large") else None
    else
      var end := Units(s.data, s.maxLine, s.maxRecord).end;
      if end == TooLarge then Some("metadata.parse.record_too_large")
      else if tooLong then Some("metadata.parse.line_too_large")
      else if end == Partial then Some("metadata.parse.invalid_csv")
      else if p.names.None? then Some("metadata.parse.missing_csv_header")
      else None
  }

  // The progress after the first `k` units, if none was refused.
  function PlayTo(s: Source, k: nat): Option<Progress>
    requires k <= |UnitsOf(s)|
  {
    if k == 0 then Some(START)
    else
      match PlayTo(s, k - 1)
      case None => None
      case Some(p) => if Step(s, p, UnitsOf(s)[k - 1]).Ok? then Some(Step(s, p, UnitsOf(s)[k - 1]).value) else None
  }

  datatype Verdict = Verdict(progress: Progress, code: Option<string>)

  // One clean run from unit `k` on.
  function Clean(s: Source, p: Progress, k: nat): Verdict
    requires k <= |UnitsOf(s)|
    decreases |UnitsOf(s)| - k
  {
    if k == |UnitsOf(s)| then Verdict(p, EndCode(s, p))
    else
      match Step(s, p, UnitsOf(s)[k])
      case Err(code) => Verdict(p, Some(code))
      case Ok(next) => Clean(s, next, k + 1)
  }

  lemma {:induction false} CleanFrom(s: Source, k: nat)
    requires k <= |UnitsOf(s)| && PlayTo(s, k).Some?
    ensures Clean(s, PlayTo(s, k).value, k) == Clean(s, START, 0)
  {
    if k > 0 {
      CleanFrom(s, k - 1);
    }
  }

  lemma CleanEnds(s: Source)
    requires PlayTo(s, |UnitsOf(s)|).Some?
    ensures var p := PlayTo(s, |UnitsOf(s)|).value; Clean(s, START, 0) == Verdict(p, EndCode(s, p))
  {
    CleanFrom(s, |UnitsOf(s)|);
  }

  lemma CleanStops(s: Source, k: nat, code: string)
    requires k < |UnitsOf(s)| && PlayTo(s, k).Some? && Step(s, PlayTo(s, k).value, UnitsOf(s)[k]) == Err(code)
    ensures Clean(s, START, 0) == Verdict(PlayTo(s, k).value, Some(code))
  {
    CleanFrom(s, k);
  }

  // ---------------------------------------------------------------- the catalog of a run

  // Identifiers come from the paths: an identifier computed for a path is not in use for another.
  ghost predicate Identified(s: Source, entries: map<nat, Entry>) {
    && (forall p, q :: s.ident(p) == s.ident(q) ==> p == q)
    && (forall id, p :: id in entries && s.ident(p) == id ==> PathOf(entries[id]) == p)
  }

  ghost predicate Ready(s: Source, t: Table) {
    ValidTable(t) && Identified(s, t.sources)
  }

  // One row upserted under the identifier of its path.
  ghost function Upserting(s: Source): (Table, Entry) -> Table {
    (t: Table, e: Entry) => AfterUpsert(t, s.ident(PathOf(e)), e)
  }

  // What one clean run over these rows makes of the catalog.
  ghost function TableAfter(s: Source, base: Table, rows: seq<Entry>): Table {
    Fold(Upserting(s), base, rows)
  }

  lemma TableAfterMore(s: Source, base: Table, rows: seq<Entry>, e: Entry)
    ensures TableAfter(s, base, rows + [e]) == AfterUpsert(TableAfter(s, base, rows), s.ident(PathOf(e)), e)
  {
    FoldMore(Upserting(s), base, rows, e);
  }

  lemma UpsertKeepsReady(s: Source, t: Table, e: Entry)
    requires Ready(s, t)
    ensures MayPut(t.sources, s.ident(PathOf(e)), e) && Ready(s, AfterUpsert(t, s.ident(PathOf(e)), e))
  {
    AfterUpsertFacts(t, s.ident(PathOf(e)), e);
  }

  lemma {:induction false} TableAfterReady(s: Source, base: Table, rows: seq<Entry>)
    requires Ready(s, base)
    ensures Ready(s, TableAfter(s, base, rows))
  {
    if rows != [] {
      TableAfterReady(s, base, rows[..|rows| - 1]);
      UpsertKeepsReady(s, TableAfter(s, base, rows[..|rows| - 1]), rows[|rows| - 1]);
    }
  }

  // The catalog holds these rows, some of them upserted more than once.
  ghost predicate Holds(s: Source, base: Table, rows: seq<Entry>, t: Table) {
    && Ready(s, t) && Similar(t, TableAfter(s, base, rows))
    && Repeats(Upserting(s), base, rows, t)
  }

  // Upserting the next row, for the first time or again, leaves the records and pointers of
  // the clean run.
  lemma UpsertHolds(s: Source, base: Table, rows: seq<Entry>, t: Table, e: Entry)
    requires Ready(s, base) && (Holds(s, base, rows, t) || Holds(s, base, rows + [e], t))
    ensures MayPut(t.sources, s.ident(PathOf(e)), e) && Holds(s, base, rows + [e], AfterUpsert(t, s.ident(PathOf(e)), e))
  {
    var id, a := s.ident(PathOf(e)), TableAfter(s, base, rows);
    TableAfterReady(s, base, rows);
    TableAfterMore(s, base, rows, e);
    UpsertKeepsReady(s, a, e);
    UpsertKeepsReady(s, t, e);
    if Holds(s, base, rows, t) {
      FirstTime(Upserting(s), base, rows, t, e);
    } else {
      AgainSimilar(a, t, id, e);
      OnceMore(Upserting(s), base, rows, t, e);
    }
  }

  lemma AgainSimilar(a: Table, t: Table, id: nat, e: Entry)
    requires ValidTable(a) && ValidTable(t) && MayPut(a.sources, id, e) && MayPut(t.sources, id, e) && Similar(t, AfterUpsert(a, id, e))
    ensures Similar(AfterUpsert(t, id, e), AfterUpsert(a, id, e))
  {
    AfterUpsertFacts(a, id, e);
    PutIdempotent(a.sources, id, e, id);
    AfterUpsertFacts(t, id, e);
  }

  // ---------------------------------------------------------------- harmless repetitions

  // The repetition of one row keeps the relations.
  ghost predicate HarmlessAt(s: Source, base: Table, rows: seq<Entry>, n: nat)
    requires n < |rows|
  {
    var t := TableAfter(s, base, rows[..n + 1]);
    Settled(t, OrderOf(t, s.ident(PathOf(rows[n])), rows[n]))
  }

  ghost predicate Harmless(s: Source, base: Table, rows: seq<Entry>) {
    forall n: nat :: n < |rows| ==> HarmlessAt(s, base, rows, n)
  }

  // Repeating the last upsert of a clean run leaves its catalog exactly when every pair related
  // by a DOI the repetition repairs is already stored under the last such DOI.
  lemma ReplayHarmlessIff(s: Source, base: Table, rows: seq<Entry>, e: Entry)
    requires Ready(s, base)
    ensures var t, id := TableAfter(s, base, rows + [e]), s.ident(PathOf(e));
            AfterUpsert(t, id, e) == t <==> Settled(t, OrderOf(t, id, e))
  {
    var a, id := TableAfter(s, base, rows), s.ident(PathOf(e));
    var t := AfterUpsert(a, id, e);
    TableAfterMore(s, base, rows, e);
    TableAfterReady(s, base, rows);
    UpsertKeepsReady(s, a, e);
    UpsertKeepsReady(s, t, e);
    AfterUpsertIsStep(a, id, e);
    AfterUpsertIsStep(t, id, e);
    ReplayedStep(a, id, e, t, OrderOf(a, id, e), id, AfterUpsert(t, id, e), OrderOf(t, id, e));
    ReplayKeepsRelationsIff(a, id, e, t, OrderOf(a, id, e), id, AfterUpsert(t, id, e), OrderOf(t, id, e));
  }

  lemma HarmlessIsStable(s: Source, base: Table, rows: seq<Entry>, n: nat)
    requires Ready(s, base) && n < |rows|
    ensures HarmlessAt(s, base, rows, n) <==> StableAt(Upserting(s), base, rows, n)
  {
    assert rows[..n + 1] == rows[..n] + [rows[n]];
    ReplayHarmlessIff(s, base, rows[..n], rows[n]);
  }

  // Every disturbed run has, after each of its rows, the catalog of the clean run exactly when
  // every row of it is harmless; a row that is not shows when it alone is repeated.
  lemma HarmlessIff(s: Source, base: Table, rows: seq<Entry>)
    requires Ready(s, base)
    ensures Harmless(s, base, rows) <==>
            forall n: nat, times: seq<nat> :: n <= |rows| && |times| == n ==>
              FoldAgain(Upserting(s), base, rows[..n], times) == TableAfter(s, base, rows[..n])
    ensures forall n: nat :: n < |rows| && !HarmlessAt(s, base, rows, n) ==>
              FoldAgain(Upserting(s), base, rows[..n + 1], OnlyLast(n)) != TableAfter(s, base, rows[..n + 1])
  {
    AllStable(s, base, rows);
    StableIff(Upserting(s), base, rows);
  }

  lemma AllStable(s: Source, base: Table, rows: seq<Entry>)
    requires Ready(s, base)
    ensures forall n: nat :: n < |rows| ==> (HarmlessAt(s, base, rows, n) <==> StableAt(Upserting(s), base, rows, n))
    ensures Harmless(s, base, rows) <==> Stable(Upserting(s), base, rows)
  {
    forall n: nat | n < |rows|
      ensures HarmlessAt(s, base, rows, n) <==> StableAt(Upserting(s), base, rows, n)
    {
      HarmlessIsStable(s, base, rows, n);
    }
  }

  lemma RepeatShowsIff(s: Source, base: Table, rows: seq<Entry>, e: Entry)
    requires Ready(s, base)
    ensures var id := s.ident(PathOf(e));
            AfterUpsert(AfterUpsert(TableAfter(s, base, rows), id, e), id, e) == TableAfter(s, base, rows + [e])
            <==> HarmlessAt(s, base, rows + [e], |rows|)
  {
    TableAfterMore(s, base, rows, e);
    assert (rows + [e])[..|rows| + 1] == rows + [e];
    ReplayHarmlessIff(s, base, rows, e);
  }

  // The relations are right at the start, and no state of a clean run relates one pair twice.
  ghost predicate Tidy(s: Source, base: Table, rows: seq<Entry>) {
    && RelationsAgree(base.relations, base.sources)
    && forall n: nat :: n <= |rows| ==> OneDoiPerPair(TableAfter(s, base, rows[..n]).sources)
  }

  lemma TidyPrefix(s: Source, base: Table, rows: seq<Entry>, more: seq<Entry>)
    requires rows <= more && Tidy(s, base, more)
    ensures Tidy(s, base, rows)
  {
    forall n: nat | n <= |rows|
      ensures OneDoiPerPair(TableAfter(s, base, rows[..n]).sources)
    {
      assert rows[..n] == more[..n];
    }
  }

  lemma {:induction false} TidyAgrees(s: Source, base: Table, rows: seq<Entry>)
    requires Ready(s, base) && Tidy(s, base, rows)
    ensures RelationsAgree(TableAfter(s, base, rows).relations, TableAfter(s, base, rows).sources)
  {
    if rows != [] {
      var front, e := rows[..|rows| - 1], rows[|rows| - 1];
      TidyPrefix(s, base, front, rows);
      TidyAgrees(s, base, front);
      TableAfterReady(s, base, front);
      UpsertKeepsReady(s, TableAfter(s, base, front), e);
      assert rows[..|rows|] == rows;
      UpsertKeepsAgreement(TableAfter(s, base, front), s.ident(PathOf(e)), e);
    }
  }

  // A tidy run is harmless: repeated or not, each upsert leaves the recomputed relations.
  lemma TidyIsHarmless(s: Source, base: Table, rows: seq<Entry>)
    requires Ready(s, base) && Tidy(s, base, rows)
    ensures Harmless(s, base, rows)
  {
    forall n: nat | n < |rows|
      ensures HarmlessAt(s, base, rows, n)
    {
      TidyIsHarmlessAt(s, base, rows, n);
    }
  }

  lemma TidyIsHarmlessAt(s: Source, base: Table, rows: seq<Entry>, n: nat)
    requires Ready(s, base) && Tidy(s, base, rows) && n < |rows|
    ensures HarmlessAt(s, base, rows, n)
  {
    var e, id := rows[n], s.ident(PathOf(rows[n]));
    var a, t := TableAfter(s, base, rows[..n]), TableAfter(s, base, rows[..n + 1]);
    assert rows[..n + 1] == rows[..n] + [e];
    TableAfterMore(s, base, rows[..n], e);
    TidyPrefix(s, base, rows[..n + 1], rows);
    TidyAgrees(s, base, rows[..n + 1]);
    TableAfterReady(s, base, rows[..n]);
    TableAfterReady(s, base, rows[..n + 1]);
    UpsertKeepsReady(s, a, e);
    UpsertKeepsReady(s, t, e);
    AgainSimilar(a, t, id, e);
    UpsertKeepsAgreement(t, id, e);
    AgreeOnce(t.relations, AfterUpsert(t, id, e).relations, t.sources);
    HarmlessIsStable(s, base, rows, n);
  }

  // ---------------------------------------------------------------- boundaries

  function OffsetOf(s: Source, k: nat): nat
    requires k <= |UnitsOf(s)|
  {
    |Concat(UnitsOf(s)[..k])|
  }

  // What is left of the data after `k` units frames and assembles to the other units.
  predicate Remains(s: Source, k: nat, rest: Bytes)
    requires k <= |UnitsOf(s)|
  {
    && s.data == Concat(UnitsOf(s)[..k]) + rest
    && Frame(rest, s.maxLine).tooLong == Frame(s.data, s.maxLine).tooLong
    && if s.format.Jsonl? then Frame(rest, s.maxLine).lines == UnitsOf(s)[k..]
       else Units(rest, s.maxLine, s.maxRecord) == Assembled(UnitsOf(s)[k..], Units(s.data, s.maxLine, s.maxRecord).end)
  }

  lemma PrefixStep(units: seq<Bytes>, k: nat)
    requires k < |units|
    ensures Concat(units[..k + 1]) == Concat(units[..k]) + units[k]
    ensures units[k..] == [units[k]] + units[k + 1..]
  {
    assert units[..k + 1] == units[..k] + [units[k]];
    ConcatMore(units[..k], units[k]);
  }

  lemma CutFirstLine(data: Bytes, max: nat) returns (line: Bytes, rest: Bytes)
    requires Frame(data, max).lines != []
    ensures data == line + rest && line != [] && Frame(data, max) == Prepend(line, Frame(rest, max))
  {
    var n := LineLength(data);
    line, rest := data[..n], data[n..];
  }

  lemma HeadTail<T>(x: T, xs: seq<T>, ys: seq<T>)
    requires ys == [x] + xs
    ensures ys[0] == x && ys[1..] == xs
  {
  }

  // The first record, wherever reading stands, is what was held back plus a prefix of the data.
  lemma {:induction false} FirstUnit(data: Bytes, pending: Bytes, quoted: bool, max: nat, limit: nat) returns (taken: Bytes, rest: Bytes)
    requires Assemble(Frame(data, max).lines, pending, quoted, limit).records != []
    ensures data == taken + rest && taken != [] && Frame(rest, max).tooLong == Frame(data, max).tooLong
    ensures Assemble(Frame(data, max).lines, pending, quoted, limit) == PrependRecord(pending + taken, Units(rest, max, limit))
    decreases |data|
  {
    var line, more := CutFirstLine(data, max);
    HeadTail(line, Frame(more, max).lines, Frame(data, max).lines);
    AssembleNext(line, Frame(more, max).lines, pending, quoted, limit);
    if Scan(line, quoted, !quoted).0 {
      var t, r := FirstUnit(more, pending + line, true, max, limit);
      Assoc(line, t, r);
      Assoc(pending, line, t);
      taken, rest := line + t, r;
    } else {
      taken, rest := line, more;
    }
  }

  lemma {:induction false} BoundaryAt(s: Source, k: nat) returns (rest: Bytes)
    requires k <= |UnitsOf(s)|
    ensures Remains(s, k, rest)
    ensures OffsetOf(s, k) <= |s.data| && s.data[OffsetOf(s, k)..] == rest
  {
    if k == 0 {
      rest := s.data;
      WholeRemains(s);
    } else {
      var before := BoundaryAt(s, k - 1);
      rest := BoundaryStep(s, k - 1, before);
    }
    SplitAt(s.data, Concat(UnitsOf(s)[..k]), rest);
  }

  lemma WholeRemains(s: Source)
    ensures Remains(s, 0, s.data)
  {
    Assoc(s.data, [], []);
    assert UnitsOf(s)[0..] == UnitsOf(s);
  }

  lemma SplitAt(data: Bytes, a: Bytes, b: Bytes)
    requires data == a + b
    ensures |a| <= |data| && data[|a|..] == b
  {
  }

  lemma BoundaryStep(s: Source, k: nat, before: Bytes) returns (rest: Bytes)
    requires k < |UnitsOf(s)| && Remains(s, k, before)
    ensures before == UnitsOf(s)[k] + rest && UnitsOf(s)[k] != [] && Remains(s, k + 1, rest)
  {
    var units := UnitsOf(s);
    PrefixStep(units, k);
    HeadTail(units[k], units[k + 1..], units[k..]);
    var taken: Bytes;
    if s.format.Jsonl? {
      taken, rest := CutFirstLine(before, s.maxLine);
      HeadTail(taken, Frame(rest, s.maxLine).lines, Frame(before, s.maxLine).lines);
    } else {
      taken, rest := FirstUnit(before, [], false, s.maxLine, s.maxRecord);
      Assoc(taken, [], []);
      HeadTail(taken, Units(rest, s.maxLine, s.maxRecord).records, Units(before, s.maxLine, s.maxRecord).records);
    }
    Assoc(Concat(units[..k]), taken, rest);
  }

  lemma OffsetStep(s: Source, k: nat)
    requires k < |UnitsOf(s)|
    ensures OffsetOf(s, k) < OffsetOf(s, k + 1) == OffsetOf(s, k) + |UnitsOf(s)[k]|
  {
    PrefixStep(UnitsOf(s), k);
    var before := BoundaryAt(s, k);
    var rest := BoundaryStep(s, k, before);
  }

  // ---------------------------------------------------------------- cursors of a run

  function CursorAt(s: Source, p: Progress, k: nat): Cursor
    requires k <= |UnitsOf(s)|
  {
    Cursor(s.version, OffsetOf(s, k), |p.rows|, p.names)
  }

  lemma {:induction false} NamesKnown(s: Source, k: nat)
    requires k <= |UnitsOf(s)| && PlayTo(s, k).Some?
    ensures s.format.Jsonl? ==> PlayTo(s, k).value.names.None?
    ensures s.format.Csv? && k > 0 ==> PlayTo(s, k).value.names.Some?
  {
    if k > 0 {
      NamesKnown(s, k - 1);
    }
  }

  // Every cursor a run saves is valid and is progress over the one before it; records are
  // counted exactly.
  lemma CursorsProgress(s: Source, k: nat)
    requires k < |UnitsOf(s)| && PlayTo(s, k + 1).Some?
    ensures PlayTo(s, k).Some?
    ensures ValidCursor(s.format, CursorAt(s, PlayTo(s, k + 1).value, k + 1))
    ensures AssertProgress(CursorAt(s, PlayTo(s, k).value, k), CursorAt(s, PlayTo(s, k + 1).value, k + 1))
    ensures OffsetOf(s, k) < OffsetOf(s, k + 1)
  {
    NamesKnown(s, k + 1);
    OffsetStep(s, k);
  }

  // ---------------------------------------------------------------- the ingestor

  datatype Attempt = Saved | Died | Rejected(code: string) | CursorConflict

  datatype Run = Crashed | Done(code: Option<string>)

  // The catalog holds the rows of the first `k` units.
  ghost predicate HeldAt(s: Source, base: Table, k: nat, t: Table) {
    k <= |UnitsOf(s)| && PlayTo(s, k).Some? && Holds(s, base, PlayTo(s, k).value.rows, t)
  }

  lemma NextHeld(s: Source, base: Table, k: nat, t: Table, e: Entry)
    requires Ready(s, base) && k < |UnitsOf(s)| && PlayTo(s, k).Some? && (HeldAt(s, base, k, t) || HeldAt(s, base, k + 1, t))
    requires Classify(s, PlayTo(s, k).value.names, UnitsOf(s)[k]) == Row(e)
    ensures PlayTo(s, k + 1).Some? && PlayTo(s, k + 1).value.rows == PlayTo(s, k).value.rows + [e]
    ensures MayPut(t.sources, s.ident(PathOf(e)), e) && HeldAt(s, base, k + 1, AfterUpsert(t, s.ident(PathOf(e)), e))
    ensures ValidTable(t)
  {
    UpsertHolds(s, base, PlayTo(s, k).value.rows, t, e);
  }

  class MetadataManifestIngestor {
    const catalog: PostgresSourceCatalogRepository
    var stored: Option<Cursor>

    constructor (catalog: PostgresSourceCatalogRepository)
      ensures this.catalog == catalog && stored == None
    {
      this.catalog, stored := catalog, None;
    }

    function Loaded(s: Source): Cursor
      reads this
    {
      if stored.Some? then stored.value else Cursor(s.version, 0, 0, None)
    }

    // The durable state after `k` saved units: the catalog may be one upsert ahead.
    ghost predicate Durable(s: Source, base: Table, k: nat)
      reads this, catalog
    {
      && Ready(s, base) && k <= |UnitsOf(s)| && PlayTo(s, k).Some?
      && Loaded(s) == CursorAt(s, PlayTo(s, k).value, k)
      && (HeldAt(s, base, k, catalog.Contents()) || HeldAt(s, base, k + 1, catalog.Contents()))
    }

    ghost predicate Exact(s: Source, base: Table, k: nat)
      reads this, catalog
    {
      Durable(s, base, k) && HeldAt(s, base, k, catalog.Contents())
    }

    method Save(c: Cursor) returns (ok: bool)
      modifies this`stored
      ensures ok <==> old(stored).None? || old(stored) == Some(c) || AssertProgress(old(stored).value, c)
      ensures stored == if ok then Some(c) else old(stored)
    {
      if stored.Some? && stored != Some(c) && !AssertProgress(stored.value, c) {
        return false;
      }
      stored := Some(c);
      ok := true;
    }

    // The row of the next unit, for the first time or again.
    method Upsert(s: Source, ghost base: Table, ghost k: nat, e: Entry) returns (ok: bool)
      requires Durable(s, base, k) && k < |UnitsOf(s)|
      requires Classify(s, PlayTo(s, k).value.names, UnitsOf(s)[k]) == Row(e)
      modifies catalog
      ensures ok && Durable(s, base, k) && HeldAt(s, base, k + 1, catalog.Contents())
      ensures catalog.Contents() == AfterUpsert(old(catalog.Contents()), s.ident(PathOf(e)), e)
    {
      NextHeld(s, base, k, catalog.Contents(), e);
      var id := catalog.Upsert(s.ident(PathOf(e)), e);
      ok := id.Some?;
    }

    // Save the cursor of the next unit; the process may die before.
    method Commit(s: Source, ghost base: Table, ghost k: nat, next: Cursor, budget: nat) returns (a: Attempt, left: nat)
      requires Durable(s, base, k) && k < |UnitsOf(s)| && HeldAt(s, base, k + 1, catalog.Contents())
      requires next == CursorAt(s, PlayTo(s, k + 1).value, k + 1)
      modifies this`stored
      ensures a.Saved? || a.Died?
      ensures a.Saved? ==> Exact(s, base, k + 1) && left + 1 == budget
      ensures a.Died? ==> Durable(s, base, k) && budget == 0
    {
      CursorsProgress(s, k);
      if budget == 0 {
        return Died, 0;
      }
      left := budget - 1;
      var ok := Save(next);
      a := if ok then Saved else CursorConflict;
    }

    // A unit without a row leaves nothing to be ahead of.
    lemma HoldsSame(s: Source, base: Table, k: nat)
      requires Durable(s, base, k) && k < |UnitsOf(s)|
      requires Classify(s, PlayTo(s, k).value.names, UnitsOf(s)[k]).Blank? || Classify(s, PlayTo(s, k).value.names, UnitsOf(s)[k]).Header?
      ensures HeldAt(s, base, k + 1, catalog.Contents())
    {
    }

    // One unit: decoded, upserted, then committed with its cursor.
    method Consume(s: Source, ghost base: Table, ghost k: nat, cursor: Cursor, unit_: Bytes, budget: nat)
      returns (a: Attempt, next: Cursor, left: nat)
      requires Durable(s, base, k) && k < |UnitsOf(s)| && unit_ == UnitsOf(s)[k] && cursor == Loaded(s)
      modifies this, catalog
      ensures a != CursorConflict
      ensures a.Saved? ==> Exact(s, base, k + 1) && next == Loaded(s) && left <= budget <= left + 2
      ensures a.Died? ==> Durable(s, base, k) && budget < 2
      ensures a.Rejected? ==> Exact(s, base, k) && Step(s, PlayTo(s, k).value, unit_) == Err(a.code)
      ensures var outcome := Classify(s, cursor.names, unit_);
              outcome.Row? && budget > 0 ==>
                && catalog.Contents() == AfterUpsert(old(catalog.Contents()), s.ident(PathOf(outcome.entry)), outcome.entry)
                && a == (if budget == 1 then Died else Saved)
    {
      var nextOffset := cursor.offset + |unit_|;
      OffsetStep(s, k);
      left := budget;
      match Classify(s, cursor.names, unit_)
      case Refused(code) =>
        a, next := Rejected(code), cursor;
      case Blank =>
        next := cursor.(offset := nextOffset);
        HoldsSame(s, base, k);
        a, left := Commit(s, base, k, next, budget);
      case Header(names) =>
        next := cursor.(offset := nextOffset, names := Some(names));
        HoldsSame(s, base, k);
        a, left := Commit(s, base, k, next, budget);
      case Row(e) =>
        next := cursor.(offset := nextOffset, records := cursor.records + 1);
        if left == 0 {
          return Died, next, 0;
        }
        var ok := Upsert(s, base, k, e);
        if !ok {
          return Rejected("metadata.catalog.upsert_failed"), cursor, left;
        }
        a, left := Commit(s, base, k, next, budget - 1);
    }

    // One unit, or the end of the run.
    method HandleUnit(s: Source, ghost base: Table, ghost k: nat, cursor: Cursor, unit_: Bytes, budget: nat)
      returns (done: Option<Run>, next: Cursor, left: nat, ghost j: nat)
      requires Durable(s, base, k) && k < |UnitsOf(s)| && unit_ == UnitsOf(s)[k] && cursor == Loaded(s)
      modifies this, catalog
      ensures Durable(s, base, j) && j == if done.None? then k + 1 else k
      ensures done.None? ==> next == Loaded(s) && left <= budget <= left + 2
      ensures done == Some(Crashed) ==> budget < 2
      ensures done.Some? && done.value.Done? ==> Exact(s, base, k) && Clean(s, START, 0) == Verdict(PlayTo(s, k).value, done.value.code)
    {
      var a: Attempt;
      a, next, left := Consume(s, base, k, cursor, unit_, budget);
      done, j := None, k;
      match a
      case Saved => j := k + 1;
      case Died => done := Some(Crashed);
      case Rejected(code) =>
        CleanStops(s, k, code);
        done := Some(Done(Some(code)));
    }

    method IngestJsonl(s: Source, ghost base: Table, ghost start: nat, budget: nat) returns (r: Run, ghost k: nat)
      requires s.format.Jsonl? && Durable(s, base, start)
      modifies this, catalog
      ensures start <= k && Durable(s, base, k)
      ensures r.Crashed? ==> budget < 2 * (|UnitsOf(s)| - start)
      ensures r.Done? ==> Exact(s, base, k) && Clean(s, START, 0) == Verdict(PlayTo(s, k).value, r.code)
    {
      k := start;
      var cursor, left: nat := Loaded(s), budget;
      StartReading(s, start);
      var framed := Frame(s.data[cursor.offset..], s.maxLine);
      var todo := framed.lines;
      while todo != []
        invariant start <= k && Durable(s, base, k) && cursor == Loaded(s)
        invariant todo == UnitsOf(s)[k..]
        invariant left + 2 * (k - start) >= budget
        decreases |todo|
      {
        DropMore(UnitsOf(s), k);
        var done: Option<Run>;
        done, cursor, left, k := HandleUnit(s, base, k, cursor, todo[0], left);
        if done.Some? {
          return done.value, k;
        }
        todo := todo[1..];
      }
      JsonlEnds(s, k);
      r := Done(if framed.tooLong then Some("metadata.parse.line_too_large") else None);
    }

    // Physical lines are gathered until the quotes close; only then is there a unit.
    method IngestCsv(s: Source, ghost base: Table, ghost start: nat, budget: nat) returns (r: Run, ghost k: nat)
      requires s.format.Csv? && Durable(s, base, start)
      modifies this, catalog
      ensures start <= k && Durable(s, base, k)
      ensures r.Crashed? ==> budget < 2 * (|UnitsOf(s)| - start)
      ensures r.Done? ==> Exact(s, base, k) && Clean(s, START, 0) == Verdict(PlayTo(s, k).value, r.code)
    {
      k := start;
      var cursor, left: nat := Loaded(s), budget;
      StartReading(s, start);
      var framed := Frame(s.data[cursor.offset..], s.maxLine);
      var pending: Bytes, inQuotes := [], false;
      var todo := framed.lines;
      while todo != []
        invariant start <= k && Durable(s, base, k) && cursor == Loaded(s)
        invariant Reading(s, k, todo, pending, inQuotes)
        invariant left + 2 * (k - start) >= budget
        decreases |todo|
      {
        var done: Option<Run>;
        done, cursor, pending, inQuotes, left, k := TakeLine(s, base, k, cursor, todo, pending, inQuotes, left);
        if done.Some? {
          return done.value, k;
        }
        todo := todo[1..];
      }
      CsvEnds(s, k, pending, inQuotes);
      r := Done(CsvVerdict(framed.tooLong, pending, inQuotes, cursor.names));
    }

    // One physical line: held back, or the end of a unit, or of the run.
    method TakeLine(s: Source, ghost base: Table, ghost k: nat, cursor: Cursor, todo: seq<Bytes>, pending: Bytes, inQuotes: bool, budget: nat)
      returns (done: Option<Run>, next: Cursor, held: Bytes, quoted: bool, left: nat, ghost j: nat)
      requires s.format.Csv? && Durable(s, base, k) && cursor == Loaded(s)
      requires todo != [] && Reading(s, k, todo, pending, inQuotes)
      modifies this, catalog
      ensures k <= j && Durable(s, base, j)
      ensures done.None? ==> next == Loaded(s) && Reading(s, j, todo[1..], held, quoted) && left + 2 * (j - k) >= budget
      ensures done == Some(Crashed) ==> j == k < |UnitsOf(s)| && budget < 2
      ensures done.Some? && done.value.Done? ==> Exact(s, base, j) && Clean(s, START, 0) == Verdict(PlayTo(s, j).value, done.value.code)
    {
      done, next, left, j := None, cursor, budget, k;
      var line := todo[0];
      ReadLine(s, k, todo, pending, inQuotes);
      held, quoted := pending, inQuotes;
      if |pending| + |line| > s.maxRecord {
        CsvTooLarge(s, k);
        done := Some(Done(Some("metadata.parse.record_too_large")));
        return;
      }
      held := pending + line;
      quoted := CsvQuoteState(line, inQuotes);
      if quoted {
        return;
      }
      done, next, left, j := HandleUnit(s, base, k, cursor, held, budget);
      held := [];
    }

    // One attempt: the stored cursor must belong to this version of the manifest.
    method Ingest(s: Source, ghost base: Table, ghost start: nat, budget: nat) returns (r: Run, ghost k: nat)
      requires Durable(s, base, start)
      modifies this, catalog
      ensures start <= k && Durable(s, base, k)
      ensures r.Crashed? ==> budget < 2 * (|UnitsOf(s)| - start)
      ensures r.Done? ==> Exact(s, base, k) && Clean(s, START, 0) == Verdict(PlayTo(s, k).value, r.code)
    {
      k := start;
      ghost var rest := BoundaryAt(s, start);
      if Loaded(s).version != s.version {
        return Done(Some("metadata.cursor.version_mismatch")), k;
      }
      if Loaded(s).offset > |s.data| {
        return Done(Some("metadata.cursor.offset_out_of_range")), k;
      }
      if s.format.Jsonl? {
        r, k := IngestJsonl(s, base, start, budget);
      } else {
        r, k := IngestCsv(s, base, start, budget);
      }
    }

    // Restarting after every crash, wherever the crashes fall, ends with the records, the
    // canonical pointers, the record count and the verdict of one clean run.  All a crash can
    // do to the catalog is to repeat rows; in a harmless run that does nothing.
    method IngestUntilDone(s: Source, crashes: seq<nat>) returns (code: Option<string>)
      requires Ready(s, catalog.Contents()) && stored.None?
      modifies this, catalog
      ensures var base, clean := old(catalog.Contents()), Clean(s, START, 0);
              && code == clean.code && Loaded(s).records == |clean.progress.rows| && Loaded(s).names == clean.progress.names
              && Similar(catalog.Contents(), TableAfter(s, base, clean.progress.rows))
              && Repeats(Upserting(s), base, clean.progress.rows, catalog.Contents())
              && (Harmless(s, base, clean.progress.rows) ==> catalog.Contents() == TableAfter(s, base, clean.progress.rows))
    {
      ghost var base := catalog.Contents();
      ghost var k: nat := 0;
      var r: Run;
      StartDurable(s);
      for i := 0 to |crashes|
        invariant Durable(s, base, k)
      {
        r, k := Ingest(s, base, k, crashes[i]);
        if r.Done? {
          HeldRelations(s, base, PlayTo(s, k).value.rows, catalog.Contents());
          return r.code;
        }
      }
      r, k := Ingest(s, base, k, 2 * |UnitsOf(s)|);
      HeldRelations(s, base, PlayTo(s, k).value.rows, catalog.Contents());
      code := r.code;
    }

    // The process dies between the upsert and the save of a row, and its successor takes the
    // row up again: at the new cursor the catalog is that of the clean run exactly when the
    // row is harmless.
    method DieAfterUpsert(s: Source, ghost base: Table, ghost k: nat, unit_: Bytes, ghost e: Entry)
      requires Exact(s, base, k) && k < |UnitsOf(s)| && unit_ == UnitsOf(s)[k]
      requires Classify(s, PlayTo(s, k).value.names, unit_) == Row(e)
      requires catalog.Contents() == TableAfter(s, base, PlayTo(s, k).value.rows)
      modifies this, catalog
      ensures Exact(s, base, k + 1) && PlayTo(s, k + 1).value.rows == PlayTo(s, k).value.rows + [e]
      ensures var rows := PlayTo(s, k + 1).value.rows;
              catalog.Contents() == TableAfter(s, base, rows) <==> HarmlessAt(s, base, rows, |rows| - 1)
    {
      ghost var rows := PlayTo(s, k).value.rows;
      ghost var before := catalog.Contents();
      NextHeld(s, base, k, catalog.Contents(), e);
      var died, next, left := Consume(s, base, k, Loaded(s), unit_, 1);
      assert catalog.Contents() == AfterUpsert(before, s.ident(PathOf(e)), e);
      var saved, after, rest := Consume(s, base, k, Loaded(s), unit_, 2);
      assert catalog.Contents() == AfterUpsert(AfterUpsert(before, s.ident(PathOf(e)), e), s.ident(PathOf(e)), e);
      assert before == TableAfter(s, base, rows);
      RepeatShowsIff(s, base, rows, e);
    }

    lemma StartDurable(s: Source)
      requires Ready(s, catalog.Contents()) && stored.None?
      ensures Durable(s, catalog.Contents(), 0)
    {
    }
  }

  lemma HeldRelations(s: Source, base: Table, rows: seq<Entry>, t: Table)
    requires Ready(s, base) && Holds(s, base, rows, t)
    ensures Harmless(s, base, rows) ==> t == TableAfter(s, base, rows)
  {
    if Harmless(s, base, rows) {
      AllStable(s, base, rows);
      var times :| |times| == |rows| && t == FoldAgain(Upserting(s), base, rows, times);
      StableStays(Upserting(s), base, rows, times);
    }
  }

  lemma JsonlEnds(s: Source, k: nat)
    requires s.format.Jsonl? && k <= |UnitsOf(s)| && UnitsOf(s)[k..] == [] && PlayTo(s, k).Some?
    ensures k == |UnitsOf(s)|
    ensures Clean(s, START, 0) == Verdict(PlayTo(s, k).value,
                                         if Frame(s.data, s.maxLine).tooLong then Some("metadata.parse.line_too_large") else None)
  {
    CleanEnds(s);
  }

  function CsvVerdict(tooLong: bool, pending: Bytes, inQuotes: bool, names: Option<seq<string>>): Option<string> {
    if tooLong then Some("metadata.parse.line_too_large")
    else if pending != [] || inQuotes then Some("metadata.parse.invalid_csv")
    else if names.None? then Some("metadata.parse.missing_csv_header")
    else None
  }

  lemma CsvEnds(s: Source, k: nat, pending: Bytes, inQuotes: bool)
    requires s.format.Csv? && Reading(s, k, [], pending, inQuotes) && PlayTo(s, k).Some?
    ensures k == |UnitsOf(s)|
    ensures var p := PlayTo(s, k).value;
            Clean(s, START, 0) == Verdict(p, CsvVerdict(Frame(s.data, s.maxLine).tooLong, pending, inQuotes, p.names))
  {
    ReadEnd(s, k, pending, inQuotes);
    CleanEnds(s);
  }

  lemma CsvTooLarge(s: Source, k: nat)
    requires s.format.Csv? && k == |UnitsOf(s)| && Units(s.data, s.maxLine, s.maxRecord).end == TooLarge && PlayTo(s, k).Some?
    ensures Clean(s, START, 0) == Verdict(PlayTo(s, k).value, Some("metadata.parse.record_too_large"))
  {
    CleanEnds(s);
  }

  // The lines ahead, with what is held back, assemble to the units after `k`.
  predicate Reading(s: Source, k: nat, todo: seq<Bytes>, pending: Bytes, inQuotes: bool) {
    k <= |UnitsOf(s)| && Assemble(todo, pending, inQuotes, s.maxRecord) == LeftOf(s, k)
  }

  lemma StartReading(s: Source, k: nat)
    requires k <= |UnitsOf(s)|
    ensures OffsetOf(s, k) <= |s.data|
    ensures var framed := Frame(s.data[OffsetOf(s, k)..], s.maxLine);
            && framed.tooLong == Frame(s.data, s.maxLine).tooLong
            && (s.format.Jsonl? ==> framed.lines == UnitsOf(s)[k..])
            && (s.format.Csv? ==> Reading(s, k, framed.lines, [], false))
  {
    var rest := BoundaryAt(s, k);
  }

  lemma ReadLine(s: Source, k: nat, todo: seq<Bytes>, pending: Bytes, inQuotes: bool)
    requires s.format.Csv? && Reading(s, k, todo, pending, inQuotes) && todo != []
    ensures |pending| + |todo[0]| > s.maxRecord ==> k == |UnitsOf(s)| && Units(s.data, s.maxLine, s.maxRecord).end == TooLarge
    ensures |pending| + |todo[0]| <= s.maxRecord ==>
              if Scan(todo[0], inQuotes, !inQuotes).0 then Reading(s, k, todo[1..], pending + todo[0], true)
              else k < |UnitsOf(s)| && UnitsOf(s)[k] == pending + todo[0] && Reading(s, k + 1, todo[1..], [], false)
  {
    AllRead(s, k);
    if |pending| + |todo[0]| <= s.maxRecord && !Scan(todo[0], inQuotes, !inQuotes).0 {
      TakeUnit(s, k, pending + todo[0], Assemble(todo[1..], [], false, s.maxRecord));
    }
  }

  lemma ReadEnd(s: Source, k: nat, pending: Bytes, inQuotes: bool)
    requires Reading(s, k, [], pending, inQuotes)
    ensures k == |UnitsOf(s)|
    ensures Units(s.data, s.maxLine, s.maxRecord).end == if pending == [] && !inQuotes then Complete else Partial
  {
    AllRead(s, k);
  }

  // The units after `k`, and how assembling them ends.
  function LeftOf(s: Source, k: nat): Assembled
    requires k <= |UnitsOf(s)|
  {
    Assembled(UnitsOf(s)[k..], Units(s.data, s.maxLine, s.maxRecord).end)
  }

  lemma AllRead(s: Source, k: nat)
    requires k <= |UnitsOf(s)|
    ensures LeftOf(s, k).records == [] ==> k == |UnitsOf(s)|
  {
  }

  lemma TakeUnit(s: Source, k: nat, unit_: Bytes, rest: Assembled)
    requires k <= |UnitsOf(s)| && LeftOf(s, k) == PrependRecord(unit_, rest)
    ensures k < |UnitsOf(s)| && UnitsOf(s)[k] == unit_ && LeftOf(s, k + 1) == rest
  {
    HeadTail(unit_, rest.records, UnitsOf(s)[k..]);
    DropMore(UnitsOf(s), k);
  }

  lemma DropMore(units: seq<Bytes>, k: nat)
    requires k < |units|
    ensures units[k..][1..] == units[k + 1..] && units[k..][0] == units[k]
  {
  }

  // ---------------------------------------------------------------- a crash that shows

  // A manifest of one row, which corrects the digest of a copied source.
  function OneRow(ident: Path -> nat): Source {
    Source(Jsonl, [123], "v1", 1000, 1000, (line: Bytes) => Ok(Corrected()), (line: Bytes) => Err("unused"),
           (names: seq<string>, line: Bytes) => Err("unused"), ident)
  }

  lemma OneRowRuns(ident: Path -> nat)
    ensures Clean(OneRow(ident), START, 0) == Verdict(Progress([Corrected()], None), None)
  {
    var s := OneRow(ident);
    assert LineLength(s.data) == 1 && s.data[..1] == s.data && s.data[1..] == [];
    assert Frame(s.data, s.maxLine).lines == [s.data];
    assert Clean(s, START, 0) == Clean(s, Progress([Corrected()], None), 1);
  }

  lemma CorrectionNotHarmless(s: Source, base: Table)
    requires base.sources == Copied() && Ready(s, base)
    ensures var id := s.ident(PathOf(Corrected()));
            && TableAfter(s, base, [Corrected()]) == AfterUpsert(base, id, Corrected())
            && Similar(AfterUpsert(base, id, Corrected()), AfterUpsert(AfterUpsert(base, id, Corrected()), id, Corrected()))
            && !HarmlessAt(s, base, [Corrected()], 0)
  {
    var id := s.ident(PathOf(Corrected()));
    assert [] + [Corrected()] == [Corrected()];
    TableAfterMore(s, base, [], Corrected());
    UpsertKeepsReady(s, base, Corrected());
    UpsertKeepsReady(s, AfterUpsert(base, id, Corrected()), Corrected());
    AgainSimilar(base, AfterUpsert(base, id, Corrected()), id, Corrected());
    ReplayMovesRelation(base, id);
    RepeatShowsIff(s, base, [], Corrected());
  }

  // Dying between the upsert and the save of the cursor repeats the upsert.  Here that leaves
  // the records and pointers of the clean run, but moves one pair of sources to another DOI.
  lemma CrashMovesRelation(ident: Path -> nat, base: Table)
    requires base.sources == Copied() && Ready(OneRow(ident), base)
    ensures var s := OneRow(ident);
            var clean := TableAfter(s, base, Clean(s, START, 0).progress.rows);
            var crashed := AfterUpsert(clean, ident(PathOf(Corrected())), Corrected());
            && Similar(clean, crashed) && Pair(3, 1) in clean.relations && Pair(3, 1) in crashed.relations
            && clean.relations[Pair(3, 1)] == Z && crashed.relations[Pair(3, 1)] == X && clean != crashed
            && !Harmless(s, base, Clean(s, START, 0).progress.rows)
  {
    OneRowRuns(ident);
    CorrectionNotHarmless(OneRow(ident), base);
    ReplayMovesRelation(base, ident(PathOf(Corrected())));
  }
}
