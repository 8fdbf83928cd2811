// What a clean run over a manifest stores, told by the decoders and the framing alone: the rows
// are the decoded records in their order, up to the first that does not decode.

module ManifestRows {
  import opened Common
  import opened Framing
  import opened Catalog
  import opened Manifest
  import Records

  // ---------------------------------------------------------------- CSV

  // The first record is the header; the others decode to these rows, up to the end or up to one
  // that is refused.
  predicate CsvDecodes(s: Source, names: seq<string>, rows: seq<Entry>, refused: Option<string>) {
    var records := Units(s.data, s.maxLine, s.maxRecord).records;
    && s.format.Csv? && |records| > |rows| && s.header(records[0]) == Ok(names)
    && (forall i :: 0 <= i < |rows| ==> s.row(names, records[i + 1]) == Ok(rows[i]))
    && match refused
       case None => |records| == |rows| + 1
       case Some(code) => |records| > |rows| + 1 && s.row(names, records[|rows| + 1]) == Err(code)
  }

  // How a CSV manifest ends after its last record.
  function CsvEnd(s: Source): Option<string> {
    var end := Units(s.data, s.maxLine, s.maxRecord).end;
    if end == TooLarge then Some("metadata.parse.record_too_large")
    else if Frame(s.data, s.maxLine).tooLong then Some("metadata.parse.line_too_large")
    else if end == Partial then Some("metadata.parse.invalid_csv")
    else None
  }

  lemma {:induction false} CsvRunFrom(s: Source, names: seq<string>, rows: seq<Entry>, refused: Option<string>, n: nat)
    requires CsvDecodes(s, names, rows, refused) && n <= |rows|
    ensures Clean(s, Progress(rows[..n], Some(names)), n + 1) == Verdict(Progress(rows, Some(names)), if refused.Some? then refused else CsvEnd(s))
    decreases |rows| - n
  {
    if n < |rows| {
      assert rows[..n] + [rows[n]] == rows[..n + 1];
      CsvRunFrom(s, names, rows, refused, n + 1);
    } else {
      assert rows[..n] == rows;
    }
  }

  // A CSV manifest yields its names and exactly its decoded rows.
  lemma CsvRun(s: Source, names: seq<string>, rows: seq<Entry>, refused: Option<string>)
    requires CsvDecodes(s, names, rows, refused)
    ensures Clean(s, START, 0) == Verdict(Progress(rows, Some(names)), if refused.Some? then refused else CsvEnd(s))
  {
    assert rows[..0] == [];
    CsvRunFrom(s, names, rows, refused, 0);
  }

  lemma {:induction false} CsvDecodesFrom(s: Source, names: seq<string>, rows: seq<Entry>) returns (all: seq<Entry>, refused: Option<string>)
    requires var records := Units(s.data, s.maxLine, s.maxRecord).records;
             && s.format.Csv? && |records| > |rows| && s.header(records[0]) == Ok(names)
             && forall i :: 0 <= i < |rows| ==> s.row(names, records[i + 1]) == Ok(rows[i])
    ensures CsvDecodes(s, names, all, refused)
    decreases |Units(s.data, s.maxLine, s.maxRecord).records| - |rows|
  {
    var records := Units(s.data, s.maxLine, s.maxRecord).records;
    all, refused := rows, None;
    if |rows| + 1 < |records| {
      match s.row(names, records[|rows| + 1])
      case Ok(e) => all, refused := CsvDecodesFrom(s, names, rows + [e]);
      case Err(code) => refused := Some(code);
    }
  }

  // Every CSV manifest is of this kind, or has no header that decodes.
  lemma CsvAlways(s: Source)
    requires s.format.Csv?
    ensures var records := Units(s.data, s.maxLine, s.maxRecord).records;
            if records == [] then Clean(s, START, 0) == Verdict(START, if CsvEnd(s).Some? then CsvEnd(s) else Some("metadata.parse.missing_csv_header"))
            else if s.header(records[0]).Err? then Clean(s, START, 0) == Verdict(START, Some(s.header(records[0]).error))
            else exists rows, refused :: CsvDecodes(s, s.header(records[0]).value, rows, refused)
  {
    var records := Units(s.data, s.maxLine, s.maxRecord).records;
    if records != [] && s.header(records[0]).Ok? {
      var rows, refused := CsvDecodesFrom(s, s.header(records[0]).value, []);
    }
  }

  // ---------------------------------------------------------------- JSON lines

  predicate IsBreak(c: byte) {
    c == LF || c == CR
  }

  // The body of a line is the line without the line breaks at its end.
  predicate BodyOf(line: Bytes, body: Bytes) {
    && body <= line && (forall i :: |body| <= i < |line| ==> IsBreak(line[i]))
    && (body != [] ==> !IsBreak(body[|body| - 1]))
  }

  lemma {:induction false} StripIsBody(line: Bytes, body: Bytes)
    requires BodyOf(line, body)
    ensures StripBreaks(line) == body
  {
    if line != [] && IsBreak(line[|line| - 1]) {
      assert body <= line[..|line| - 1];
      StripIsBody(line[..|line| - 1], body);
    } else {
      assert body == line;
    }
  }

  lemma {:induction false} HasBody(line: Bytes)
    ensures BodyOf(line, StripBreaks(line))
  {
    if line != [] && IsBreak(line[|line| - 1]) {
      HasBody(line[..|line| - 1]);
    }
  }

  function NonEmpty(bodies: seq<Bytes>): seq<Bytes> {
    if bodies == [] then []
    else NonEmpty(bodies[..|bodies| - 1]) + if bodies[|bodies| - 1] == [] then [] else [bodies[|bodies| - 1]]
  }

  lemma {:induction false} NonEmptyPrefix(bodies: seq<Bytes>, k: nat)
    requires k <= |bodies|
    ensures NonEmpty(bodies[..k]) <= NonEmpty(bodies)
  {
    if k < |bodies| {
      var front := bodies[..|bodies| - 1];
      assert front[..k] == bodies[..k];
      NonEmptyPrefix(front, k);
    } else {
      assert bodies[..k] == bodies;
    }
  }

  lemma NonEmptyNext(bodies: seq<Bytes>, k: nat)
    requires k < |bodies|
    ensures NonEmpty(bodies[..k + 1]) == NonEmpty(bodies[..k]) + if bodies[k] == [] then [] else [bodies[k]]
  {
    assert bodies[..k + 1][..k] == bodies[..k];
  }

  // The lines that are not empty decode to these rows, up to the end or to one that is refused.
  predicate JsonDecodes(s: Source, bodies: seq<Bytes>, rows: seq<Entry>, refused: Option<string>) {
    var lines, records := Frame(s.data, s.maxLine).lines, NonEmpty(bodies);
    && s.format.Jsonl? && |bodies| == |lines| && (forall i :: 0 <= i < |lines| ==> BodyOf(lines[i], bodies[i]))
    && |rows| <= |records| && (forall i :: 0 <= i < |rows| ==> s.json(records[i]) == Ok(rows[i]))
    && match refused
       case None => |records| == |rows|
       case Some(code) => |records| > |rows| && s.json(records[|rows|]) == Err(code)
  }

  function JsonEnd(s: Source): Option<string> {
    if Frame(s.data, s.maxLine).tooLong then Some("metadata.parse.line_too_large") else None
  }

  // The next line holds nothing, or the next record.
  lemma NextRecord(bodies: seq<Bytes>, k: nat)
    requires k < |bodies|
    ensures var n := |NonEmpty(bodies[..k])|;
            if bodies[k] == [] then |NonEmpty(bodies[..k + 1])| == n
            else |NonEmpty(bodies[..k + 1])| == n + 1 && n < |NonEmpty(bodies)| && NonEmpty(bodies)[n] == bodies[k]
  {
    NonEmptyNext(bodies, k);
    NonEmptyPrefix(bodies, k + 1);
  }

  lemma JsonStep(s: Source, bodies: seq<Bytes>, rows: seq<Entry>, refused: Option<string>, k: nat)
    requires JsonDecodes(s, bodies, rows, refused) && k < |bodies| && |NonEmpty(bodies[..k])| <= |rows|
    ensures var n := |NonEmpty(bodies[..k])|;
            var next := Step(s, Progress(rows[..n], None), UnitsOf(s)[k]);
            if bodies[k] == [] then next == Ok(Progress(rows[..n], None))
            else if n < |rows| then next == Ok(Progress(rows[..n + 1], None))
            else refused.Some? && next == Err(refused.value)
  {
    StripIsBody(UnitsOf(s)[k], bodies[k]);
    NextRecord(bodies, k);
    var n := |NonEmpty(bodies[..k])|;
    if n < |rows| {
      assert rows[..n] + [rows[n]] == rows[..n + 1];
    }
  }

  lemma {:induction false} JsonRunFrom(s: Source, bodies: seq<Bytes>, rows: seq<Entry>, refused: Option<string>, k: nat)
    requires JsonDecodes(s, bodies, rows, refused) && k <= |bodies| && |NonEmpty(bodies[..k])| <= |rows|
    ensures Clean(s, Progress(rows[..|NonEmpty(bodies[..k])|], None), k) == Verdict(Progress(rows, None), if refused.Some? then refused else JsonEnd(s))
    decreases |bodies| - k
  {
    var n := |NonEmpty(bodies[..k])|;
    if k == |bodies| {
      assert bodies[..k] == bodies;
      AllTaken(s, bodies, rows, refused);
    } else {
      JsonStep(s, bodies, rows, refused, k);
      NextRecord(bodies, k);
      if bodies[k] == [] || n < |rows| {
        JsonRunFrom(s, bodies, rows, refused, k + 1);
      } else {
        assert rows[..n] == rows;
      }
    }
  }

  lemma AllTaken(s: Source, bodies: seq<Bytes>, rows: seq<Entry>, refused: Option<string>)
    requires JsonDecodes(s, bodies, rows, refused) && |NonEmpty(bodies)| <= |rows|
    ensures refused.None? && rows[..|NonEmpty(bodies)|] == rows
  {
  }

  // A manifest of JSON lines yields exactly its decoded rows.
  lemma JsonRun(s: Source, bodies: seq<Bytes>, rows: seq<Entry>, refused: Option<string>)
    requires JsonDecodes(s, bodies, rows, refused)
    ensures Clean(s, START, 0) == Verdict(Progress(rows, None), if refused.Some? then refused else JsonEnd(s))
  {
    assert bodies[..0] == [] && rows[..0] == [];
    JsonRunFrom(s, bodies, rows, refused, 0);
  }

  lemma {:induction false} JsonDecodesFrom(s: Source, bodies: seq<Bytes>, rows: seq<Entry>) returns (all: seq<Entry>, refused: Option<string>)
    requires s.format.Jsonl? && |bodies| == |Frame(s.data, s.maxLine).lines|
    requires forall i :: 0 <= i < |bodies| ==> BodyOf(Frame(s.data, s.maxLine).lines[i], bodies[i])
    requires |rows| <= |NonEmpty(bodies)| && forall i :: 0 <= i < |rows| ==> s.json(NonEmpty(bodies)[i]) == Ok(rows[i])
    ensures JsonDecodes(s, bodies, all, refused)
    decreases |NonEmpty(bodies)| - |rows|
  {
    all, refused := rows, None;
    if |rows| < |NonEmpty(bodies)| {
      match s.json(NonEmpty(bodies)[|rows|])
      case Ok(e) => all, refused := JsonDecodesFrom(s, bodies, rows + [e]);
      case Err(code) => refused := Some(code);
    }
  }

  // Every manifest of JSON lines is of this kind.
  lemma JsonAlways(s: Source)
    requires s.format.Jsonl?
    ensures exists bodies, rows, refused :: JsonDecodes(s, bodies, rows, refused)
  {
    var lines := Frame(s.data, s.maxLine).lines;
    var bodies := seq(|lines|, i requires 0 <= i < |lines| => StripBreaks(lines[i]));
    forall i | 0 <= i < |lines|
      ensures BodyOf(lines[i], bodies[i])
    {
      HasBody(lines[i]);
    }
    var rows, refused := JsonDecodesFrom(s, bodies, []);
  }

  // ---------------------------------------------------------------- what ends up in the catalog

  function Upserts(s: Source, rows: seq<Entry>): seq<Upserted> {
    seq(|rows|, i requires 0 <= i < |rows| => Upserted(s.ident(PathOf(rows[i])), rows[i], []))
  }

  lemma OneMoreTold(s: Source, t: Table, front: seq<Entry>, e: Entry)
    requires Ready(s, t) && Records.TellsHistory(t.sources, Upserts(s, front))
    ensures Records.TellsHistory(AfterUpsert(t, s.ident(PathOf(e)), e).sources, Upserts(s, front + [e]))
  {
    var u := Upserted(s.ident(PathOf(e)), e, []);
    UpsertKeepsReady(s, t, e);
    Records.PutTells(t.sources, Upserts(s, front), u);
    assert Upserts(s, front + [e]) == Upserts(s, front) + [u];
  }

  // A clean run over these rows into an empty catalog leaves one record per path, holding what
  // the rows said about that path, the last word on each field.
  lemma {:induction false} RowsTellHistory(s: Source, rows: seq<Entry>)
    requires Ready(s, Table(map[], map[], map[]))
    ensures Records.TellsHistory(TableAfter(s, Table(map[], map[], map[]), rows).sources, Upserts(s, rows))
  {
    var empty := Table(map[], map[], map[]);
    if rows == [] {
      NothingTold();
    } else {
      var front, e := rows[..|rows| - 1], rows[|rows| - 1];
      RowsTellHistory(s, front);
      TableAfterReady(s, empty, front);
      OneMoreTold(s, TableAfter(s, empty, front), front, e);
      assert rows == front + [e];
      TableAfterMore(s, empty, front, e);
    }
  }

  lemma NothingTold()
    ensures Records.TellsHistory(map[], [])
  {
  }
}
