// Cutting a byte stream into lines, and lines into CSV records.  The framing loop sees
// chunks, the quote automaton sees lines; neither cut shows in what they produce.

module Framing {
  import opened Common

  type byte = b: int | 0 <= b < 256

  const LF: byte := 0x0A
  const CR: byte := 0x0D
  const QUOTE: byte := 0x22
  const COMMA: byte := 0x2C

  lemma Assoc(a: seq<byte>, b: seq<byte>, c: seq<byte>)
    ensures (a + b) + c == a + (b + c)
    ensures a + [] == a && [] + a == a
  {
  }

  lemma TakeTake(data: seq<byte>, n: nat, m: nat)
    requires m <= n <= |data|
    ensures data[..n][..m] == data[..m]
  {
  }

  // ---------------------------------------------------------------- lines

  // Index just past the first line feed, or the whole length if there is none.
  function LineLength(data: seq<byte>): (n: nat)
    ensures n <= |data|
    ensures data != [] ==> n > 0
    ensures LF !in data ==> n == |data|
    ensures LF in data ==> data[n - 1] == LF && LF !in data[..n - 1]
  {
    if data == [] then 0
    else if data[0] == LF then 1
    else
      var rest := LineLength(data[1..]);
      assert forall i :: 1 <= i < 1 + rest - 1 ==> data[i] == data[1..][i - 1];
      1 + rest
  }

  lemma {:induction false} LineLengthUnique(data: seq<byte>, n: nat)
    requires n < |data| && data[n] == LF && LF !in data[..n]
    ensures LineLength(data) == n + 1
  {
    if n > 0 {
      assert data[0] == data[..n][0];
      assert data[1..][..n - 1] == data[..n][1..];
      LineLengthUnique(data[1..], n - 1);
    }
  }

  lemma {:induction false} LineLengthLong(pending: seq<byte>, rest: seq<byte>)
    requires LF !in pending
    ensures LineLength(pending + rest) >= |pending|
  {
    if pending != [] {
      assert (pending + rest)[1..] == pending[1..] + rest;
      LineLengthLong(pending[1..], rest);
    }
  }

  // The lines of a stream, up to the first that is longer than `max`.
  datatype Framed = Framed(lines: seq<seq<byte>>, tooLong: bool)

  function Prepend(line: seq<byte>, rest: Framed): Framed {
    Framed([line] + rest.lines, rest.tooLong)
  }

  function Frame(data: seq<byte>, max: nat): Framed
    decreases |data|
  {
    if data == [] then Framed([], false)
    else
      var n := LineLength(data);
      if n > max then Framed([], true) else Prepend(data[..n], Frame(data[n..], max))
  }

  // A line has at most one line feed, and that at its end.
  predicate IsLine(line: seq<byte>, max: nat) {
    line != [] && LF !in line[..|line| - 1] && |line| <= max
  }

  predicate Ended(line: seq<byte>) {
    line != [] && line[|line| - 1] == LF
  }

  // What no line was cut from: empty, or starting with the line that is too long.
  function Unframed(data: seq<byte>, max: nat): seq<byte>
    decreases |data|
  {
    if data == [] then []
    else if LineLength(data) > max then data
    else Unframed(data[LineLength(data)..], max)
  }

  // Lines lose nothing: they concatenate back to the stream, or to what precedes the first
  // line that is too long.
  lemma {:induction false} FramingLossless(data: seq<byte>, max: nat)
    ensures data == Concat(Frame(data, max).lines) + Unframed(data, max)
    ensures Frame(data, max).tooLong <==> Unframed(data, max) != []
    decreases |data|
  {
    if data != [] && LineLength(data) <= max {
      var n := LineLength(data);
      FramingLossless(data[n..], max);
      ConcatFirst(data[..n], Frame(data[n..], max).lines);
      SplitJoin(data, n, Concat(Frame(data[n..], max).lines), Unframed(data[n..], max));
    }
  }

  lemma ConcatFirst(a: seq<byte>, rest: seq<seq<byte>>)
    ensures Concat([a] + rest) == a + Concat(rest)
  {
    assert ([a] + rest)[1..] == rest;
  }

  lemma SplitJoin(data: seq<byte>, n: nat, a: seq<byte>, b: seq<byte>)
    requires n <= |data| && data[n..] == a + b
    ensures data == (data[..n] + a) + b
  {
  }

  // Every line is one line within the limit, and only the last may lack its line feed.
  lemma {:induction false} FramingLines(data: seq<byte>, max: nat, i: nat)
    requires i < |Frame(data, max).lines|
    ensures IsLine(Frame(data, max).lines[i], max)
    ensures i < |Frame(data, max).lines| - 1 || Frame(data, max).tooLong ==> Ended(Frame(data, max).lines[i])
    decreases |data|
  {
    var n := LineLength(data);
    if i > 0 {
      FramingLines(data[n..], max, i - 1);
      assert Frame(data, max).lines[i] == Frame(data[n..], max).lines[i - 1];
    } else {
      FirstLine(data, max);
      assert Frame(data, max).lines[0] == data[..n];
    }
  }

  lemma FirstLine(data: seq<byte>, max: nat)
    requires data != [] && LineLength(data) <= max
    ensures IsLine(data[..LineLength(data)], max)
    ensures LineLength(data) < |data| ==> Ended(data[..LineLength(data)])
  {
    TakeTake(data, LineLength(data), LineLength(data) - 1);
  }

  lemma FrameLine(pending: seq<byte>, segment: seq<byte>, rest: seq<byte>, max: nat)
    requires LF !in pending && segment != [] && segment[|segment| - 1] == LF && LF !in segment[..|segment| - 1]
    ensures var data := pending + segment + rest;
            Frame(data, max) ==
            if |pending| + |segment| > max then Framed([], true) else Prepend(pending + segment, Frame(rest, max))
  {
    var data := pending + segment + rest;
    var n := |pending| + |segment| - 1;
    forall i | 0 <= i < n
      ensures data[i] != LF
    {
      if i < |pending| {
        assert data[i] == pending[i];
      } else {
        assert data[i] == segment[..|segment| - 1][i - |pending|];
      }
    }
    LineLengthUnique(data, n);
    assert data[..n + 1] == pending + segment && data[n + 1..] == rest;
  }

  lemma FrameOverlong(pending: seq<byte>, rest: seq<byte>, max: nat)
    requires LF !in pending && |pending| > max
    ensures Frame(pending + rest, max) == Framed([], true)
  {
    LineLengthLong(pending, rest);
  }

  function PrependAll(lines: seq<seq<byte>>, rest: Framed): Framed {
    Framed(lines + rest.lines, rest.tooLong)
  }

  // `chunk.find(b"\n", start)`
  method FindLineFeed(chunk: seq<byte>, start: nat) returns (index: int)
    requires start <= |chunk|
    ensures index == -1 || start <= index < |chunk|
    ensures index == -1 ==> LF !in chunk[start..]
    ensures index >= 0 ==> chunk[index] == LF && LF !in chunk[start..index]
  {
    index := start;
    while index < |chunk|
      invariant start <= index <= |chunk|
      invariant LF !in chunk[start..index]
    {
      if chunk[index] == LF {
        return;
      }
      index := index + 1;
    }
    return -1;
  }

  lemma PrependTwice(a: seq<seq<byte>>, b: seq<seq<byte>>, f: Framed)
    ensures PrependAll(a, PrependAll(b, f)) == PrependAll(a + b, f)
  {
  }

  // One chunk: the lines it completes and what stays pending, or a line that is too long.
  method SplitChunk(held: seq<byte>, chunk: seq<byte>, max: nat, ghost later: seq<byte>)
    returns (lines: seq<seq<byte>>, pending: seq<byte>, tooLong: bool)
    requires LF !in held && |held| <= max
    ensures LF !in pending && |pending| <= max
    ensures Frame(held + (chunk + later), max) == PrependAll(lines, if tooLong then Framed([], true) else Frame(pending + later, max))
  {
    lines, pending, tooLong := [], held, false;
    var start: nat := 0;
    assert chunk[0..] == chunk;
    var newline := FindLineFeed(chunk, start);
    while newline >= 0
      invariant start <= |chunk| && (newline == -1 || start <= newline < |chunk|)
      invariant newline == -1 ==> LF !in chunk[start..]
      invariant newline >= 0 ==> chunk[newline] == LF && LF !in chunk[start..newline]
      invariant LF !in pending && |pending| <= max
      invariant Frame(held + (chunk + later), max) == PrependAll(lines, FrameFrom(pending, chunk, start, later, max))
      decreases |chunk| - start, newline
    {
      var end: nat := newline + 1;
      var segment := chunk[start..end];
      SplitStep(Frame(held + (chunk + later), max), lines, pending, chunk, start, newline, later, max);
      if |pending| + |segment| > max {
        return lines, [], true;
      }
      lines := lines + [pending + segment];
      pending := [];
      start := end;
      newline := FindLineFeed(chunk, start);
    }
    var tail := chunk[start..];
    TailStep(pending, chunk, start, later, max);
    if |pending| + |tail| > max {
      return lines, [], true;
    }
    pending := pending + tail;
  }

  // Framing what is held back, the rest of the chunk, and everything after it.
  function FrameFrom(pending: seq<byte>, chunk: seq<byte>, start: nat, later: seq<byte>, max: nat): Framed
    requires start <= |chunk|
  {
    Frame(pending + (chunk[start..] + later), max)
  }

  lemma SegmentStep(pending: seq<byte>, chunk: seq<byte>, start: nat, newline: nat, later: seq<byte>, max: nat)
    requires start <= newline < |chunk| && LF !in pending && chunk[newline] == LF && LF !in chunk[start..newline]
    ensures FrameFrom(pending, chunk, start, later, max) ==
            if |pending| + (newline + 1 - start) > max then Framed([], true)
            else PrependAll([pending + chunk[start..newline + 1]], FrameFrom([], chunk, newline + 1, later, max))
  {
    var end := newline + 1;
    SegmentSplit(pending, chunk, start, end, later);
    FrameLine(pending, chunk[start..end], chunk[end..] + later, max);
    assert [] + (chunk[end..] + later) == chunk[end..] + later;
  }

  lemma SplitStep(total: Framed, lines: seq<seq<byte>>, pending: seq<byte>, chunk: seq<byte>, start: nat, newline: nat, later: seq<byte>, max: nat)
    requires start <= newline < |chunk| && LF !in pending && chunk[newline] == LF && LF !in chunk[start..newline]
    requires total == PrependAll(lines, FrameFrom(pending, chunk, start, later, max))
    ensures total ==
            if |pending| + (newline + 1 - start) > max then PrependAll(lines, Framed([], true))
            else PrependAll(lines + [pending + chunk[start..newline + 1]], FrameFrom([], chunk, newline + 1, later, max))
  {
    SegmentStep(pending, chunk, start, newline, later, max);
    PrependTwice(lines, [pending + chunk[start..newline + 1]], FrameFrom([], chunk, newline + 1, later, max));
  }

  lemma TailStep(pending: seq<byte>, chunk: seq<byte>, start: nat, later: seq<byte>, max: nat)
    requires start <= |chunk| && LF !in pending && LF !in chunk[start..]
    ensures FrameFrom(pending, chunk, start, later, max) ==
            if |pending| + |chunk[start..]| > max then Framed([], true) else Frame((pending + chunk[start..]) + later, max)
  {
    assert pending + (chunk[start..] + later) == (pending + chunk[start..]) + later;
    if |pending| + |chunk[start..]| > max {
      FrameOverlong(pending + chunk[start..], later, max);
    }
  }

  lemma SegmentSplit(pending: seq<byte>, chunk: seq<byte>, start: nat, end: nat, later: seq<byte>)
    requires start < end <= |chunk|
    ensures pending + (chunk[start..] + later) == pending + chunk[start..end] + (chunk[end..] + later)
    ensures chunk[start..end][..end - start - 1] == chunk[start..end - 1]
  {
    assert chunk[start..] == chunk[start..end] + chunk[end..];
  }

  // The framing loop over a stream of chunks depends on their concatenation only.
  method IterLines(chunks: seq<seq<byte>>, max: nat) returns (r: Framed)
    ensures r == Frame(Concat(chunks), max)
  {
    var lines: seq<seq<byte>> := [];
    var pending: seq<byte> := [];
    assert chunks[0..] == chunks && [] + Concat(chunks) == Concat(chunks);
    for k := 0 to |chunks|
      invariant LF !in pending && |pending| <= max
      invariant Frame(Concat(chunks), max) == PrependAll(lines, Frame(pending + Concat(chunks[k..]), max))
    {
      assert chunks[k..][1..] == chunks[k + 1..];
      var more, rest, tooLong := SplitChunk(pending, chunks[k], max, Concat(chunks[k + 1..]));
      PrependTwice(lines, more, if tooLong then Framed([], true) else Frame(rest + Concat(chunks[k + 1..]), max));
      lines := lines + more;
      if tooLong {
        return Framed(lines, true);
      }
      pending := rest;
    }
    assert pending + Concat(chunks[|chunks|..]) == pending;
    if pending != [] {
      LastLine(pending, max);
      lines := lines + [pending];
    }
    r := Framed(lines, false);
  }

  lemma LastLine(pending: seq<byte>, max: nat)
    requires LF !in pending && pending != [] && |pending| <= max
    ensures Frame(pending, max) == Framed([pending], false)
  {
    assert LineLength(pending) == |pending| && pending[..|pending|] == pending && pending[|pending|..] == [];
  }

  // ---------------------------------------------------------------- quotes

  // The automaton of quoted fields, with its look-ahead for doubled quotes.
  function Scan(raw: seq<byte>, inQuotes: bool, atFieldStart: bool): (bool, bool)
    decreases |raw|
  {
    if raw == [] then (inQuotes, atFieldStart)
    else if inQuotes then
      if raw[0] == QUOTE && |raw| > 1 && raw[1] == QUOTE then Scan(raw[2..], true, atFieldStart)
      else Scan(raw[1..], raw[0] != QUOTE, atFieldStart)
    else if raw[0] == COMMA then Scan(raw[1..], false, true)
    else if raw[0] == QUOTE && atFieldStart then Scan(raw[1..], true, false)
    else Scan(raw[1..], false, atFieldStart && (raw[0] == LF || raw[0] == CR))
  }

  method CsvQuoteState(raw: seq<byte>, inQuotes: bool) returns (r: bool)
    ensures r == Scan(raw, inQuotes, !inQuotes).0
  {
    var quoted := inQuotes;
    var atFieldStart := !inQuotes;
    var index := 0;
    while index < |raw|
      invariant 0 <= index <= |raw|
      invariant Scan(raw[index..], quoted, atFieldStart) == Scan(raw, inQuotes, !inQuotes)
    {
      var value := raw[index];
      assert raw[index..][1..] == raw[index + 1..];
      if quoted {
        if value == QUOTE {
          if index + 1 < |raw| && raw[index + 1] == QUOTE {
            assert raw[index..][2..] == raw[index + 2..];
            index := index + 2;
            continue;
          }
          quoted := false;
        }
        index := index + 1;
        continue;
      }
      if value == COMMA {
        atFieldStart := true;
      } else if value == QUOTE && atFieldStart {
        quoted := true;
        atFieldStart := false;
      } else if value != LF && value != CR {
        atFieldStart := false;
      }
      index := index + 1;
    }
    r := quoted;
  }

  // Scanning is compositional wherever the first part does not end in a quote.
  lemma {:induction false} ScanAppend(a: seq<byte>, b: seq<byte>, q: bool, s: bool)
    requires a == [] || a[|a| - 1] != QUOTE
    ensures Scan(a + b, q, s) == Scan(b, Scan(a, q, s).0, Scan(a, q, s).1)
    decreases |a|
  {
    if a == [] {
      assert a + b == b;
    } else {
      assert (a + b)[1..] == a[1..] + b;
      if q && a[0] == QUOTE && a[1] == QUOTE {
        assert (a + b)[2..] == a[2..] + b;
        ScanAppend(a[2..], b, true, s);
      } else if q {
        ScanAppend(a[1..], b, a[0] != QUOTE, s);
      } else if a[0] == COMMA {
        ScanAppend(a[1..], b, false, true);
      } else if a[0] == QUOTE && s {
        ScanAppend(a[1..], b, true, false);
      } else {
        ScanAppend(a[1..], b, false, s && (a[0] == LF || a[0] == CR));
      }
    }
  }

  // Inside quotes the scan is not at the start of a field.
  lemma {:induction false} QuotedIsNotStart(raw: seq<byte>, q: bool, s: bool)
    requires q ==> !s
    ensures Scan(raw, q, s).0 ==> !Scan(raw, q, s).1
    decreases |raw|
  {
    if raw != [] {
      if q && raw[0] == QUOTE && |raw| > 1 && raw[1] == QUOTE {
        QuotedIsNotStart(raw[2..], true, s);
      } else if q {
        QuotedIsNotStart(raw[1..], raw[0] != QUOTE, s);
      } else if raw[0] == COMMA {
        QuotedIsNotStart(raw[1..], false, true);
      } else if raw[0] == QUOTE && s {
        QuotedIsNotStart(raw[1..], true, false);
      } else {
        QuotedIsNotStart(raw[1..], false, s && (raw[0] == LF || raw[0] == CR));
      }
    }
  }

  // Carrying one bit from line to line sees what a scan of the whole record would see.
  lemma LineByLine(pending: seq<byte>, line: seq<byte>)
    requires pending == [] || pending[|pending| - 1] == LF
    requires pending != [] ==> Scan(pending, false, true).0
    ensures Scan(pending + line, false, true).0 == Scan(line, pending != [], pending == []).0
  {
    ScanAppend(pending, line, false, true);
    QuotedIsNotStart(pending, false, true);
  }

  // ---------------------------------------------------------------- CSV records

  datatype End = Complete | Partial | TooLarge

  datatype Assembled = Assembled(records: seq<seq<byte>>, end: End)

  function PrependRecord(record: seq<byte>, rest: Assembled): Assembled {
    Assembled([record] + rest.records, rest.end)
  }

  // Lines are held back while a quoted field is open.
  function Assemble(lines: seq<seq<byte>>, pending: seq<byte>, quoted: bool, limit: nat): Assembled {
    if lines == [] then Assembled([], if pending == [] && !quoted then Complete else Partial)
    else if |pending| + |lines[0]| > limit then Assembled([], TooLarge)
    else if Scan(lines[0], quoted, !quoted).0 then Assemble(lines[1..], pending + lines[0], true, limit)
    else PrependRecord(pending + lines[0], Assemble(lines[1..], [], false, limit))
  }

  // A record ends at the first line end at which a scan from its start is outside quotes.
  predicate IsRecord(r: seq<byte>) {
    && r != []
    && !Scan(r, false, true).0
    && forall k :: 0 <= k < |r| - 1 && r[k] == LF ==> Scan(r[..k + 1], false, true).0
  }

  // What precedes the next line end of an unfinished record.
  predicate IsPending(pending: seq<byte>, quoted: bool) {
    && (pending == [] <==> !quoted)
    && (pending != [] ==> Ended(pending))
    && forall k :: 0 <= k < |pending| && pending[k] == LF ==> Scan(pending[..k + 1], false, true).0
  }

  lemma LineInterior(line: seq<byte>, max: nat)
    requires IsLine(line, max)
    ensures forall i :: 0 <= i < |line| - 1 ==> line[i] != LF
  {
    forall i | 0 <= i < |line| - 1
      ensures line[i] != LF
    {
      assert line[i] == line[..|line| - 1][i];
    }
  }

  lemma PendingGrows(pending: seq<byte>, line: seq<byte>, quoted: bool, max: nat)
    requires IsPending(pending, quoted) && IsLine(line, max)
    ensures Scan(pending + line, false, true).0 == Scan(line, quoted, !quoted).0
    ensures !Scan(line, quoted, !quoted).0 ==> IsRecord(pending + line)
    ensures Scan(line, quoted, !quoted).0 && Ended(line) ==> IsPending(pending + line, true)
  {
    var all := pending + line;
    if pending != [] {
      assert pending[|pending| - 1] == LF && pending[..|pending|] == pending;
    }
    LineByLine(pending, line);
    LineInterior(line, max);
    forall k | 0 <= k < |all| - 1 && all[k] == LF
      ensures Scan(all[..k + 1], false, true).0
    {
      if k < |pending| {
        assert all[..k + 1] == pending[..k + 1];
      }
    }
    assert all[..|all|] == all;
  }

  predicate AreLines(lines: seq<seq<byte>>, max: nat) {
    && (forall i :: 0 <= i < |lines| ==> IsLine(lines[i], max))
    && (forall i :: 0 <= i < |lines| - 1 ==> Ended(lines[i]))
  }

  // The record loop yields records within the limit, which are the beginning of what it read;
  // it reports a complete end exactly when they are all of it.
  lemma {:induction false} AssembledRecords(lines: seq<seq<byte>>, pending: seq<byte>, quoted: bool, limit: nat, max: nat)
    requires AreLines(lines, max) && IsPending(pending, quoted)
    ensures var a := Assemble(lines, pending, quoted, limit);
            && (forall i :: 0 <= i < |a.records| ==> IsRecord(a.records[i]) && |a.records[i]| <= limit)
            && Concat(a.records) <= pending + Concat(lines)
            && (a.end == Complete <==> Concat(a.records) == pending + Concat(lines))
  {
    if lines == [] {
      Assoc(pending, [], []);
    } else {
      Assoc(pending, lines[0], Concat(lines[1..]));
      Assoc(Concat(lines[1..]), [], []);
      if |pending| + |lines[0]| <= limit {
        PendingGrows(pending, lines[0], quoted, max);
        if Scan(lines[0], quoted, !quoted).0 {
          if |lines| > 1 {
            AssembledRecords(lines[1..], pending + lines[0], true, limit, max);
          }
        } else {
          var later := Assemble(lines[1..], [], false, limit).records;
          AssembledRecords(lines[1..], [], false, limit, max);
          ConcatFirst(pending + lines[0], later);
          PrefixBoth(pending + lines[0], Concat(later), Concat(lines[1..]));
        }
      }
    }
  }

  lemma PrefixBoth(a: seq<byte>, b: seq<byte>, c: seq<byte>)
    ensures b <= c <==> a + b <= a + c
    ensures b == c <==> a + b == a + c
  {
    assert (a + b)[|a|..] == b && (a + c)[|a|..] == c;
    if a + b <= a + c {
      assert a + b == (a + c)[..|a + b|];
      assert b == c[..|b|];
    }
  }

  // ---------------------------------------------------------------- printed records

  // Fields as section 2 of RFC 4180 prints them.
  datatype Field = Plain(text: seq<byte>) | Quoted(text: seq<byte>)

  predicate ValidField(f: Field) {
    f.Plain? ==> forall i :: 0 <= i < |f.text| ==> f.text[i] !in {QUOTE, COMMA, CR, LF}
  }

  function Escape(text: seq<byte>): seq<byte> {
    if text == [] then []
    else (if text[0] == QUOTE then [QUOTE, QUOTE] else [text[0]]) + Escape(text[1..])
  }

  function PrintField(f: Field): seq<byte> {
    match f
    case Plain(text) => text
    case Quoted(text) => [QUOTE] + (Escape(text) + [QUOTE])
  }

  // How a record ends; the last one of a file may lack its line break.
  datatype Eol = CrLf | JustLf | Missing

  function LineBreak(eol: Eol): seq<byte> {
    match eol
    case CrLf => [CR, LF]
    case JustLf => [LF]
    case Missing => []
  }

  function PrintRecord(fields: seq<Field>, eol: Eol): seq<byte>
    requires fields != []
  {
    PrintField(fields[0]) + if |fields| == 1 then LineBreak(eol) else [COMMA] + PrintRecord(fields[1..], eol)
  }

  // A single empty field without a line break prints nothing at all.
  predicate Printable(fields: seq<Field>, eol: Eol) {
    ValidFields(fields) && (eol == Missing ==> fields != [Plain([])])
  }

  lemma {:induction false} ScanPlain(text: seq<byte>, rest: seq<byte>, start: bool)
    requires ValidField(Plain(text))
    ensures Scan(text + rest, false, start) == Scan(rest, false, start && text == [])
  {
    if text == [] {
      assert text + rest == rest;
    } else {
      assert (text + rest)[1..] == text[1..] + rest;
      assert text[0] !in {QUOTE, COMMA, CR, LF};
      assert forall i :: 0 <= i < |text[1..]| ==> text[1..][i] == text[i + 1];
      ScanPlain(text[1..], rest, false);
    }
  }

  lemma ScanDoubled(rest: seq<byte>)
    ensures Scan([QUOTE, QUOTE] + rest, true, false) == Scan(rest, true, false)
  {
    assert ([QUOTE, QUOTE] + rest)[2..] == rest;
  }

  lemma ScanQuotedByte(b: byte, rest: seq<byte>)
    requires b != QUOTE
    ensures Scan([b] + rest, true, false) == Scan(rest, true, false)
  {
    assert ([b] + rest)[1..] == rest;
  }

  lemma ScanClosing(rest: seq<byte>)
    requires rest == [] || rest[0] != QUOTE
    ensures Scan([QUOTE] + rest, true, false) == Scan(rest, false, false)
  {
    assert ([QUOTE] + rest)[1..] == rest;
  }

  lemma {:induction false} ScanEscaped(text: seq<byte>, tail: seq<byte>)
    ensures Scan(Escape(text) + tail, true, false) == Scan(tail, true, false)
  {
    if text == [] {
      assert Escape(text) + tail == tail;
    } else {
      var e := Escape(text[1..]) + tail;
      ScanEscaped(text[1..], tail);
      if text[0] == QUOTE {
        ScanDoubled(e);
        assert Escape(text) + tail == [QUOTE, QUOTE] + e;
      } else {
        ScanQuotedByte(text[0], e);
        assert Escape(text) + tail == [text[0]] + e;
      }
    }
  }

  lemma ScanField(f: Field, rest: seq<byte>)
    requires ValidField(f) && (rest == [] || rest[0] != QUOTE)
    ensures Scan(PrintField(f) + rest, false, true) == Scan(rest, false, f == Plain([]))
  {
    match f
    case Plain(text) => ScanPlain(text, rest, true);
    case Quoted(text) =>
      var all := PrintField(f) + rest;
      assert all == [QUOTE] + (Escape(text) + ([QUOTE] + rest));
      assert all[1..] == Escape(text) + ([QUOTE] + rest);
      ScanEscaped(text, [QUOTE] + rest);
      ScanClosing(rest);
  }

  // A cut inside an escaped text, not just after a quote, is inside the quotes.
  lemma {:induction false} ScanInside(text: seq<byte>, n: nat)
    requires n <= |Escape(text)| && (n > 0 ==> Escape(text)[n - 1] != QUOTE)
    ensures Scan(Escape(text)[..n], true, false) == (true, false)
  {
    if n > 0 {
      var e, rest := Escape(text), Escape(text[1..]);
      if text[0] == QUOTE {
        assert e == [QUOTE, QUOTE] + rest;
        assert e[..n][2..] == rest[..n - 2];
        ScanInside(text[1..], n - 2);
      } else {
        assert e == [text[0]] + rest;
        assert e[..n][1..] == rest[..n - 1];
        ScanInside(text[1..], n - 1);
      }
    }
  }

  lemma ScanLineBreak(eol: Eol, start: bool)
    ensures !Scan(LineBreak(eol), false, start).0
  {
    assert LineBreak(CrLf)[1..] == [LF] && [LF][1..] == [];
    assert !Scan([LF], false, start).0;
  }

  predicate ValidFields(fields: seq<Field>) {
    fields != [] && forall i :: 0 <= i < |fields| ==> ValidField(fields[i])
  }

  lemma ScanComma(more: seq<byte>, start: bool)
    ensures Scan([COMMA] + more, false, start) == Scan(more, false, true)
  {
    assert ([COMMA] + more)[1..] == more;
  }

  lemma ScanOpening(more: seq<byte>)
    ensures Scan([QUOTE] + more, false, true) == Scan(more, true, false)
  {
    assert ([QUOTE] + more)[1..] == more;
  }

  lemma EndedAppend(a: seq<byte>, b: seq<byte>)
    requires Ended(b)
    ensures Ended(a + b)
  {
  }

  lemma {:induction false} PrintedEnds(fields: seq<Field>, eol: Eol)
    requires ValidFields(fields) && eol != Missing
    ensures Ended(PrintRecord(fields, eol))
  {
    if |fields| > 1 {
      PrintedEnds(fields[1..], eol);
      EndedAppend([COMMA], PrintRecord(fields[1..], eol));
      EndedAppend(PrintField(fields[0]), [COMMA] + PrintRecord(fields[1..], eol));
    } else {
      EndedAppend(PrintField(fields[0]), LineBreak(eol));
    }
  }

  lemma {:induction false} PrintedUnended(fields: seq<Field>)
    requires ValidFields(fields)
    ensures !Ended(PrintRecord(fields, Missing))
    ensures PrintRecord(fields, Missing) == [] <==> fields == [Plain([])]
  {
    var p := PrintField(fields[0]);
    assert p != [] ==> p[|p| - 1] != LF;
    if |fields| > 1 {
      var more := PrintRecord(fields[1..], Missing);
      PrintedUnended(fields[1..]);
      assert PrintRecord(fields, Missing) == (p + [COMMA]) + more;
    } else {
      assert PrintRecord(fields, Missing) == p;
    }
  }

  lemma {:induction false} PrintedIsBalanced(fields: seq<Field>, eol: Eol)
    requires ValidFields(fields)
    ensures !Scan(PrintRecord(fields, eol), false, true).0
  {
    var f := fields[0];
    if |fields| == 1 {
      ScanField(f, LineBreak(eol));
      ScanLineBreak(eol, f == Plain([]));
    } else {
      var more := PrintRecord(fields[1..], eol);
      PrintedIsBalanced(fields[1..], eol);
      ScanField(f, [COMMA] + more);
      ScanComma(more, f == Plain([]));
    }
  }

  // A line end before the last of a printed record lies inside a quoted field.
  lemma {:induction false} PrintedInside(fields: seq<Field>, eol: Eol, k: nat)
    requires ValidFields(fields) && k < |PrintRecord(fields, eol)| - 1 && PrintRecord(fields, eol)[k] == LF
    ensures Scan(PrintRecord(fields, eol)[..k + 1], false, true).0
  {
    var f, r := fields[0], PrintRecord(fields, eol);
    var p := PrintField(f);
    if k < |p| {
      CutEarlier(p, if |fields| == 1 then LineBreak(eol) else [COMMA] + PrintRecord(fields[1..], eol), k);
      CutInField(f, k);
    } else {
      var more := PrintRecord(fields[1..], eol);
      CutLater(p, more, k);
      PrintedInside(fields[1..], eol, k - |p| - 1);
      ScanField(f, [COMMA] + more[..k - |p|]);
      ScanComma(more[..k - |p|], f == Plain([]));
    }
  }

  lemma CutEarlier(p: seq<byte>, rest: seq<byte>, k: nat)
    requires k < |p|
    ensures (p + rest)[k] == p[k] && (p + rest)[..k + 1] == p[..k + 1]
  {
  }

  lemma CutLater(p: seq<byte>, more: seq<byte>, k: nat)
    requires |p| <= k < |p| + 1 + |more| && (p + ([COMMA] + more))[k] == LF
    ensures k > |p| && more[k - |p| - 1] == LF
    ensures (p + ([COMMA] + more))[..k + 1] == p + ([COMMA] + more[..k - |p|])
  {
  }

  lemma CutInField(f: Field, k: nat)
    requires ValidField(f) && k < |PrintField(f)| && PrintField(f)[k] == LF
    ensures Scan(PrintField(f)[..k + 1], false, true).0
  {
    if f.Quoted? {
      QuotedPrefix(Escape(f.text), k);
      ScanInside(f.text, k);
      ScanOpening(Escape(f.text)[..k]);
    }
  }

  lemma QuotedPrefix(e: seq<byte>, k: nat)
    requires k < |e| + 2 && ([QUOTE] + (e + [QUOTE]))[k] == LF
    ensures 1 <= k <= |e| && e[k - 1] == LF && ([QUOTE] + (e + [QUOTE]))[..k + 1] == [QUOTE] + e[..k]
  {
  }

  // Every record printed by those rules is one record to the quote automaton.
  lemma PrintedIsRecord(fields: seq<Field>, eol: Eol)
    requires Printable(fields, eol)
    ensures IsRecord(PrintRecord(fields, eol)) && (Ended(PrintRecord(fields, eol)) <==> eol != Missing)
  {
    PrintedIsBalanced(fields, eol);
    if eol == Missing {
      PrintedUnended(fields);
    } else {
      PrintedEnds(fields, eol);
    }
    forall k | 0 <= k < |PrintRecord(fields, eol)| - 1 && PrintRecord(fields, eol)[k] == LF
      ensures Scan(PrintRecord(fields, eol)[..k + 1], false, true).0
    {
      PrintedInside(fields, eol, k);
    }
  }

  // ---------------------------------------------------------------- whole files

  // What framing and assembling make of a file from some point on.
  function Units(data: seq<byte>, max: nat, limit: nat): Assembled {
    Assemble(Frame(data, max).lines, [], false, limit)
  }

  lemma NextLine(line: seq<byte>, rest: seq<byte>, max: nat)
    requires Ended(line) && LF !in line[..|line| - 1] && !Frame(line + rest, max).tooLong
    ensures !Frame(rest, max).tooLong && Frame(line + rest, max).lines == [line] + Frame(rest, max).lines
  {
    assert [] + line + rest == line + rest && [] + line == line;
    FrameLine([], line, rest, max);
  }

  lemma AssembleNext(line: seq<byte>, lines: seq<seq<byte>>, pending: seq<byte>, quoted: bool, limit: nat)
    requires |pending| + |line| <= limit
    ensures Assemble([line] + lines, pending, quoted, limit) ==
            if Scan(line, quoted, !quoted).0 then Assemble(lines, pending + line, true, limit)
            else PrependRecord(pending + line, Assemble(lines, [], false, limit))
  {
    assert ([line] + lines)[1..] == lines;
  }

  lemma CutLine(todo: seq<byte>) returns (line: seq<byte>, tail: seq<byte>)
    requires Ended(todo)
    ensures todo == line + tail && Ended(line) && LF !in line[..|line| - 1] && |tail| < |todo| && (tail != [] ==> Ended(tail))
  {
    LfInside(todo, |todo| - 1);
    var n := LineLength(todo);
    line, tail := todo[..n], todo[n..];
    assert line[..n - 1] == todo[..n - 1];
  }

  // Reading on from inside a record reaches the end of that record and no further.
  lemma {:induction false} FinishRecord(done: seq<byte>, todo: seq<byte>, rest: seq<byte>, max: nat, limit: nat)
    requires IsRecord(done + todo) && Ended(todo) && |done + todo| <= limit
    requires done == [] || Ended(done)
    requires !Frame(todo + rest, max).tooLong
    ensures !Frame(rest, max).tooLong
    ensures Assemble(Frame(todo + rest, max).lines, done, done != [], limit) == PrependRecord(done + todo, Units(rest, max, limit))
    decreases |todo|
  {
    var line, tail := CutLine(todo);
    Assoc(line, tail, rest);
    Assoc(done, line, tail);
    NextLine(line, tail + rest, max);
    AssembleNext(line, Frame(tail + rest, max).lines, done, done != [], limit);
    if done != [] {
      PrefixQuoted(done, todo);
    }
    LineByLine(done, line);
    EndedAppend(done, line);
    if tail != [] {
      PrefixQuoted(done + line, tail);
      FinishRecord(done + line, tail, rest, max, limit);
    } else {
      Assoc(done + line, [], []);
      Assoc(rest, [], []);
    }
  }

  // A last record without its line end is one record too.
  lemma {:induction false} FinishLast(done: seq<byte>, todo: seq<byte>, max: nat, limit: nat)
    requires IsRecord(done + todo) && todo != [] && !Ended(todo) && |done + todo| <= limit
    requires done == [] || Ended(done)
    requires !Frame(todo, max).tooLong
    ensures Assemble(Frame(todo, max).lines, done, done != [], limit) == Assembled([done + todo], Complete)
    decreases |todo|
  {
    if done != [] {
      PrefixQuoted(done, todo);
    }
    var n := LineLength(todo);
    var line, tail := todo[..n], todo[n..];
    LineByLine(done, line);
    if LF in todo {
      assert todo == line + tail && line[..n - 1] == todo[..n - 1];
      Assoc(done, line, tail);
      NextLine(line, tail, max);
      AssembleNext(line, Frame(tail, max).lines, done, done != [], limit);
      EndedAppend(done, line);
      PrefixQuoted(done + line, tail);
      FinishLast(done + line, tail, max, limit);
    } else {
      assert line == todo && tail == [];
      AssembleNext(todo, [], done, done != [], limit);
    }
  }

  lemma LfInside(data: seq<byte>, k: nat)
    requires k < |data| && data[k] == LF
    ensures LF in data
  {
  }

  lemma PrefixQuoted(p: seq<byte>, rest: seq<byte>)
    requires IsRecord(p + rest) && Ended(p) && rest != []
    ensures Scan(p, false, true).0
  {
    assert (p + rest)[..|p| - 1 + 1] == p && (p + rest)[|p| - 1] == LF;
  }

  lemma FirstRecord(records: seq<seq<byte>>)
    requires records != []
    ensures Concat(records) == records[0] + Concat(records[1..])
    ensures PrependRecord(records[0], Assembled(records[1..], Complete)) == Assembled(records, Complete)
    ensures [] + records[0] == records[0]
  {
    assert records == [records[0]] + records[1..];
  }

  lemma LastRecord(records: seq<seq<byte>>)
    requires |records| == 1
    ensures Concat(records) == records[0] && records == [records[0]]
  {
    assert records[0] + Concat([]) == records[0];
  }

  // A file of records reads back as exactly those records, whatever line ends their quoted
  // fields contain, provided no line and no record is over its limit.
  lemma {:induction false} RecordsReassemble(records: seq<seq<byte>>, max: nat, limit: nat)
    requires forall i :: 0 <= i < |records| ==> IsRecord(records[i]) && |records[i]| <= limit
    requires forall i :: 0 <= i < |records| - 1 ==> Ended(records[i])
    requires !Frame(Concat(records), max).tooLong
    ensures Units(Concat(records), max, limit) == Assembled(records, Complete)
  {
    if records != [] {
      FirstRecord(records);
      if Ended(records[0]) {
        FinishRecord([], records[0], Concat(records[1..]), max, limit);
        RecordsReassemble(records[1..], max, limit);
      } else {
        LastRecord(records);
        FinishLast([], records[0], max, limit);
      }
    }
  }

  // Only the last record may be printed without its line break.
  predicate PrintableFile(rows: seq<seq<Field>>, eol: Eol, last: Eol) {
    eol != Missing && forall i :: 0 <= i < |rows| ==> Printable(rows[i], EolAt(rows, eol, last, i))
  }

  function EolAt(rows: seq<seq<Field>>, eol: Eol, last: Eol, i: int): Eol {
    if i == |rows| - 1 then last else eol
  }

  function PrintAll(rows: seq<seq<Field>>, eol: Eol, last: Eol): seq<seq<byte>>
    requires PrintableFile(rows, eol, last)
  {
    seq(|rows|, i requires 0 <= i < |rows| =>
      assert Printable(rows[i], EolAt(rows, eol, last, i)); PrintRecord(rows[i], EolAt(rows, eol, last, i)))
  }

  // The round trip of section 2 of RFC 4180 through chunks, lines and quote states, whether
  // or not the last record has its line break.
  lemma PrintedFilesReassemble(rows: seq<seq<Field>>, eol: Eol, last: Eol, max: nat, limit: nat)
    requires PrintableFile(rows, eol, last)
    requires forall i :: 0 <= i < |rows| ==> |PrintAll(rows, eol, last)[i]| <= limit
    requires !Frame(Concat(PrintAll(rows, eol, last)), max).tooLong
    ensures Units(Concat(PrintAll(rows, eol, last)), max, limit) == Assembled(PrintAll(rows, eol, last), Complete)
  {
    var printed := PrintAll(rows, eol, last);
    forall i | 0 <= i < |rows|
      ensures IsRecord(printed[i]) && (i < |rows| - 1 ==> Ended(printed[i]))
    {
      assert Printable(rows[i], EolAt(rows, eol, last, i));
      PrintedIsRecord(rows[i], EolAt(rows, eol, last, i));
    }
    RecordsReassemble(printed, max, limit);
  }

  // Every unit of a file is a record within the limit; together they are the beginning of the
  // file, and all of it exactly when it ends complete and no line is too long.
  lemma UnitsAreRecords(data: seq<byte>, max: nat, limit: nat)
    ensures forall i :: 0 <= i < |Units(data, max, limit).records| ==>
              IsRecord(Units(data, max, limit).records[i]) && |Units(data, max, limit).records[i]| <= limit
    ensures Concat(Units(data, max, limit).records) <= data
    ensures Concat(Units(data, max, limit).records) == data <==> Units(data, max, limit).end == Complete && !Frame(data, max).tooLong
  {
    var lines := Frame(data, max).lines;
    forall i | 0 <= i < |lines|
      ensures IsLine(lines[i], max) && (i < |lines| - 1 ==> Ended(lines[i]))
    {
      FramingLines(data, max, i);
    }
    AssembledRecords(lines, [], false, limit, max);
    FramingLossless(data, max);
    Assoc(Concat(lines), [], []);
    PrefixOfPrefix(Concat(Units(data, max, limit).records), Concat(lines), Unframed(data, max));
  }

  lemma PrefixOfPrefix(a: seq<byte>, b: seq<byte>, c: seq<byte>)
    requires a <= b
    ensures a <= b + c && (a == b + c <==> a == b && c == [])
  {
    if a == b + c {
      assert |a| == |b| + |c|;
    }
  }
}
