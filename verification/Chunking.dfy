// Cutting textbook blocks into bounded chunks: sentences are packed into units, units into
// bodies, and every body is rendered under a prefix that names its place in the book.

module Chunking {
  import opened Common

  datatype Policy = Policy(target: int, max: int, overlap: int, minContent: int)

  predicate ValidPolicy(p: Policy) {
    80 <= p.target <= p.max && 0 <= p.overlap < p.target && 1 <= p.minContent
  }

  datatype Block = Block(text: string, page: Option<int>, section: Option<string>)

  // The prefix names the book, the section and the page; it starts with a bracket.
  datatype Document = Document(prefix: (Option<int>, Option<string>) -> string)

  ghost predicate ValidDocument(d: Document) {
    forall p, s :: d.prefix(p, s) != "" && !Blank(d.prefix(p, s)[0])
  }

  datatype Body = Body(text: string, page: Option<int>, pageEnd: Option<int>, section: Option<string>)

  // ---------------------------------------------------------------- blank characters

  predicate Blank(c: char) {
    || '\U{0009}' <= c <= '\U{000D}' || '\U{001C}' <= c <= ' ' || '\U{2000}' <= c <= '\U{200A}'
    || c in {'\U{0085}', '\U{00A0}', '\U{1680}', '\U{2028}', '\U{2029}', '\U{202F}', '\U{205F}', '\U{3000}'}
  }

  function StripLeft(s: string): string {
    if s != "" && Blank(s[0]) then StripLeft(s[1..]) else s
  }

  function StripRight(s: string): string {
    if s != "" && Blank(s[|s| - 1]) then StripRight(s[..|s| - 1]) else s
  }

  function Strip(s: string): string {
    StripRight(StripLeft(s))
  }

  predicate Trimmed(s: string) {
    s != "" && !Blank(s[0]) && !Blank(s[|s| - 1])
  }

  // The characters that are not blank, in order.
  function Visible(s: string): string {
    if s == "" then "" else (if Blank(s[0]) then "" else [s[0]]) + Visible(s[1..])
  }

  lemma {:induction false} VisibleAppend(a: string, b: string)
    ensures Visible(a + b) == Visible(a) + Visible(b)
  {
    if a == "" {
      assert a + b == b;
    } else {
      assert (a + b)[1..] == a[1..] + b;
      VisibleAppend(a[1..], b);
    }
  }

  lemma {:induction false} StripLeftFacts(s: string)
    ensures StripLeft(s) == "" || !Blank(StripLeft(s)[0])
    ensures Visible(StripLeft(s)) == Visible(s) && |StripLeft(s)| <= |s|
  {
    if s != "" && Blank(s[0]) {
      StripLeftFacts(s[1..]);
    }
  }

  lemma {:induction false} StripRightFacts(s: string)
    ensures StripRight(s) == "" || !Blank(StripRight(s)[|StripRight(s)| - 1])
    ensures Visible(StripRight(s)) == Visible(s) && |StripRight(s)| <= |s|
    ensures StripRight(s) != "" ==> StripRight(s)[0] == s[0]
    ensures s != "" && !Blank(s[0]) ==> StripRight(s) != ""
  {
    if s != "" && Blank(s[|s| - 1]) {
      var front := s[..|s| - 1];
      StripRightFacts(front);
      assert s == front + [s[|s| - 1]];
      VisibleAppend(front, [s[|s| - 1]]);
    }
  }

  lemma StripFacts(s: string)
    ensures Strip(s) == "" || Trimmed(Strip(s))
    ensures Visible(Strip(s)) == Visible(s) && |Strip(s)| <= |s|
  {
    StripLeftFacts(s);
    StripRightFacts(StripLeft(s));
  }

  lemma StripTrimmed(s: string)
    requires Trimmed(s)
    ensures Strip(s) == s
  {
  }

  // ---------------------------------------------------------------- sentences

  predicate Stop(c: char) {
    c in {'。', '！', '？', '.', '!', '?', '；', ';'}
  }

  // Cut after every stop, strip the pieces, and drop the empty ones.
  function Sentences(text: string, held: string): seq<string>
    decreases |text|
  {
    if text == "" then Kept(held)
    else if Stop(text[0]) then Kept(held + [text[0]]) + Sentences(text[1..], "")
    else Sentences(text[1..], held + [text[0]])
  }

  function Kept(piece: string): seq<string> {
    if Strip(piece) == "" then [] else [Strip(piece)]
  }

  predicate AllTrimmed(parts: seq<string>) {
    forall i :: 0 <= i < |parts| ==> Trimmed(parts[i])
  }

  lemma KeptFacts(piece: string)
    ensures AllTrimmed(Kept(piece)) && Visible(Concat(Kept(piece))) == Visible(piece)
  {
    StripFacts(piece);
    if Strip(piece) != "" {
      VisibleOne(Strip(piece));
    }
  }

  // A sentence ends at its first stop.
  predicate NoStopInside(parts: seq<string>) {
    forall i, k :: 0 <= i < |parts| && 0 <= k < |parts[i]| - 1 ==> parts[i][k] !in "。！？.!?；;"
  }

  lemma StripInside(piece: string)
    requires forall k :: 0 <= k < |piece| - 1 ==> piece[k] !in "。！？.!?；;"
    ensures forall k :: 0 <= k < |Strip(piece)| - 1 ==> Strip(piece)[k] !in "。！？.!?；;"
  {
    StripLeftSuffix(piece);
    StripRightPrefix(StripLeft(piece));
  }

  lemma {:induction false} StripLeftSuffix(s: string)
    ensures |StripLeft(s)| <= |s| && StripLeft(s) == s[|s| - |StripLeft(s)|..]
  {
    if s != "" && Blank(s[0]) {
      StripLeftSuffix(s[1..]);
    }
  }

  lemma {:induction false} StripRightPrefix(s: string)
    ensures StripRight(s) <= s
  {
    if s != "" && Blank(s[|s| - 1]) {
      StripRightPrefix(s[..|s| - 1]);
    }
  }

  lemma {:induction false} SentencesEndAtStops(text: string, held: string)
    requires forall k :: 0 <= k < |held| ==> held[k] !in "。！？.!?；;"
    ensures NoStopInside(Sentences(text, held))
    decreases |text|
  {
    if text == "" {
      StripInside(held);
    } else if Stop(text[0]) {
      StripInside(held + [text[0]]);
      SentencesEndAtStops(text[1..], "");
    } else {
      SentencesEndAtStops(text[1..], held + [text[0]]);
    }
  }

  lemma {:induction false} SentencesFacts(text: string, held: string)
    ensures AllTrimmed(Sentences(text, held))
    ensures Visible(Concat(Sentences(text, held))) == Visible(held + text)
    decreases |text|
  {
    if text == "" {
      KeptFacts(held);
      assert held + text == held;
    } else {
      var next := held + [text[0]];
      assert next + text[1..] == held + text;
      if Stop(text[0]) {
        KeptFacts(next);
        SentencesFacts(text[1..], "");
        assert "" + text[1..] == text[1..];
        ConcatAppend(Kept(next), Sentences(text[1..], ""));
        VisibleAppend(Concat(Kept(next)), Concat(Sentences(text[1..], "")));
        VisibleAppend(next, text[1..]);
      } else {
        SentencesFacts(text[1..], next);
      }
    }
  }

  // ---------------------------------------------------------------- units

  predicate AreUnits(units: seq<string>, budget: int) {
    forall i :: 0 <= i < |units| ==> Trimmed(units[i]) && |units[i]| <= budget
  }

  lemma VisibleConcat(a: seq<string>, b: seq<string>)
    ensures Visible(Concat(a + b)) == Visible(Concat(a)) + Visible(Concat(b))
  {
    ConcatAppend(a, b);
    VisibleAppend(Concat(a), Concat(b));
  }

  lemma VisibleOne(s: string)
    ensures Visible(Concat([s])) == Visible(s)
  {
    assert Concat([s]) == s + Concat([]);
    assert s + "" == s;
  }

  lemma JoinTrimmed(a: string, b: string, gap: string)
    requires Trimmed(a) && Trimmed(b)
    ensures Trimmed(a + gap + b)
  {
  }

  // What so many pieces of full width take.
  function Widths(budget: int, n: nat): int {
    if n == 0 then 0 else Widths(budget, n - 1) + budget
  }

  lemma {:induction false} WidthsGrow(budget: int, m: nat, n: nat)
    requires budget >= 0 && m <= n
    ensures Widths(budget, m) <= Widths(budget, n)
  {
    if m < n {
      WidthsGrow(budget, m, n - 1);
    }
  }

  // Pieces of full width up to `start`, stripped, the empty ones dropped.
  predicate Cut(sentence: string, units: seq<string>, start: int, cuts: nat, budget: int) {
    && 0 <= start <= |sentence|
    && AreUnits(units, budget) && Visible(Concat(units)) == Visible(sentence[..start])
    && |units| <= cuts
    && (start < |sentence| ==> start == Widths(budget, cuts))
    && (cuts > 0 ==> Widths(budget, cuts - 1) < |sentence|)
  }

  lemma CutNothing(sentence: string, budget: int)
    requires budget >= 1
    ensures Cut(sentence, [], 0, 0, budget)
  {
    assert sentence[..0] == "";
  }

  lemma CutMore(sentence: string, units: seq<string>, start: int, cuts: nat, budget: int)
    requires budget >= 1 && Cut(sentence, units, start, cuts, budget) && start < |sentence|
    ensures var end := Min(start + budget, |sentence|);
            var piece := Strip(sentence[start..end]);
            Cut(sentence, if piece == "" then units else units + [piece], end, cuts + 1, budget)
  {
    var end := Min(start + budget, |sentence|);
    var piece := Strip(sentence[start..end]);
    StripFacts(sentence[start..end]);
    assert sentence[..end] == sentence[..start] + sentence[start..end];
    VisibleAppend(sentence[..start], sentence[start..end]);
    VisibleConcat(units, [piece]);
    VisibleOne(piece);
  }

  lemma {:induction false} CutAll(sentence: string, units: seq<string>, cuts: nat, budget: int)
    requires budget >= 1 && Cut(sentence, units, |sentence|, cuts, budget)
    ensures AreUnits(units, budget) && Visible(Concat(units)) == Visible(sentence)
    ensures units != [] ==> Widths(budget, |units| - 1) < |sentence|
  {
    assert sentence[..|sentence|] == sentence;
    if units != [] {
      WidthsGrow(budget, |units| - 1, cuts - 1);
    }
  }

  // A sentence longer than the budget is cut at fixed widths.
  method CutSentence(sentence: string, budget: int) returns (units: seq<string>)
    requires budget >= 1
    ensures AreUnits(units, budget)
    ensures Visible(Concat(units)) == Visible(sentence)
    ensures units != [] ==> Widths(budget, |units| - 1) < |sentence|
  {
    units := [];
    var start := 0;
    ghost var cuts: nat := 0;
    CutNothing(sentence, budget);
    while start < |sentence|
      invariant Cut(sentence, units, start, cuts, budget)
      decreases |sentence| - start
    {
      var end := Min(start + budget, |sentence|);
      var piece := Strip(sentence[start..end]);
      CutMore(sentence, units, start, cuts, budget);
      if piece != "" {
        units := units + [piece];
      }
      start := end;
      cuts := cuts + 1;
    }
    CutAll(sentence, units, cuts, budget);
  }

  function WithHeld(units: seq<string>, held: string): seq<string> {
    if held == "" then units else units + [held]
  }

  // No two neighbours would have fitted into one unit.
  predicate Tight(units: seq<string>, budget: int) {
    forall i :: 0 <= i < |units| - 1 ==> |units[i]| + |units[i + 1]| > budget
  }

  lemma TightMore(units: seq<string>, held: string, grown: string, next: string, budget: int)
    requires held != "" && Tight(units + [held], budget) && |grown| >= |held|
    ensures Tight(units + [grown], budget)
    ensures |held| + |next| > budget ==> Tight(units + [held] + [next], budget)
  {
    var before, after, longer := units + [held], units + [grown], units + [held] + [next];
    forall i | 0 <= i < |after| - 1
      ensures |after[i]| + |after[i + 1]| > budget
    {
      assert |before[i]| + |before[i + 1]| > budget;
    }
    forall i | 0 <= i < |longer| - 1 && |held| + |next| > budget
      ensures |longer[i]| + |longer[i + 1]| > budget
    {
      assert i < |before| - 1 ==> |before[i]| + |before[i + 1]| > budget;
    }
  }

  // Nothing was split off too early, the held text included.
  predicate Packing(units: seq<string>, held: string, budget: int) {
    (held == "" ==> units == []) && Tight(WithHeld(units, held), budget)
  }

  lemma PackingMore(units: seq<string>, held: string, next: string, budget: int)
    requires |held| <= budget
    ensures Packing(units, held, budget) ==> Packing(units, held + next, budget)
    ensures Packing(units, held, budget) && |held + next| > budget ==> Packing(WithHeld(units, held), next, budget)
  {
    if held == "" {
      assert held + next == next;
    } else if Packing(units, held, budget) {
      TightMore(units, held, held + next, next, budget);
    }
  }

  predicate Short(sentences: seq<string>, budget: int) {
    forall i :: 0 <= i < |sentences| ==> |sentences[i]| <= budget
  }

  lemma ShortMore(sentences: seq<string>, s: string, budget: int)
    ensures Short(sentences + [s], budget) <==> Short(sentences, budget) && |s| <= budget
  {
    assert (sentences + [s])[|sentences|] == s;
    assert forall i :: 0 <= i < |sentences| ==> (sentences + [s])[i] == sentences[i];
  }

  lemma NothingHeld(units: seq<string>)
    ensures Visible(Concat(units)) + Visible("") == Visible(Concat(units))
  {
  }

  lemma Continued(units: seq<string>, held: string, next: string)
    ensures Visible(Concat(units)) + Visible(held + next) == (Visible(Concat(units)) + Visible(held)) + Visible(next)
    ensures held == "" ==> held + next == next
  {
    VisibleAppend(held, next);
  }

  method AddSentence(units: seq<string>, current: string, sentence: string, budget: int) returns (r: seq<string>, held: string)
    requires budget >= 1 && AreUnits(units, budget) && Trimmed(sentence)
    requires current == "" || (Trimmed(current) && |current| <= budget)
    ensures AreUnits(r, budget) && (held == "" || (Trimmed(held) && |held| <= budget))
    ensures Visible(Concat(r)) + Visible(held) == (Visible(Concat(units)) + Visible(current)) + Visible(sentence)
    ensures |sentence| <= budget && Packing(units, current, budget) ==> Packing(r, held, budget)
  {
    PackingMore(units, current, sentence, budget);
    if |sentence| > budget {
      r := Flush(units, current, budget);
      var pieces := CutSentence(sentence, budget);
      VisibleConcat(r, pieces);
      NothingHeld(r + pieces);
      return r + pieces, "";
    }
    if current != "" && |current + sentence| > budget {
      r := Flush(units, current, budget);
      return r, sentence;
    }
    Continued(units, current, sentence);
    held := if current == "" then sentence else current + sentence;
    r := units;
  }

  // Units fit the budget and keep every visible character of the text, in order.
  method SplitToUnits(text: string, budget: int) returns (units: seq<string>)
    requires budget >= 1
    ensures AreUnits(units, budget)
    ensures Visible(Concat(units)) == Visible(text)
    ensures Short(Sentences(text, ""), budget) ==> Tight(units, budget)
  {
    var sentences := Sentences(text, "");
    SentencesFacts(text, "");
    assert "" + text == text;
    units := [];
    var current := "";
    for i := 0 to |sentences|
      invariant AreUnits(units, budget)
      invariant current == "" || (Trimmed(current) && |current| <= budget)
      invariant Visible(Concat(units)) + Visible(current) == Visible(Concat(sentences[..i]))
      invariant Short(sentences[..i], budget) ==> Packing(units, current, budget)
    {
      assert sentences[..i + 1] == sentences[..i] + [sentences[i]];
      ShortMore(sentences[..i], sentences[i], budget);
      VisibleConcat(sentences[..i], [sentences[i]]);
      VisibleOne(sentences[i]);
      units, current := AddSentence(units, current, sentences[i], budget);
    }
    assert sentences[..|sentences|] == sentences;
    units := Flush(units, current, budget);
  }

  method Flush(units: seq<string>, current: string, budget: int) returns (r: seq<string>)
    requires AreUnits(units, budget) && (current == "" || (Trimmed(current) && |current| <= budget))
    ensures AreUnits(r, budget) && Visible(Concat(r)) == Visible(Concat(units)) + Visible(current)
    ensures r == WithHeld(units, current)
  {
    if current == "" {
      return units;
    }
    VisibleConcat(units, [current]);
    VisibleOne(current);
    r := units + [current];
  }

  // ---------------------------------------------------------------- bodies

  const GAP := "\n\n"

  function Render(d: Document, body: string, page: Option<int>, section: Option<string>): string {
    Strip(d.prefix(page, section) + GAP + Strip(body))
  }

  lemma RenderLength(d: Document, body: string, page: Option<int>, section: Option<string>)
    requires ValidDocument(d) && Trimmed(body)
    ensures |Render(d, body, page, section)| == |d.prefix(page, section)| + 2 + |body|
  {
    StripTrimmed(body);
    StripTrimmed(d.prefix(page, section) + GAP + body);
  }

  function Rendered(d: Document, b: Body): int {
    |Render(d, b.text, b.page, b.section)|
  }

  function Tail(text: string, n: int): string
    requires n >= 0
  {
    if |text| <= n then text else text[|text| - n..]
  }

  // The prefix of the block leaves at least 32 characters of the target.
  predicate Roomy(d: Document, p: Policy, b: Block) {
    |d.prefix(b.page, b.section)| + 2 + 32 <= p.target
  }

  function UnitBudget(d: Document, p: Policy, b: Block): int {
    Max(32, p.target - (|d.prefix(b.page, b.section)| + 2))
  }

  predicate Fits(d: Document, p: Policy, b: Body) {
    b.text == "" || (Trimmed(b.text) && Rendered(d, b) <= p.max)
  }

  // The unit continues the body, and the page range with it.
  predicate Continues(open: Body, next: Body, block: Block, unit_: string) {
    if open.text == "" then next == Body(unit_, block.page, block.page, block.section)
    else next == Body(open.text + GAP + unit_, open.page, if block.page.Some? then block.page else open.pageEnd, open.section)
  }

  // The unit starts the next body, after an overlap with the closed one or without.
  predicate Follows(p: Policy, open: Body, next: Body, block: Block, unit_: string, overlap: string)
    requires p.overlap >= 0
  {
    && open.text != ""
    && (overlap == "" || overlap == Strip(Tail(open.text, p.overlap)))
    && next == Body(if overlap == "" then unit_ else overlap + GAP + unit_,
                    if overlap == "" then block.page else open.pageEnd, block.page, block.section)
  }

  // Continued by the unit, the body would exceed the target.
  predicate Overflows(d: Document, p: Policy, text: string, page: Option<int>, section: Option<string>, unit_: string) {
    |Render(d, text + GAP + unit_, page, section)| > p.target
  }

  // The next body starts with the stripped tail of the closed one, unless there is none or it
  // would not fit with it.
  function OverlapOf(d: Document, p: Policy, block: Block, open: Body, unit_: string): string
    requires p.overlap >= 0
  {
    var tail := if p.overlap == 0 then "" else Strip(Tail(open.text, p.overlap));
    if tail == "" || |Render(d, tail + GAP + unit_, open.pageEnd, block.section)| > p.max then "" else tail
  }

  method AddUnit(d: Document, p: Policy, block: Block, open: Body, unit_: string)
    returns (next: Body, closed: bool, ghost overlap: string)
    requires ValidPolicy(p) && ValidDocument(d) && Trimmed(unit_) && |unit_| <= UnitBudget(d, p, block)
    ensures Roomy(d, p, block) && Fits(d, p, open) ==>
              && next.text != "" && Fits(d, p, next)
              && if closed then Follows(p, open, next, block, unit_, overlap) else Continues(open, next, block, unit_)
    ensures closed <==> open.text != "" && Overflows(d, p, open.text, open.page, open.section, unit_)
    ensures Roomy(d, p, block) && Fits(d, p, open) && closed ==> overlap == OverlapOf(d, p, block, open, unit_)
  {
    overlap, closed := "", false;
    var current := if open.text == "" then Body("", block.page, block.page, block.section) else open;
    var candidate := if current.text == "" then unit_ else current.text + GAP + unit_;
    FreshUnitFits(d, p, block, unit_);
    var rendered := |Render(d, candidate, current.page, current.section)|;
    if current.text != "" && rendered > p.target {
      closed := true;
      var tail := if p.overlap == 0 then "" else Strip(Tail(current.text, p.overlap));
      StripFacts(Tail(current.text, p.overlap));
      next := Body(if tail == "" then unit_ else Strip(tail + GAP + unit_),
                   if tail == "" then block.page else current.pageEnd, block.page, block.section);
      overlap := tail;
      if tail != "" {
        JoinTrimmed(tail, unit_, GAP);
        StripTrimmed(tail + GAP + unit_);
        if Rendered(d, next) > p.max {
          next := next.(text := unit_, page := block.page);
          overlap := "";
        }
      }
    } else {
      next := current.(text := candidate, pageEnd := if block.page.Some? then block.page else current.pageEnd);
      if current.text != "" {
        if Trimmed(current.text) {
          JoinTrimmed(current.text, unit_, GAP);
        }
      }
    }
    if Rendered(d, next) > p.max {
      var allowed := Max(1, p.max - |d.prefix(next.page, next.section)| - 2);
      next := next.(text := StripRight(next.text[..Min(allowed, |next.text|)]));
    }
  }

  // A unit within its budget fits the target under its own block's prefix.
  lemma FreshUnitFits(d: Document, p: Policy, block: Block, unit_: string)
    requires ValidDocument(d) && Trimmed(unit_) && |unit_| <= UnitBudget(d, p, block)
    ensures Roomy(d, p, block) ==> |Render(d, unit_, block.page, block.section)| <= p.target
  {
    RenderLength(d, unit_, block.page, block.section);
  }

  // ---------------------------------------------------------------- bodies of a document

  // What went into one body: an overlap with the body before, and whole units; its page and
  // section are those of its prefix.
  datatype Segment = Segment(overlap: string, units: seq<string>, page: Option<int>, section: Option<string>)

  function SegmentText(overlap: string, units: seq<string>): string {
    if units == [] then overlap
    else if |units| == 1 && overlap == "" then units[0]
    else SegmentText(overlap, units[..|units| - 1]) + GAP + units[|units| - 1]
  }

  function TextOf(s: Segment): string {
    SegmentText(s.overlap, s.units)
  }

  function AllUnits(segments: seq<Segment>): seq<string> {
    if segments == [] then [] else AllUnits(segments[..|segments| - 1]) + segments[|segments| - 1].units
  }

  // An overlap is the stripped tail of the text before it, and a text was closed only because
  // the next unit would have taken it beyond the target.
  predicate Linked(d: Document, p: Policy, segments: seq<Segment>)
    requires p.overlap >= 0
  {
    forall i :: 0 <= i < |segments| ==> LinkedAt(d, p, segments, i)
  }

  predicate LinkedAt(d: Document, p: Policy, segments: seq<Segment>, i: nat)
    requires p.overlap >= 0 && i < |segments|
  {
    if i == 0 then segments[i].overlap == "" else FollowsOn(d, p, segments[i - 1], segments[i])
  }

  predicate FollowsOn(d: Document, p: Policy, closed: Segment, next: Segment)
    requires p.overlap >= 0
  {
    && (next.overlap == "" || next.overlap == Strip(Tail(TextOf(closed), p.overlap)))
    && next.units != [] && Overflows(d, p, TextOf(closed), closed.page, closed.section, next.units[0])
  }

  // A text under the page and section of its prefix.
  datatype Placed = Placed(text: string, page: Option<int>, section: Option<string>)

  // The texts long enough to be kept.
  function KeptTexts(segments: seq<Segment>, minContent: int): seq<Placed> {
    if segments == [] then []
    else
      var last := segments[|segments| - 1];
      KeptTexts(segments[..|segments| - 1], minContent)
      + if |TextOf(last)| >= minContent then [Placed(TextOf(last), last.page, last.section)] else []
  }

  function Texts(bodies: seq<Body>): seq<Placed> {
    if bodies == [] then []
    else
      var last := bodies[|bodies| - 1];
      Texts(bodies[..|bodies| - 1]) + [Placed(last.text, last.page, last.section)]
  }

  lemma TextsAppend(bodies: seq<Body>, b: Body)
    ensures Texts(bodies + [b]) == Texts(bodies) + [Placed(b.text, b.page, b.section)]
  {
    assert (bodies + [b])[..|bodies|] == bodies;
  }

  lemma SegmentsAppend(segments: seq<Segment>, s: Segment, minContent: int)
    ensures AllUnits(segments + [s]) == AllUnits(segments) + s.units
    ensures KeptTexts(segments + [s], minContent) ==
            KeptTexts(segments, minContent) + if |TextOf(s)| >= minContent then [Placed(TextOf(s), s.page, s.section)] else []
  {
    assert (segments + [s])[..|segments|] == segments;
  }

  lemma SegmentGrows(overlap: string, units: seq<string>, unit_: string)
    requires units != []
    ensures SegmentText(overlap, units + [unit_]) == SegmentText(overlap, units) + GAP + unit_
  {
    assert (units + [unit_])[..|units|] == units;
  }

  lemma SegmentStarts(overlap: string, unit_: string)
    ensures SegmentText(overlap, [unit_]) == if overlap == "" then unit_ else overlap + GAP + unit_
  {
    assert [unit_][..0] == [];
  }

  predicate AllFit(d: Document, p: Policy, bodies: seq<Body>) {
    forall i :: 0 <= i < |bodies| ==> bodies[i].text != "" && Fits(d, p, bodies[i])
  }

  // The bodies made of the units so far: closed segments, and the one still open.
  ghost predicate Packed(d: Document, p: Policy, results: seq<Body>, closed: seq<Segment>, last: Segment, open: Body, units: seq<string>)
    requires p.overlap >= 0
  {
    && Fits(d, p, open)
    && AllFit(d, p, results)
    && Texts(results) == KeptTexts(closed, p.minContent)
    && AllUnits(closed) + last.units == units
    && Linked(d, p, closed + [last])
    && (if last.units == [] then open.text == "" && closed == [] && last.overlap == ""
        else open.text != "" && open.text == TextOf(last) && open.page == last.page && open.section == last.section)
  }

  function Grown(last: Segment, next: Body, unit_: string): Segment {
    Segment(last.overlap, last.units + [unit_], next.page, next.section)
  }

  lemma PackedContinues(d: Document, p: Policy, results: seq<Body>, closed: seq<Segment>, last: Segment, open: Body,
                        units: seq<string>, next: Body, block: Block, unit_: string)
    requires ValidPolicy(p) && Packed(d, p, results, closed, last, open, units)
    requires Continues(open, next, block, unit_) && next.text != "" && Fits(d, p, next)
    ensures Packed(d, p, results, closed, Grown(last, next, unit_), next, units + [unit_])
  {
    var grown := Grown(last, next, unit_);
    assert AllUnits(closed) + (last.units + [unit_]) == (AllUnits(closed) + last.units) + [unit_];
    if last.units == [] {
      assert last.units + [unit_] == [unit_];
      SegmentStarts("", unit_);
    } else {
      SegmentGrows(last.overlap, last.units, unit_);
    }
    LinkedLast(d, p, closed, last, grown);
  }

  lemma LinkedLast(d: Document, p: Policy, closed: seq<Segment>, last: Segment, other: Segment)
    requires p.overlap >= 0 && Linked(d, p, closed + [last]) && other.overlap == last.overlap
    requires closed != [] ==> last.units != [] && other.units != [] && other.units[0] == last.units[0]
    ensures Linked(d, p, closed + [other])
  {
    var a, b := closed + [last], closed + [other];
    forall i | 0 <= i < |b|
      ensures LinkedAt(d, p, b, i)
    {
      assert LinkedAt(d, p, a, i);
      assert a[i].overlap == b[i].overlap && (i > 0 ==> a[i - 1] == b[i - 1]);
    }
  }

  lemma LinkedMore(d: Document, p: Policy, segments: seq<Segment>, next: Segment)
    requires p.overlap >= 0 && segments != [] && Linked(d, p, segments) && FollowsOn(d, p, segments[|segments| - 1], next)
    ensures Linked(d, p, segments + [next])
  {
    var all := segments + [next];
    forall i | 0 <= i < |all|
      ensures LinkedAt(d, p, all, i)
    {
      if i < |segments| {
        assert LinkedAt(d, p, segments, i);
        assert all[i] == segments[i] && (i > 0 ==> all[i - 1] == segments[i - 1]);
      } else {
        assert all[i] == next && all[i - 1] == segments[|segments| - 1];
      }
    }
  }

  lemma PackedFollows(d: Document, p: Policy, results: seq<Body>, closed: seq<Segment>, last: Segment, open: Body,
                      units: seq<string>, next: Body, block: Block, unit_: string, overlap: string)
    requires ValidPolicy(p) && Packed(d, p, results, closed, last, open, units)
    requires Follows(p, open, next, block, unit_, overlap) && next.text != "" && Fits(d, p, next)
    requires Overflows(d, p, open.text, open.page, open.section, unit_)
    ensures Packed(d, p, Emit(p, results, open), closed + [last], Started(overlap, next, unit_), next, units + [unit_])
  {
    SegmentsAppend(closed, last, p.minContent);
    SegmentStarts(overlap, unit_);
    StripTrimmed(open.text);
    TextsAppend(results, open);
    LinkedMore(d, p, closed + [last], Started(overlap, next, unit_));
  }

  function Started(overlap: string, next: Body, unit_: string): Segment {
    Segment(overlap, [unit_], next.page, next.section)
  }

  // Keep a body that has enough content.
  function Emit(p: Policy, results: seq<Body>, open: Body): seq<Body> {
    if |Strip(open.text)| >= p.minContent then results + [open.(text := Strip(open.text))] else results
  }

  lemma TakeAll(units: seq<string>, pieces: seq<string>)
    ensures units + pieces[..0] == units && units + pieces[..|pieces|] == units + pieces
  {
  }

  lemma TakeMore(units: seq<string>, pieces: seq<string>, j: nat)
    requires j < |pieces|
    ensures (units + pieces[..j]) + [pieces[j]] == units + pieces[..j + 1]
  {
  }

  // The units of one block join the open body or close it.
  method ChunkBlock(d: Document, p: Policy, block: Block, before: seq<Body>, held: Body,
                    ghost closedBefore: seq<Segment>, ghost lastBefore: Segment, ghost units: seq<string>)
    returns (results: seq<Body>, open: Body, ghost closed: seq<Segment>, ghost last: Segment, ghost cut: seq<string>)
    requires ValidPolicy(p) && ValidDocument(d)
    ensures UnitsFor(d, p, block, cut)
    ensures Roomy(d, p, block) && Packed(d, p, before, closedBefore, lastBefore, held, units) ==>
              Packed(d, p, results, closed, last, open, units + cut)
  {
    results, open, closed, last := before, held, closedBefore, lastBefore;
    ghost var kept := Roomy(d, p, block) && Packed(d, p, before, closedBefore, lastBefore, held, units);
    var pieces := SplitToUnits(block.text, UnitBudget(d, p, block));
    cut := pieces;
    TakeAll(units, pieces);
    for j := 0 to |pieces|
      invariant kept ==> Packed(d, p, results, closed, last, open, units + pieces[..j])
    {
      var next, closes, overlap := AddUnit(d, p, block, open, pieces[j]);
      TakeMore(units, pieces, j);
      if closes {
        if kept {
          PackedFollows(d, p, results, closed, last, open, units + pieces[..j], next, block, pieces[j], overlap);
        }
        results := Emit(p, results, open);
        closed, last := closed + [last], Started(overlap, next, pieces[j]);
      } else {
        if kept {
          PackedContinues(d, p, results, closed, last, open, units + pieces[..j], next, block, pieces[j]);
        }
        last := Grown(last, next, pieces[j]);
      }
      open := next;
    }
  }

  predicate AllRoomy(d: Document, p: Policy, blocks: seq<Block>) {
    forall i :: 0 <= i < |blocks| ==> Roomy(d, p, blocks[i])
  }

  method ChunkBlocks(d: Document, blocks: seq<Block>, p: Policy) returns (results: seq<Body>)
    requires ValidPolicy(p) && ValidDocument(d)
    ensures AllRoomy(d, p, blocks) ==> exists segments, units :: Lossless(d, p, blocks, results, segments, units)
  {
    results := [];
    ghost var units: seq<seq<string>> := [];
    var open := Body("", None, None, None);
    ghost var roomy := AllRoomy(d, p, blocks);
    ghost var closed: seq<Segment>, last := [], Segment("", [], None, None);
    for i := 0 to |blocks|
      invariant |units| == i && UnitsUpTo(d, p, blocks, units)
      invariant roomy ==> Packed(d, p, results, closed, last, open, Concat(units))
    {
      ghost var cut: seq<string>;
      results, open, closed, last, cut := ChunkBlock(d, p, blocks[i], results, open, closed, last, Concat(units));
      ConcatMore(units, cut);
      UnitsMore(d, p, blocks, units, cut);
      units := units + [cut];
    }
    if roomy {
      PackedEnds(d, p, results, closed, last, open, Concat(units));
      ghost var segments := if last.units == [] then [] else closed + [last];
      assert Lossless(d, p, blocks, Emit(p, results, open), segments, units);
    }
    results := Emit(p, results, open);
  }

  predicate UnitsFor(d: Document, p: Policy, b: Block, units: seq<string>) {
    AreUnits(units, UnitBudget(d, p, b)) && Visible(Concat(units)) == Visible(b.text)
  }

  predicate UnitsUpTo(d: Document, p: Policy, blocks: seq<Block>, units: seq<seq<string>>) {
    |units| <= |blocks| && forall j :: 0 <= j < |units| ==> UnitsFor(d, p, blocks[j], units[j])
  }

  lemma UnitsMore(d: Document, p: Policy, blocks: seq<Block>, units: seq<seq<string>>, cut: seq<string>)
    requires |units| < |blocks| && UnitsUpTo(d, p, blocks, units) && UnitsFor(d, p, blocks[|units|], cut)
    ensures UnitsUpTo(d, p, blocks, units + [cut])
  {
    var more := units + [cut];
    forall j | 0 <= j < |more|
      ensures UnitsFor(d, p, blocks[j], more[j])
    {
      assert j < |units| ==> more[j] == units[j];
    }
  }

  // Every unit of every block is, whole and in order, in some segment; the bodies are the
  // segments' texts except those below the content minimum, and each fits its limit.
  ghost predicate Lossless(d: Document, p: Policy, blocks: seq<Block>, results: seq<Body>, segments: seq<Segment>, units: seq<seq<string>>)
    requires p.overlap >= 0
  {
    && |units| == |blocks| && UnitsUpTo(d, p, blocks, units)
    && AllUnits(segments) == Concat(units)
    && Linked(d, p, segments)
    && Texts(results) == KeptTexts(segments, p.minContent)
    && AllFit(d, p, results)
  }

  lemma PackedEnds(d: Document, p: Policy, results: seq<Body>, closed: seq<Segment>, last: Segment, open: Body, units: seq<string>)
    requires ValidPolicy(p) && Packed(d, p, results, closed, last, open, units)
    ensures var segments := if last.units == [] then [] else closed + [last];
            && AllUnits(segments) == units && Linked(d, p, segments)
            && Texts(Emit(p, results, open)) == KeptTexts(segments, p.minContent)
            && AllFit(d, p, Emit(p, results, open))
  {
    if last.units != [] {
      SegmentsAppend(closed, last, p.minContent);
      StripTrimmed(open.text);
      TextsAppend(results, open);
    }
  }

  // The defensive check on the rendered length can only fail when some prefix leaves no room.
  method ChunkTextbookDocument(d: Document, blocks: seq<Block>, p: Policy) returns (r: Result<seq<string>, string>)
    requires ValidPolicy(p) && ValidDocument(d)
    ensures r.Ok? ==> forall i :: 0 <= i < |r.value| ==> |r.value[i]| <= p.max
    ensures AllRoomy(d, p, blocks) ==>
              r.Ok? && exists bodies, segments, units :: Lossless(d, p, blocks, bodies, segments, units) && r.value == AllRendered(d, bodies)
  {
    var bodies := ChunkBlocks(d, blocks, p);
    var chunks: seq<string> := [];
    assert bodies[..0] == [];
    for i := 0 to |bodies|
      invariant chunks == AllRendered(d, bodies[..i])
      invariant forall j :: 0 <= j < i ==> |chunks[j]| <= p.max
    {
      var b := bodies[i];
      var text := Render(d, b.text, b.page, b.section);
      if |text| > p.max {
        return Err("chunk exceeded max_chars");
      }
      assert bodies[..i + 1] == bodies[..i] + [b];
      chunks := chunks + [text];
    }
    assert bodies[..|bodies|] == bodies;
    r := Ok(chunks);
  }

  function AllRendered(d: Document, bodies: seq<Body>): seq<string> {
    seq(|bodies|, i requires 0 <= i < |bodies| => Render(d, bodies[i].text, bodies[i].page, bodies[i].section))
  }
}
