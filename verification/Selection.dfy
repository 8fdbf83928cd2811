// Selecting sources for one evidence gap: reject, deduplicate, rank, then spend a budget of
// sources and pages down the ranking.  Ranker outputs are arbitrary lists of identifiers.

module Selection {
  import opened Common

  // A catalog record with what the text-level helpers say about it: whether it is process
  // data, whether its metadata suffices, how much of it is searchable, and its page count.
  datatype Source = Source(id: nat, primary: bool, sha: Option<string>, status: string, canonical: Option<nat>,
                           processData: bool, sufficient: bool, richness: nat, pages: nat)

  datatype Policy = Policy(maxSources: nat, maxPages: nat, k: nat)

  datatype Reason = ActiveEvidenceGap | Duplicate | ProcessDataExcluded | BudgetDeferred | InsufficientMetadata

  datatype Decision = Decision(sourceId: nat, selected: bool, reason: Reason, rank: Option<nat>)

  predicate ValidPolicy(p: Policy) {
    1 <= p.maxSources <= 200 && 1 <= p.maxPages <= 2000 && 1 <= p.k <= 1000
  }

  const PROCESSED := {"deduplicated", "selected_for_parse", "spooling", "parsing", "evidence_retained", "parsed_no_value", "indexed"}

  // ---------------------------------------------------------------- records and rejections

  // Strictly preferred as the record of its identifier or digest.
  predicate Prefers(a: Source, b: Source) {
    a.richness > b.richness
    || (a.richness == b.richness && ((a.primary && !b.primary) || (a.primary == b.primary && a.id < b.id)))
  }

  function HardRejection(s: Source): Option<Reason> {
    if s.processData || s.status == "excluded_process_data" then Some(ProcessDataExcluded)
    else if s.canonical.Some? then Some(Duplicate)
    else if s.status in PROCESSED then Some(Duplicate)
    else if s.status == "failed_permanent" then Some(InsufficientMetadata)
    else None
  }

  predicate Keyed(records: map<nat, Source>) {
    forall id :: id in records ==> records[id].id == id
  }

  // The record kept for each identifier: the preferred of its namesakes.
  function Unique(sources: seq<Source>): map<nat, Source> {
    if sources == [] then map[]
    else
      var records, s := Unique(sources[..|sources| - 1]), sources[|sources| - 1];
      if s.id !in records || Prefers(s, records[s.id]) then records[s.id := s] else records
  }

  // One record per identifier, and no namesake is preferred to it.
  lemma {:induction false} UniqueFacts(sources: seq<Source>)
    ensures Keyed(Unique(sources))
    ensures forall s :: s in sources ==> s.id in Unique(sources) && !Prefers(s, Unique(sources)[s.id])
    ensures forall id :: id in Unique(sources) ==> Unique(sources)[id] in sources
  {
    if sources != [] {
      UniqueFacts(sources[..|sources| - 1]);
      assert sources == sources[..|sources| - 1] + [sources[|sources| - 1]];
    }
  }

  method UniqueRecords(sources: seq<Source>) returns (records: map<nat, Source>)
    ensures records == Unique(sources)
  {
    records := map[];
    assert sources[..0] == [];
    for i := 0 to |sources|
      invariant records == Unique(sources[..i])
    {
      var s := sources[i];
      assert sources[..i + 1][..i] == sources[..i];
      if s.id !in records || Prefers(s, records[s.id]) {
        records := records[s.id := s];
      }
    }
    assert sources[..|sources|] == sources;
  }

  // A digest some record of which was already processed or is being processed.
  predicate Completed(records: map<nat, Source>, sha: string) {
    exists id :: id in records && HardRejection(records[id]).Some? && records[id].sha == Some(sha) && records[id].status in PROCESSED
  }

  predicate Open(records: map<nat, Source>, id: nat) {
    id in records && HardRejection(records[id]).None? && (records[id].sha.Some? ==> !Completed(records, records[id].sha.value))
  }

  predicate Wins(records: map<nat, Source>, id: nat) {
    && Open(records, id)
    && (records[id].sha.Some? ==>
          forall other :: other in records && other != id && Open(records, other) && records[other].sha == records[id].sha ==>
            Prefers(records[id], records[other]))
  }

  predicate Eligible(records: map<nat, Source>, id: nat) {
    Wins(records, id) && records[id].sufficient
  }

  function RejectionOf(records: map<nat, Source>, id: nat): Reason
    requires id in records
  {
    if HardRejection(records[id]).Some? then HardRejection(records[id]).value
    else if !Wins(records, id) then Duplicate
    else InsufficientMetadata
  }

  method Screen(records: map<nat, Source>) returns (eligible: set<nat>, rejected: map<nat, Reason>)
    requires Keyed(records)
    ensures eligible == set id | id in records && Eligible(records, id)
    ensures rejected == map id | id in records && !Eligible(records, id) :: RejectionOf(records, id)
  {
    var completed := CompletedShas(records);
    var best := BestPerSha(records, completed);
    eligible, rejected := {}, map[];
    var rest := records.Keys;
    while rest != {}
      invariant rest <= records.Keys
      invariant eligible == set id | id in records && id !in rest && Eligible(records, id)
      invariant rejected == map id | id in records && id !in rest && !Eligible(records, id) :: RejectionOf(records, id)
    {
      var id :| id in rest;
      rest := rest - {id};
      var s := records[id];
      var hard := HardRejection(s);
      if hard.Some? {
        rejected := rejected[id := hard.value];
      } else if s.sha.Some? && (s.sha.value in completed || best[s.sha.value] != id) {
        rejected := rejected[id := Duplicate];
      } else if !s.sufficient {
        rejected := rejected[id := InsufficientMetadata];
      } else {
        eligible := eligible + {id};
      }
    }
  }

  method CompletedShas(records: map<nat, Source>) returns (completed: set<string>)
    ensures forall sha :: sha in completed <==> Completed(records, sha)
  {
    completed := set id | id in records && HardRejection(records[id]).Some? && records[id].sha.Some? && records[id].status in PROCESSED
                    :: records[id].sha.value;
  }

  method BestPerSha(records: map<nat, Source>, completed: set<string>) returns (best: map<string, nat>)
    requires Keyed(records)
    requires forall sha :: sha in completed <==> Completed(records, sha)
    ensures forall id :: Open(records, id) && records[id].sha.Some? ==>
              records[id].sha.value in best && (best[records[id].sha.value] == id <==> Wins(records, id))
  {
    best := map[];
    var rest := records.Keys;
    while rest != {}
      invariant rest <= records.Keys
      invariant forall sha :: sha in best ==>
                  best[sha] in records && best[sha] !in rest && Open(records, best[sha]) && records[best[sha]].sha == Some(sha)
      invariant forall id :: id in records && id !in rest && Open(records, id) && records[id].sha.Some? ==>
                  records[id].sha.value in best && (best[records[id].sha.value] == id || Prefers(records[best[records[id].sha.value]], records[id]))
    {
      var id :| id in rest;
      rest := rest - {id};
      var s := records[id];
      if HardRejection(s).None? && s.sha.Some? && s.sha.value !in completed {
        if s.sha.value !in best || Prefers(s, records[best[s.sha.value]]) {
          best := best[s.sha.value := id];
        }
      }
    }
  }

  // ---------------------------------------------------------------- ranking

  // Scores default to zero.
  function Score(scores: map<nat, real>, id: nat): real {
    if id in scores then scores[id] else 0.0
  }

  // A stable insertion: after every element that scores at least as much.
  function InsertBy(x: nat, sorted: seq<nat>, scores: map<nat, real>): seq<nat> {
    if sorted == [] || Score(scores, sorted[|sorted| - 1]) >= Score(scores, x) then sorted + [x]
    else InsertBy(x, sorted[..|sorted| - 1], scores) + [sorted[|sorted| - 1]]
  }

  // The library's stable sort by descending score.
  function SortBy(ids: seq<nat>, scores: map<nat, real>): seq<nat> {
    if ids == [] then [] else InsertBy(ids[|ids| - 1], SortBy(ids[..|ids| - 1], scores), scores)
  }

  predicate Descending(ids: seq<nat>, scores: map<nat, real>) {
    forall i, j :: 0 <= i < j < |ids| ==> Score(scores, ids[i]) >= Score(scores, ids[j])
  }

  lemma {:induction false} InsertElements(x: nat, sorted: seq<nat>, scores: map<nat, real>)
    requires NoDup(sorted) && x !in sorted
    ensures NoDup(InsertBy(x, sorted, scores))
    ensures forall y :: y in InsertBy(x, sorted, scores) <==> y == x || y in sorted
  {
    if sorted != [] && Score(scores, sorted[|sorted| - 1]) < Score(scores, x) {
      var front, last := sorted[..|sorted| - 1], sorted[|sorted| - 1];
      InsertElements(x, front, scores);
      InLast(front, last, sorted);
    }
  }

  lemma InLast(front: seq<nat>, last: nat, all: seq<nat>)
    requires all == front + [last]
    ensures forall y :: y in all <==> y in front || y == last
    ensures NoDup(all) ==> last !in front
  {
    assert all[|front|] == last;
    forall i | 0 <= i < |front|
      ensures all[i] == front[i]
    {
    }
  }

  lemma {:induction false} InsertDescending(x: nat, sorted: seq<nat>, scores: map<nat, real>)
    requires Descending(sorted, scores) && NoDup(sorted) && x !in sorted
    ensures Descending(InsertBy(x, sorted, scores), scores)
  {
    if sorted != [] && Score(scores, sorted[|sorted| - 1]) < Score(scores, x) {
      var front, last := sorted[..|sorted| - 1], sorted[|sorted| - 1];
      InsertDescending(x, front, scores);
      InsertElements(x, front, scores);
      var r := InsertBy(x, front, scores);
      forall i | 0 <= i < |r|
        ensures Score(scores, r[i]) >= Score(scores, last)
      {
        assert r[i] in r;
      }
    }
  }

  lemma {:induction false} SortFacts(ids: seq<nat>, scores: map<nat, real>)
    requires NoDup(ids)
    ensures Descending(SortBy(ids, scores), scores) && NoDup(SortBy(ids, scores))
    ensures forall y :: y in SortBy(ids, scores) <==> y in ids
  {
    if ids != [] {
      var front, last := ids[..|ids| - 1], ids[|ids| - 1];
      SortFacts(front, scores);
      InLast(front, last, ids);
      InsertElements(last, SortBy(front, scores), scores);
      InsertDescending(last, SortBy(front, scores), scores);
    }
  }

  // What a ranker returns, reduced to known identifiers, each once.
  method NormalizeRankOutput(candidates: seq<nat>, allowed: set<nat>) returns (result: seq<nat>)
    ensures result == Normalized(candidates, allowed)
  {
    result := [];
    var seen: set<nat> := {};
    assert candidates[..0] == [];
    for i := 0 to |candidates|
      invariant result == Normalized(candidates[..i], allowed)
      invariant seen == Elements(result)
    {
      assert candidates[..i + 1][..i] == candidates[..i];
      var id := candidates[i];
      if id in allowed && id !in seen {
        result := result + [id];
        seen := seen + {id};
      }
    }
    assert candidates[..|candidates|] == candidates;
  }

  function Normalized(candidates: seq<nat>, allowed: set<nat>): seq<nat> {
    if candidates == [] then []
    else
      var front, id := Normalized(candidates[..|candidates| - 1], allowed), candidates[|candidates| - 1];
      if id in allowed && id !in front then front + [id] else front
  }

  lemma {:induction false} NormalizedFacts(candidates: seq<nat>, allowed: set<nat>)
    ensures NoDup(Normalized(candidates, allowed))
    ensures forall id :: id in Normalized(candidates, allowed) <==> id in candidates && id in allowed
  {
    if candidates != [] {
      var front := candidates[..|candidates| - 1];
      NormalizedFacts(front, allowed);
      assert candidates == front + [candidates[|candidates| - 1]];
    }
  }

  function PositionOf(ids: seq<nat>, id: nat): (i: nat)
    ensures i <= |ids| && (id in ids ==> i < |ids| && ids[i] == id)
  {
    if ids == [] || ids[0] == id then 0 else 1 + PositionOf(ids[1..], id)
  }

  lemma {:induction false} PositionInMore(ids: seq<nat>, last: nat, id: nat)
    requires id in ids || id == last
    ensures PositionOf(ids + [last], id) == if id in ids then PositionOf(ids, id) else |ids|
  {
    if ids != [] && ids[0] != id {
      assert (ids + [last])[1..] == ids[1..] + [last];
      PositionInMore(ids[1..], last, id);
    }
  }

  // Kept identifiers stand in the order of their first positions.
  lemma {:induction false} NormalizedInOrder(candidates: seq<nat>, allowed: set<nat>, i: nat, j: nat)
    requires i < j < |Normalized(candidates, allowed)|
    ensures PositionOf(candidates, Normalized(candidates, allowed)[i]) < PositionOf(candidates, Normalized(candidates, allowed)[j])
  {
    var front, last := candidates[..|candidates| - 1], candidates[|candidates| - 1];
    var all, kept := Normalized(candidates, allowed), Normalized(front, allowed);
    NormalizedFacts(front, allowed);
    assert candidates == front + [last];
    assert all[i] == kept[i] && kept[i] in kept;
    PositionInMore(front, last, all[i]);
    if j < |kept| {
      NormalizedInOrder(front, allowed, i, j);
      assert kept[j] in kept;
      PositionInMore(front, last, all[j]);
    } else {
      PositionInMore(front, last, last);
    }
  }

  function Reciprocal(ids: seq<nat>, id: nat, k: nat): real
    requires k >= 1
  {
    if id in ids then 1.0 / (k + PositionOf(ids, id) + 1) as real else 0.0
  }

  function FusionScores(lexical: seq<nat>, semantic: seq<nat>, k: nat): map<nat, real>
    requires k >= 1
  {
    map id | id in Elements(lexical) :: Reciprocal(lexical, id, k) + Reciprocal(semantic, id, k)
  }

  // Reciprocal rank fusion of the lexical order with a semantic one.
  function Fuse(lexical: seq<nat>, semantic: seq<nat>, k: nat): seq<nat>
    requires k >= 1
  {
    SortBy(lexical, FusionScores(lexical, semantic, k))
  }

  function Rerank(fused: seq<nat>, reranked: seq<nat>): seq<nat> {
    reranked + Without(fused, reranked)
  }

  function Without(ids: seq<nat>, removed: seq<nat>): seq<nat> {
    if ids == [] then []
    else Without(ids[..|ids| - 1], removed) + if ids[|ids| - 1] in removed then [] else [ids[|ids| - 1]]
  }

  predicate Permutes(ids: seq<nat>, s: set<nat>) {
    NoDup(ids) && Elements(ids) == s
  }

  lemma {:induction false} WithoutFacts(ids: seq<nat>, removed: seq<nat>)
    requires NoDup(ids)
    ensures NoDup(Without(ids, removed))
    ensures forall id :: id in Without(ids, removed) <==> id in ids && id !in removed
  {
    if ids != [] {
      var front := ids[..|ids| - 1];
      WithoutFacts(front, removed);
      assert ids == front + [ids[|ids| - 1]];
      assert ids[|ids| - 1] !in front;
    }
  }

  // The final order: lexical, fused with the semantic ranker, then overridden by the reranker.
  function FinalOrder(lexical: seq<nat>, semantic: Option<seq<nat>>, reranker: Option<seq<nat>>, k: nat): seq<nat>
    requires k >= 1
  {
    var allowed := Elements(lexical);
    var fused := Fuse(lexical, if semantic.Some? then Normalized(semantic.value, allowed) else [], k);
    if lexical != [] && reranker.Some? then Rerank(fused, Normalized(reranker.value, allowed)) else fused
  }

  method Rank(lexical: seq<nat>, semantic: Option<seq<nat>>, reranker: Option<seq<nat>>, k: nat, ghost eligible: set<nat>)
    returns (ranked: seq<nat>)
    requires Permutes(lexical, eligible) && k >= 1
    ensures Permutes(ranked, eligible)
    ensures ranked == FinalOrder(lexical, semantic, reranker, k)
  {
    if lexical == [] {
      return [];
    }
    var allowed := Elements(lexical);
    var semanticIds: seq<nat> := [];
    if semantic.Some? {
      semanticIds := NormalizeRankOutput(semantic.value, allowed);
    }
    ranked := Fuse(lexical, semanticIds, k);
    SortFacts(lexical, FusionScores(lexical, semanticIds, k));
    SameElements(lexical, ranked, eligible);
    if reranker.Some? {
      var reranked := NormalizeRankOutput(reranker.value, allowed);
      RerankPermutes(ranked, reranker.value, eligible);
      ranked := Rerank(ranked, reranked);
    }
  }

  lemma SameElements(a: seq<nat>, b: seq<nat>, s: set<nat>)
    requires Permutes(a, s) && NoDup(b) && forall y :: y in b <==> y in a
    ensures Permutes(b, s)
  {
    assert forall y :: y in Elements(a) <==> y in a;
  }

  lemma RerankPermutes(fused: seq<nat>, output: seq<nat>, eligible: set<nat>)
    requires Permutes(fused, eligible)
    ensures Permutes(Rerank(fused, Normalized(output, eligible)), eligible)
  {
    var first := Normalized(output, eligible);
    NormalizedFacts(output, eligible);
    WithoutFacts(fused, first);
    var all := Rerank(fused, first);
    forall i, j | 0 <= i < j < |all|
      ensures all[i] != all[j]
    {
      if i < |first| && j >= |first| {
        assert all[j] in Without(fused, first);
      }
    }
    forall x
      ensures x in all <==> x in eligible
    {
      assert x in eligible <==> x in Elements(fused);
    }
  }

  // ---------------------------------------------------------------- spending the budget

  function PagesOf(records: map<nat, Source>, id: nat): nat {
    if id in records then records[id].pages else 0
  }

  function SelectedCount(ds: seq<Decision>): nat {
    if ds == [] then 0 else SelectedCount(ds[..|ds| - 1]) + if ds[|ds| - 1].selected then 1 else 0
  }

  function SelectedPages(ds: seq<Decision>, records: map<nat, Source>): nat {
    if ds == [] then 0
    else SelectedPages(ds[..|ds| - 1], records) + if ds[|ds| - 1].selected then PagesOf(records, ds[|ds| - 1].sourceId) else 0
  }

  // Within both limits, and nothing deferred would still have fitted.
  predicate WellSpent(ds: seq<Decision>, records: map<nat, Source>, maxSources: nat, available: int) {
    && SelectedCount(ds) <= maxSources
    && SelectedPages(ds, records) <= available
    && forall i :: 0 <= i < |ds| && !ds[i].selected ==>
         SelectedCount(ds) == maxSources || SelectedPages(ds, records) + PagesOf(records, ds[i].sourceId) > available
  }

  // Decisions follow the ranking.
  predicate Ranked(ds: seq<Decision>, ranked: seq<nat>) {
    && |ds| == |ranked|
    && forall i :: 0 <= i < |ds| ==>
         ds[i] == Decision(ranked[i], ds[i].selected, if ds[i].selected then ActiveEvidenceGap else BudgetDeferred, Some(i + 1))
  }

  lemma SpendMore(ds: seq<Decision>, d: Decision, records: map<nat, Source>)
    ensures SelectedCount(ds + [d]) == SelectedCount(ds) + if d.selected then 1 else 0
    ensures SelectedPages(ds + [d], records) == SelectedPages(ds, records) + if d.selected then PagesOf(records, d.sourceId) else 0
  {
    assert (ds + [d])[..|ds|] == ds;
  }

  // Down the ranking, a source is selected exactly when both limits still allow it.
  predicate Greedy(ds: seq<Decision>, records: map<nat, Source>, maxSources: nat, available: int) {
    forall i :: 0 <= i < |ds| ==> GreedyAt(ds, records, maxSources, available, i)
  }

  predicate GreedyAt(ds: seq<Decision>, records: map<nat, Source>, maxSources: nat, available: int, i: nat)
    requires i < |ds|
  {
    ds[i].selected <==>
      SelectedCount(ds[..i]) < maxSources && SelectedPages(ds[..i], records) + PagesOf(records, ds[i].sourceId) <= available
  }

  lemma SpendKeeps(ds: seq<Decision>, d: Decision, records: map<nat, Source>, maxSources: nat, available: int)
    requires WellSpent(ds, records, maxSources, available)
    requires d.selected <==> SelectedCount(ds) < maxSources && SelectedPages(ds, records) + PagesOf(records, d.sourceId) <= available
    ensures WellSpent(ds + [d], records, maxSources, available)
  {
    var more := ds + [d];
    SpendMore(ds, d, records);
    forall i | 0 <= i < |more| && !more[i].selected
      ensures SelectedCount(more) == maxSources || SelectedPages(more, records) + PagesOf(records, more[i].sourceId) > available
    {
      assert i < |ds| ==> more[i] == ds[i];
    }
  }

  // Greedy spending keeps both limits, and whatever it deferred would overflow one of them
  // even after all other decisions.
  lemma {:induction false} GreedyIsWellSpent(ds: seq<Decision>, records: map<nat, Source>, maxSources: nat, available: int)
    requires available >= 0 && Greedy(ds, records, maxSources, available)
    ensures WellSpent(ds, records, maxSources, available)
  {
    if ds != [] {
      var front, d := ds[..|ds| - 1], ds[|ds| - 1];
      forall i | 0 <= i < |front|
        ensures GreedyAt(front, records, maxSources, available, i)
      {
        assert GreedyAt(ds, records, maxSources, available, i);
        assert front[..i] == ds[..i];
      }
      GreedyIsWellSpent(front, records, maxSources, available);
      assert GreedyAt(ds, records, maxSources, available, |front|);
      SpendKeeps(front, d, records, maxSources, available);
      assert ds == front + [d];
    }
  }

  lemma GreedyMore(ds: seq<Decision>, d: Decision, records: map<nat, Source>, maxSources: nat, available: int)
    requires Greedy(ds, records, maxSources, available)
    requires d.selected <==> SelectedCount(ds) < maxSources && SelectedPages(ds, records) + PagesOf(records, d.sourceId) <= available
    ensures Greedy(ds + [d], records, maxSources, available)
  {
    var more := ds + [d];
    forall i | 0 <= i < |more|
      ensures GreedyAt(more, records, maxSources, available, i)
    {
      if i < |ds| {
        assert GreedyAt(ds, records, maxSources, available, i);
        assert more[..i] == ds[..i];
      } else {
        assert more[..i] == ds;
      }
    }
  }

  method Spend(records: map<nat, Source>, ranked: seq<nat>, maxSources: nat, available: int) returns (ds: seq<Decision>)
    requires available >= 0
    ensures Ranked(ds, ranked) && Greedy(ds, records, maxSources, available)
  {
    ds := [];
    var selectedCount, selectedPages := 0, 0;
    for i := 0 to |ranked|
      invariant Ranked(ds, ranked[..i])
      invariant selectedCount == SelectedCount(ds) && selectedPages == SelectedPages(ds, records)
      invariant Greedy(ds, records, maxSources, available)
    {
      var pages := PagesOf(records, ranked[i]);
      var selected := selectedCount < maxSources && selectedPages + pages <= available;
      var d := Decision(ranked[i], selected, if selected then ActiveEvidenceGap else BudgetDeferred, Some(i + 1));
      SpendMore(ds, d, records);
      GreedyMore(ds, d, records, maxSources, available);
      if selected {
        selectedCount := selectedCount + 1;
        selectedPages := selectedPages + pages;
      }
      ds := ds + [d];
    }
    assert ranked[..|ranked|] == ranked;
  }

  // ---------------------------------------------------------------- the whole selection

  function AvailablePages(p: Policy, pageBudget: Option<int>): int {
    Min(p.maxPages, if pageBudget.Some? then pageBudget.value else p.maxPages)
  }

  predicate RejectedDecisions(ds: seq<Decision>, records: map<nat, Source>) {
    && (forall i :: 0 <= i < |ds| ==>
          ds[i].sourceId in records && !Eligible(records, ds[i].sourceId)
          && ds[i] == Decision(ds[i].sourceId, false, RejectionOf(records, ds[i].sourceId), None))
    && (forall i, j :: 0 <= i < j < |ds| ==> ds[i].sourceId < ds[j].sourceId)
    && (forall id :: id in records && !Eligible(records, id) ==> Decides(ds, id))
  }

  predicate Decides(ds: seq<Decision>, id: nat) {
    exists i :: 0 <= i < |ds| && ds[i].sourceId == id
  }

  // Every eligible source once in ranking order, then every other with its reason.
  ghost predicate Selection(ds: seq<Decision>, records: map<nat, Source>, ranked: seq<nat>) {
    && Permutes(ranked, EligibleIds(records))
    && |ranked| <= |ds|
    && Ranked(ds[..|ranked|], ranked) && RejectedDecisions(ds[|ranked|..], records)
  }

  ghost function EligibleIds(records: map<nat, Source>): set<nat> {
    set id | id in records && Eligible(records, id)
  }

  // The primary corpus first, then by identifier: the order before any score.
  ghost predicate BaseOrder(records: map<nat, Source>, ordered: seq<nat>) {
    Permutes(ordered, EligibleIds(records)) && forall i, j :: 0 <= i < j < |ordered| ==> Earlier(records, ordered[i], ordered[j])
  }

  // The order leaves no choice.
  lemma BaseOrderUnique(records: map<nat, Source>, a: seq<nat>, b: seq<nat>)
    requires BaseOrder(records, a) && BaseOrder(records, b)
    ensures a == b
  {
    NoDupCardinality(a);
    NoDupCardinality(b);
    BasePrefix(records, a, b, |a|);
  }

  lemma {:induction false} BasePrefix(records: map<nat, Source>, a: seq<nat>, b: seq<nat>, n: nat)
    requires BaseOrder(records, a) && BaseOrder(records, b) && n <= |a| == |b|
    ensures a[..n] == b[..n]
  {
    if n > 0 {
      BasePrefix(records, a, b, n - 1);
      var i := n - 1;
      assert forall k :: 0 <= k < i ==> a[k] == a[..i][k] == b[..i][k] == b[k];
      assert a[i] in Elements(a) && b[i] in Elements(b);
      var j :| 0 <= j < |b| && b[j] == a[i];
      var k :| 0 <= k < |a| && a[k] == b[i];
      assert a[i] == b[i];
      assert a[..n] == a[..i] + [a[i]] && b[..n] == b[..i] + [b[i]];
    }
  }

  // The decisions of a valid request; the base order is unique.
  ghost predicate Selected(p: Policy, sources: seq<Source>, lexicalScores: map<nat, real>, semantic: Option<seq<nat>>,
                           reranker: Option<seq<nat>>, pageBudget: Option<int>, ds: seq<Decision>)
    requires ValidPolicy(p)
  {
    exists base ::
      && BaseOrder(Unique(sources), base)
      && var ranked := FinalOrder(SortBy(base, lexicalScores), semantic, reranker, p.k);
      && Selection(ds, Unique(sources), ranked)
      && Greedy(ds[..|ranked|], Unique(sources), p.maxSources, AvailablePages(p, pageBudget))
  }

  // Lexical scores come from the query; the rankers answer with any lists of identifiers.
  method Select(p: Policy, searchable: bool, sources: seq<Source>, lexicalScores: map<nat, real>, semantic: Option<seq<nat>>,
                reranker: Option<seq<nat>>, pageBudget: Option<int>)
    returns (r: Result<seq<Decision>, string>)
    requires ValidPolicy(p)
    ensures r.Ok? <==> searchable && (pageBudget.Some? ==> pageBudget.value >= 0)
    ensures r.Ok? ==> Selected(p, sources, lexicalScores, semantic, reranker, pageBudget, r.value)
  {
    if !searchable {
      return Err("evidence gap must contain searchable text");
    }
    if pageBudget.Some? && pageBudget.value < 0 {
      return Err("page_budget must be non-negative");
    }
    var records := UniqueRecords(sources);
    UniqueFacts(sources);
    var eligible, rejected := Screen(records);
    var base := InOrder(records, eligible);
    SortFacts(base, lexicalScores);
    SameElements(base, SortBy(base, lexicalScores), eligible);
    var ranked := Rank(SortBy(base, lexicalScores), semantic, reranker, p.k, eligible);
    var first := Spend(records, ranked, p.maxSources, AvailablePages(p, pageBudget));
    var second := Reject(records, rejected);
    var decisions := first + second;
    assert decisions[..|ranked|] == first && decisions[|ranked|..] == second;
    assert BaseOrder(records, base);
    r := Ok(decisions);
  }

  lemma PermutesMore(ids: seq<nat>, m: nat, s: set<nat>)
    requires Permutes(ids, s) && m !in s
    ensures Permutes(ids + [m], s + {m})
  {
    var more := ids + [m];
    assert m !in Elements(ids);
    InLast(ids, m, more);
    assert forall x :: x in Elements(more) <==> x in more;
    assert forall x :: x in Elements(ids) <==> x in ids;
  }

  // The primary corpus first, then by identifier.
  method InOrder(records: map<nat, Source>, ids: set<nat>) returns (ordered: seq<nat>)
    requires ids <= records.Keys
    ensures Permutes(ordered, ids)
    ensures forall i, j :: 0 <= i < j < |ordered| ==> Earlier(records, ordered[i], ordered[j])
  {
    ordered := [];
    var rest := ids;
    while rest != {}
      invariant rest <= ids && Permutes(ordered, ids - rest)
      invariant forall i, j :: 0 <= i < j < |ordered| ==> Earlier(records, ordered[i], ordered[j])
      invariant forall i, x :: 0 <= i < |ordered| && x in rest ==> Earlier(records, ordered[i], x)
    {
      var m := FirstOf(records, rest);
      PermutesMore(ordered, m, ids - rest);
      assert ids - (rest - {m}) == (ids - rest) + {m};
      ordered := ordered + [m];
      rest := rest - {m};
    }
  }

  predicate Earlier(records: map<nat, Source>, a: nat, b: nat) {
    a in records && b in records
    && ((records[a].primary && !records[b].primary) || (records[a].primary == records[b].primary && a < b))
  }

  method FirstOf(records: map<nat, Source>, ids: set<nat>) returns (m: nat)
    requires ids <= records.Keys && ids != {}
    ensures m in ids && forall x :: x in ids && x != m ==> Earlier(records, m, x)
  {
    m :| m in ids;
    var rest := ids - {m};
    while rest != {}
      invariant rest <= ids && m in ids && m !in rest
      invariant forall x :: x in ids && x !in rest && x != m ==> Earlier(records, m, x)
    {
      var x :| x in rest;
      rest := rest - {x};
      if Earlier(records, x, m) {
        m := x;
      }
    }
  }

  method Reject(records: map<nat, Source>, rejected: map<nat, Reason>) returns (ds: seq<Decision>)
    requires rejected == map id | id in records && !Eligible(records, id) :: RejectionOf(records, id)
    ensures RejectedDecisions(ds, records)
  {
    var ids := Ascending(rejected.Keys);
    forall i | 0 <= i < |ids|
      ensures ids[i] in rejected.Keys
    {
      assert ids[i] in ids;
    }
    ds := seq(|ids|, i requires 0 <= i < |ids| => Decision(ids[i], false, rejected[ids[i]], None));
    forall i | 0 <= i < |ds|
      ensures ds[i].sourceId in records && !Eligible(records, ds[i].sourceId)
      ensures ds[i] == Decision(ds[i].sourceId, false, RejectionOf(records, ds[i].sourceId), None)
    {
      assert ids[i] in rejected;
    }
    forall id | id in records && !Eligible(records, id)
      ensures Decides(ds, id)
    {
      assert id in rejected.Keys;
      var i :| 0 <= i < |ids| && ids[i] == id;
      assert ds[i].sourceId == id;
    }
  }

  method Ascending(s: set<nat>) returns (ids: seq<nat>)
    ensures forall x :: x in ids <==> x in s
    ensures forall i, j :: 0 <= i < j < |ids| ==> ids[i] < ids[j]
  {
    ids := [];
    var rest := s;
    while rest != {}
      invariant rest <= s
      invariant forall x :: x in ids <==> x in s && x !in rest
      invariant forall i, j :: 0 <= i < j < |ids| ==> ids[i] < ids[j]
      invariant forall i, x :: 0 <= i < |ids| && x in rest ==> ids[i] < x
    {
      var m := Smallest(rest);
      ids := ids + [m];
      rest := rest - {m};
    }
  }

  // ---------------------------------------------------------------- what a selection guarantees

  // Each distinct source is decided exactly once.
  lemma OneDecisionPerSource(ds: seq<Decision>, records: map<nat, Source>, ranked: seq<nat>, id: nat)
    requires Selection(ds, records, ranked) && id in records
    ensures exists i :: 0 <= i < |ds| && ds[i].sourceId == id && forall j :: 0 <= j < |ds| && j != i ==> ds[j].sourceId != id
  {
    var first, second := ds[..|ranked|], ds[|ranked|..];
    if Eligible(records, id) {
      assert id in Elements(ranked);
      var i :| 0 <= i < |ranked| && ranked[i] == id;
      assert ds[i] == first[i];
      forall j | 0 <= j < |ds| && j != i
        ensures ds[j].sourceId != id
      {
        if j < |ranked| {
          assert ds[j] == first[j] && ranked[j] != ranked[i];
        } else {
          assert ds[j] == second[j - |ranked|];
        }
      }
    } else {
      var i :| 0 <= i < |second| && second[i].sourceId == id;
      assert ds[i + |ranked|] == second[i];
      forall j | 0 <= j < |ds| && j != i + |ranked|
        ensures ds[j].sourceId != id
      {
        if j < |ranked| {
          assert ds[j] == first[j] && ranked[j] in Elements(ranked);
        } else {
          assert ds[j] == second[j - |ranked|];
        }
      }
    }
  }

  // No two selected sources share a digest, and none shares one with a processed record.
  lemma SelectedDigestsUnique(ds: seq<Decision>, records: map<nat, Source>, ranked: seq<nat>, i: nat)
    requires Selection(ds, records, ranked) && i < |ds| && ds[i].selected && ds[i].sourceId in records && records[ds[i].sourceId].sha.Some?
    ensures !Completed(records, records[ds[i].sourceId].sha.value)
    ensures forall j :: 0 <= j < |ds| && j != i && ds[j].selected && ds[j].sourceId in records ==>
              records[ds[j].sourceId].sha != records[ds[i].sourceId].sha
  {
    SelectedIsEligible(ds, records, ranked, i);
    forall j | 0 <= j < |ds| && j != i && ds[j].selected && ds[j].sourceId in records
      ensures records[ds[j].sourceId].sha != records[ds[i].sourceId].sha
    {
      SelectedIsEligible(ds, records, ranked, j);
      assert ranked[i] != ranked[j];
      OnlyOneWins(records, ds[i].sourceId, ds[j].sourceId);
    }
  }

  // ---------------------------------------------------------------- processed namesakes

  predicate Processed(s: Source) {
    HardRejection(s).Some? && s.status in PROCESSED
  }

  predicate ProcessedIn(sources: seq<Source>, sha: string) {
    exists s :: s in sources && Processed(s) && s.sha == Some(sha)
  }

  // A processed source of this digest gave way to another one under its identifier.
  predicate ProcessedGaveWay(sources: seq<Source>, sha: string) {
    exists s :: s in sources && Processed(s) && s.sha == Some(sha) && s.id in Unique(sources) && Unique(sources)[s.id] != s
  }

  lemma EligibleIsNotProcessed(records: map<nat, Source>, id: nat, s: Source)
    requires Eligible(records, id) && records[id].sha.Some? && Processed(s) && s.sha == records[id].sha
    ensures s.id in records ==> records[s.id] != s
  {
  }

  // The digest of an eligible source is that of a processed one among all sources given exactly
  // when that one gave way to a preferred namesake.
  lemma EligibleProcessedIff(sources: seq<Source>, id: nat)
    requires Eligible(Unique(sources), id) && Unique(sources)[id].sha.Some?
    ensures ProcessedIn(sources, Unique(sources)[id].sha.value) <==> ProcessedGaveWay(sources, Unique(sources)[id].sha.value)
  {
    var records, sha := Unique(sources), Unique(sources)[id].sha.value;
    UniqueFacts(sources);
    if ProcessedIn(sources, sha) {
      var s :| s in sources && Processed(s) && s.sha == Some(sha);
      EligibleIsNotProcessed(records, id, s);
      assert s.id in records && records[s.id] != s;
    }
  }

  // An indexed source, and a richer record of it that was only discovered.
  function Namesakes(sha: string): seq<Source> {
    [Source(1, true, Some(sha), "indexed", None, false, true, 1, 10),
     Source(1, true, Some(sha), "metadata_discovered", None, false, true, 2, 10)]
  }

  // Given both, the selection takes the second, although the first was processed already.
  lemma ProcessedNamesakeIsSelected(sha: string, ds: seq<Decision>, ranked: seq<nat>, maxSources: nat, available: int)
    requires maxSources >= 1 && available >= 10
    requires Selection(ds, Unique(Namesakes(sha)), ranked) && Greedy(ds[..|ranked|], Unique(Namesakes(sha)), maxSources, available)
    ensures ProcessedIn(Namesakes(sha), sha) && ProcessedGaveWay(Namesakes(sha), sha)
    ensures ds != [] && ds[0].selected && ds[0].sourceId == 1 && Unique(Namesakes(sha))[1].sha == Some(sha)
  {
    var sources := Namesakes(sha);
    NamesakesUnique(sha);
    var records := Unique(sources);
    assert sources[0] in sources && Processed(sources[0]);
    assert Eligible(records, 1) && EligibleIds(records) == {1};
    assert 1 in Elements(ranked);
    var i :| 0 <= i < |ranked| && ranked[i] == 1;
    assert forall j :: 0 <= j < |ranked| ==> ranked[j] in Elements(ranked);
    assert |ranked| == 1 by {
      NoDupCardinality(ranked);
    }
    assert GreedyAt(ds[..1], records, maxSources, available, 0);
    assert ds[..1][..0] == [] && ds[..1][0] == ds[0];
  }

  lemma NamesakesUnique(sha: string)
    ensures Unique(Namesakes(sha)) == map[1 := Namesakes(sha)[1]]
  {
    var sources := Namesakes(sha);
    assert sources[..1] == [sources[0]] && sources[..1][..0] == [];
    assert Unique(sources[..1]) == map[1 := sources[0]];
  }

  lemma OnlyOneWins(records: map<nat, Source>, a: nat, b: nat)
    requires Eligible(records, a) && Eligible(records, b) && a != b && records[a].sha.Some?
    ensures records[a].sha != records[b].sha
  {
  }

  lemma SelectedIsEligible(ds: seq<Decision>, records: map<nat, Source>, ranked: seq<nat>, i: nat)
    requires Selection(ds, records, ranked) && i < |ds| && ds[i].selected
    ensures i < |ranked| && ds[i].sourceId == ranked[i] && Eligible(records, ds[i].sourceId)
  {
    if i >= |ranked| {
      RejectedAt(ds, records, ranked, i);
    } else {
      assert ds[i] == ds[..|ranked|][i];
      assert ranked[i] in Elements(ranked);
    }
  }

  lemma RejectedAt(ds: seq<Decision>, records: map<nat, Source>, ranked: seq<nat>, i: nat)
    requires Selection(ds, records, ranked) && |ranked| <= i < |ds|
    ensures !ds[i].selected
  {
    assert ds[i] == ds[|ranked|..][i - |ranked|];
  }
}
