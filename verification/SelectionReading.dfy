// What a selection means, told by the fields of the sources and the rankers' answers: which
// sources are eligible and why the others are not, and what the final order follows from.

module SelectionReading {
  import opened Common
  import opened Selection

  // ---------------------------------------------------------------- eligibility, by fields

  const DONE := {"deduplicated", "selected_for_parse", "spooling", "parsing", "evidence_retained", "parsed_no_value", "indexed"}

  // Not process data, no copy of another source, neither processed nor given up.
  predicate Candidate(s: Source) {
    !s.processData && s.status != "excluded_process_data" && s.canonical.None? && s.status !in DONE && s.status != "failed_permanent"
  }

  // With more to search in, or as much and in the primary corpus, or likewise and first.
  predicate Richer(a: Source, b: Source) {
    || a.richness > b.richness
    || (a.richness == b.richness && a.primary && !b.primary)
    || (a.richness == b.richness && a.primary == b.primary && a.id < b.id)
  }

  // The record kept of an identifier is one given under it, and none given is richer.
  lemma KeptIsRichest(sources: seq<Source>, s: Source)
    requires s in sources
    ensures s.id in Unique(sources) && Unique(sources)[s.id] in sources && Unique(sources)[s.id].id == s.id
    ensures var r := Unique(sources)[s.id]; r.richness > s.richness || (r.richness == s.richness && (s.primary ==> r.primary))
  {
    UniqueFacts(sources);
  }

  // A source is eligible if it is a candidate with enough metadata, nothing of its digest was
  // processed, and it is the richest candidate of its digest.
  lemma EligibleMeans(records: map<nat, Source>, id: nat)
    requires Keyed(records) && id in records
    ensures Eligible(records, id) <==>
              && Candidate(records[id]) && records[id].sufficient
              && (records[id].sha.Some? ==>
                    forall o :: o in records && o != id && records[o].sha == records[id].sha ==>
                      records[o].status !in DONE && (Candidate(records[o]) ==> Richer(records[id], records[o])))
  {
    OpenMeans(records, id);
    forall o | o in records && records[o].sha == records[id].sha
      ensures Open(records, o) <==> Candidate(records[o]) && (records[o].sha.Some? ==> !Completed(records, records[o].sha.value))
    {
      OpenMeans(records, o);
    }
  }

  lemma OpenMeans(records: map<nat, Source>, id: nat)
    requires id in records
    ensures HardRejection(records[id]).None? <==> Candidate(records[id])
    ensures records[id].sha.Some? ==>
              (Completed(records, records[id].sha.value) <==> exists o :: o in records && records[o].sha == records[id].sha && records[o].status in DONE)
  {
  }

  // The reason a source that is not eligible is given, first match first.
  lemma ReasonMeans(records: map<nat, Source>, id: nat)
    requires Keyed(records) && id in records && !Eligible(records, id)
    ensures var s := records[id];
            RejectionOf(records, id) ==
              if s.processData || s.status == "excluded_process_data" then ProcessDataExcluded
              else if s.canonical.Some? || s.status in DONE then Duplicate
              else if s.status == "failed_permanent" then InsufficientMetadata
              else if s.sha.Some? && exists o :: o in records && o != id && records[o].sha == s.sha
                                                 && (records[o].status in DONE || (Candidate(records[o]) && !Richer(s, records[o]))) then Duplicate
              else InsufficientMetadata
  {
    if Candidate(records[id]) && !records[id].sufficient {
      OpenMeans(records, id);
      WinsMeans(records, id);
    } else if Candidate(records[id]) {
      EligibleMeans(records, id);
      WinsMeans(records, id);
    }
  }

  lemma WinsMeans(records: map<nat, Source>, id: nat)
    requires Keyed(records) && id in records && Candidate(records[id])
    ensures Wins(records, id) <==>
              (records[id].sha.Some? ==>
                 forall o :: o in records && o != id && records[o].sha == records[id].sha ==>
                   records[o].status !in DONE && (Candidate(records[o]) ==> Richer(records[id], records[o])))
  {
    OpenMeans(records, id);
    forall o | o in records && records[o].sha == records[id].sha
      ensures Open(records, o) <==> Candidate(records[o]) && (records[o].sha.Some? ==> !Completed(records, records[o].sha.value))
    {
      OpenMeans(records, o);
    }
  }

  // ---------------------------------------------------------------- orders

  predicate Before(ids: seq<nat>, x: nat, y: nat) {
    exists i, j :: 0 <= i < j < |ids| && ids[i] == x && ids[j] == y
  }

  lemma BeforeLast(front: seq<nat>, last: nat, x: nat, y: nat)
    ensures Before(front + [last], x, y) <==> Before(front, x, y) || (x in front && y == last)
  {
    var all := front + [last];
    if Before(all, x, y) {
      var i, j :| 0 <= i < j < |all| && all[i] == x && all[j] == y;
      assert all[i] == front[i] && (j < |front| ==> all[j] == front[j]);
    }
    if Before(front, x, y) {
      var i, j :| 0 <= i < j < |front| && front[i] == x && front[j] == y;
      assert all[i] == x && all[j] == y;
    }
    if x in front && y == last {
      var i :| 0 <= i < |front| && front[i] == x;
      assert all[i] == x && all[|front|] == y;
    }
  }

  lemma BeforeAppend(a: seq<nat>, b: seq<nat>, x: nat, y: nat)
    ensures Before(a + b, x, y) <==> Before(a, x, y) || (x in a && y in b) || Before(b, x, y)
    decreases |b|
  {
    if b == [] {
      assert a + b == a;
    } else {
      var front, last := b[..|b| - 1], b[|b| - 1];
      assert a + b == (a + front) + [last] && b == front + [last];
      BeforeAppend(a, front, x, y);
      BeforeLast(a + front, last, x, y);
      BeforeLast(front, last, x, y);
    }
  }

  lemma BeforeIrreflexive(ids: seq<nat>, x: nat, y: nat)
    requires NoDup(ids) && Before(ids, x, y)
    ensures x != y && !Before(ids, y, x) && x in ids && y in ids
  {
  }

  lemma OneIsBefore(ids: seq<nat>, x: nat, y: nat)
    requires x in ids && y in ids && x != y
    ensures Before(ids, x, y) || Before(ids, y, x)
  {
    var i :| 0 <= i < |ids| && ids[i] == x;
    var j :| 0 <= j < |ids| && ids[j] == y;
  }

  // What was sorted keeps its order; the new one stands behind all that score at least as much.
  lemma {:induction false} InsertOrder(x: nat, sorted: seq<nat>, scores: map<nat, real>, a: nat, b: nat)
    requires NoDup(sorted) && x !in sorted && Descending(sorted, scores)
    ensures Before(sorted, a, b) ==> Before(InsertBy(x, sorted, scores), a, b)
    ensures a in sorted && Score(scores, a) >= Score(scores, x) ==> Before(InsertBy(x, sorted, scores), a, x)
  {
    if sorted == [] || Score(scores, sorted[|sorted| - 1]) >= Score(scores, x) {
      BeforeLast(sorted, x, a, b);
      BeforeLast(sorted, x, a, x);
    } else {
      var front, last := sorted[..|sorted| - 1], sorted[|sorted| - 1];
      assert sorted == front + [last];
      InsertOrder(x, front, scores, a, b);
      InsertElements(x, front, scores);
      BeforeLast(front, last, a, b);
      BeforeLast(InsertBy(x, front, scores), last, a, b);
      BeforeLast(InsertBy(x, front, scores), last, a, x);
    }
  }

  // Sorting is stable: a source stands before another if it stood before it and scores at least
  // as much.
  lemma {:induction false} SortKeeps(ids: seq<nat>, scores: map<nat, real>, a: nat, b: nat)
    requires NoDup(ids) && Before(ids, a, b) && Score(scores, a) >= Score(scores, b)
    ensures Before(SortBy(ids, scores), a, b)
  {
    var front, last := ids[..|ids| - 1], ids[|ids| - 1];
    assert ids == front + [last];
    BeforeLast(front, last, a, b);
    SortFacts(front, scores);
    InLast(front, last, ids);
    if Before(front, a, b) {
      SortKeeps(front, scores, a, b);
    }
    InsertOrder(last, SortBy(front, scores), scores, a, b);
  }

  // The order of a sort, exactly: by score, and as before where scores are equal.
  lemma SortOrder(ids: seq<nat>, scores: map<nat, real>, a: nat, b: nat)
    requires NoDup(ids) && a in ids && b in ids && a != b
    ensures Before(SortBy(ids, scores), a, b) <==>
              Score(scores, a) > Score(scores, b) || (Score(scores, a) == Score(scores, b) && Before(ids, a, b))
  {
    SortFacts(ids, scores);
    OneIsBefore(ids, a, b);
    if Score(scores, a) == Score(scores, b) {
      if Before(ids, a, b) {
        SortKeeps(ids, scores, a, b);
        BeforeIrreflexive(SortBy(ids, scores), a, b);
      } else {
        SortKeeps(ids, scores, b, a);
        BeforeIrreflexive(SortBy(ids, scores), b, a);
      }
      if Before(ids, a, b) {
        BeforeIrreflexive(ids, a, b);
      }
    } else {
      OneIsBefore(SortBy(ids, scores), a, b);
    }
  }

  // ---------------------------------------------------------------- fusion and reranking

  lemma {:induction false} PositionIsBefore(ids: seq<nat>, x: nat, y: nat)
    requires NoDup(ids) && x in ids && y in ids && x != y
    ensures Before(ids, x, y) <==> PositionOf(ids, x) < PositionOf(ids, y)
  {
    var i, j := PositionOf(ids, x), PositionOf(ids, y);
    assert ids[i] == x && ids[j] == y;
  }

  lemma ReciprocalFalls(m: nat, n: nat)
    requires 1 <= m < n
    ensures 1.0 / m as real > 1.0 / n as real > 0.0
  {
  }

  // A ranker prefers the first: it ranks it, and the second not at all or behind.
  predicate RankedAhead(ids: seq<nat>, a: nat, b: nat) {
    a in ids && (b in ids ==> Before(ids, a, b))
  }

  lemma AheadScoresMore(ids: seq<nat>, a: nat, b: nat, k: nat)
    requires NoDup(ids) && k >= 1 && a != b && RankedAhead(ids, a, b)
    ensures Reciprocal(ids, a, k) > Reciprocal(ids, b, k)
  {
    var m := k + PositionOf(ids, a) + 1;
    ReciprocalFalls(m, m + 1);
    if b in ids {
      PositionIsBefore(ids, a, b);
      ReciprocalFalls(m, k + PositionOf(ids, b) + 1);
    }
  }

  // A source that the lexical order puts ahead, and the semantic ranker too or is silent about
  // both, stays ahead after fusion.
  lemma FusionKeepsAgreement(lexical: seq<nat>, semantic: seq<nat>, k: nat, a: nat, b: nat)
    requires NoDup(lexical) && NoDup(semantic) && k >= 1 && b in lexical && a != b
    requires RankedAhead(lexical, a, b) && (RankedAhead(semantic, a, b) || (a !in semantic && b !in semantic))
    ensures Before(Fuse(lexical, semantic, k), a, b)
  {
    AheadScoresMore(lexical, a, b, k);
    if RankedAhead(semantic, a, b) {
      AheadScoresMore(semantic, a, b, k);
    }
    SortOrder(lexical, FusionScores(lexical, semantic, k), a, b);
  }

  lemma {:induction false} WithoutOrder(ids: seq<nat>, removed: seq<nat>, a: nat, b: nat)
    requires NoDup(ids) && a !in removed && b !in removed
    ensures Before(Without(ids, removed), a, b) <==> Before(ids, a, b)
  {
    if ids != [] {
      var front, last := ids[..|ids| - 1], ids[|ids| - 1];
      assert ids == front + [last];
      InLast(front, last, ids);
      WithoutFacts(front, removed);
      WithoutOrder(front, removed, a, b);
      BeforeLast(front, last, a, b);
      if last !in removed {
        BeforeLast(Without(front, removed), last, a, b);
      } else {
        assert Without(ids, removed) == Without(front, removed);
      }
    }
  }

  // The reranker's answer comes first, in its order; the rest follows in the fused order.
  lemma RerankOrder(fused: seq<nat>, reranked: seq<nat>, a: nat, b: nat)
    requires NoDup(fused) && NoDup(reranked) && a in fused && b in fused && a != b
    ensures Before(Rerank(fused, reranked), a, b) <==>
              if a in reranked && b in reranked then Before(reranked, a, b)
              else if a in reranked || b in reranked then a in reranked
              else Before(fused, a, b)
  {
    var rest := Without(fused, reranked);
    WithoutFacts(fused, reranked);
    BeforeAppend(reranked, rest, a, b);
    if a !in reranked && b !in reranked {
      WithoutOrder(fused, reranked, a, b);
    }
    InAppend(reranked, rest, a, b);
  }

  lemma InAppend(reranked: seq<nat>, rest: seq<nat>, a: nat, b: nat)
    ensures Before(reranked, a, b) ==> a in reranked && b in reranked
    ensures Before(rest, a, b) ==> a in rest && b in rest
  {
  }

  predicate Names(answer: Option<seq<nat>>, x: nat) {
    answer.Some? && x in answer.value
  }

  // The ranker names the first, and the second not at all or only later.
  predicate Puts(answer: Option<seq<nat>>, a: nat, b: nat) {
    Names(answer, a) && (Names(answer, b) ==> PositionOf(answer.value, a) < PositionOf(answer.value, b))
  }

  lemma NormalizedBefore(candidates: seq<nat>, allowed: set<nat>, a: nat, b: nat)
    requires a in allowed && b in allowed && a != b && a in candidates
    requires b in candidates ==> PositionOf(candidates, a) < PositionOf(candidates, b)
    ensures RankedAhead(Normalized(candidates, allowed), a, b)
  {
    var ids := Normalized(candidates, allowed);
    NormalizedFacts(candidates, allowed);
    if b in ids {
      OneIsBefore(ids, a, b);
      if Before(ids, b, a) {
        var i, j :| 0 <= i < j < |ids| && ids[i] == b && ids[j] == a;
        NormalizedInOrder(candidates, allowed, i, j);
      }
    }
  }

  // The final order follows the reranker where it speaks; where it is silent about two sources
  // the one ahead in the lexical order stays ahead if the semantic ranker does not disagree.
  lemma FinalOrderMeans(lexical: seq<nat>, semantic: Option<seq<nat>>, reranker: Option<seq<nat>>, k: nat, a: nat, b: nat)
    requires NoDup(lexical) && a in lexical && b in lexical && a != b && k >= 1
    ensures Puts(reranker, a, b) ==> Before(FinalOrder(lexical, semantic, reranker, k), a, b)
    ensures !Names(reranker, a) && !Names(reranker, b) && Before(lexical, a, b)
            && (Puts(semantic, a, b) || (!Names(semantic, a) && !Names(semantic, b))) ==>
              Before(FinalOrder(lexical, semantic, reranker, k), a, b)
  {
    var allowed := Elements(lexical);
    var ranked := if semantic.Some? then Normalized(semantic.value, allowed) else [];
    var fused := Fuse(lexical, ranked, k);
    SortFacts(lexical, FusionScores(lexical, ranked, k));
    if semantic.Some? {
      NormalizedFacts(semantic.value, allowed);
      if Puts(semantic, a, b) {
        NormalizedBefore(semantic.value, allowed, a, b);
      }
    }
    if Before(lexical, a, b) && (Puts(semantic, a, b) || (!Names(semantic, a) && !Names(semantic, b))) {
      FusionKeepsAgreement(lexical, ranked, k, a, b);
    }
    if reranker.Some? {
      NormalizedFacts(reranker.value, allowed);
      RerankOrder(fused, Normalized(reranker.value, allowed), a, b);
      if Puts(reranker, a, b) {
        NormalizedBefore(reranker.value, allowed, a, b);
      }
    }
  }

  // The order before any ranker: by lexical score, then the primary corpus, then identifiers.
  lemma LexicalOrder(records: map<nat, Source>, base: seq<nat>, scores: map<nat, real>, a: nat, b: nat)
    requires BaseOrder(records, base) && a in base && b in base && a != b
    ensures a in records && b in records
    ensures Before(SortBy(base, scores), a, b) <==>
              || Score(scores, a) > Score(scores, b)
              || (Score(scores, a) == Score(scores, b)
                  && ((records[a].primary && !records[b].primary) || (records[a].primary == records[b].primary && a < b)))
  {
    assert a in Elements(base) && b in Elements(base);
    SortOrder(base, scores, a, b);
    OneIsBefore(base, a, b);
  }

  // ---------------------------------------------------------------- the budget

  // Whatever is selected keeps the policy's limits and the caller's page budget.
  lemma WithinBudget(p: Policy, sources: seq<Source>, lexicalScores: map<nat, real>, semantic: Option<seq<nat>>,
                     reranker: Option<seq<nat>>, pageBudget: Option<int>, ds: seq<Decision>)
    requires ValidPolicy(p) && Selected(p, sources, lexicalScores, semantic, reranker, pageBudget, ds)
    requires pageBudget.Some? ==> pageBudget.value >= 0
    ensures SelectedCount(ds) <= p.maxSources && SelectedPages(ds, Unique(sources)) <= p.maxPages
    ensures pageBudget.Some? ==> SelectedPages(ds, Unique(sources)) <= pageBudget.value
  {
    var records := Unique(sources);
    var base :| BaseOrder(records, base)
                && var ranked := FinalOrder(SortBy(base, lexicalScores), semantic, reranker, p.k);
                Selection.Selection(ds, records, ranked) && Greedy(ds[..|ranked|], records, p.maxSources, AvailablePages(p, pageBudget));
    var ranked := FinalOrder(SortBy(base, lexicalScores), semantic, reranker, p.k);
    GreedyIsWellSpent(ds[..|ranked|], records, p.maxSources, AvailablePages(p, pageBudget));
    forall i | |ranked| <= i < |ds|
      ensures !ds[i].selected
    {
      RejectedAt(ds, records, ranked, i);
    }
    RestCountsNothing(ds, |ranked|, records);
  }

  lemma {:induction false} RestCountsNothing(ds: seq<Decision>, n: nat, records: map<nat, Source>)
    requires n <= |ds| && forall i :: n <= i < |ds| ==> !ds[i].selected
    ensures SelectedCount(ds) == SelectedCount(ds[..n]) && SelectedPages(ds, records) == SelectedPages(ds[..n], records)
  {
    if n < |ds| {
      var front := ds[..|ds| - 1];
      assert front[..n] == ds[..n];
      RestCountsNothing(front, n, records);
    } else {
      assert ds[..n] == ds;
    }
  }
}
