// Retaining evidence from a parsed body: explicitly supported blocks become fragments, best
// first, no text twice, and every fragment gets an identifier that its content determines.

module Retention {
  import opened Common
  import Chunking

  datatype Block = Block(kind: string, text: string, page: nat, index: nat, section: Option<string>)

  datatype Assessment = Assessment(index: nat, accepted: bool, confidence: real)

  datatype Policy = Policy(maxFragments: nat, minConfidence: real, minText: nat, excluded: set<string>)

  // A fragment without what does not identify it.  Its text stands for its digest.
  datatype Fragment = Fragment(text: string, page: nat, index: nat, section: Option<string>)

  // The hashed identity: idempotency key, content digest, page, block index and section.
  datatype StableId = StableId(key: string, text: string, page: nat, index: nat, section: string)

  // What one parse and its assessment hand to the selector, under one idempotency key.
  datatype Body = Body(key: string, blocks: seq<Block>, assessments: seq<Assessment>, policy: Policy)

  predicate ValidBody(b: Body) {
    1 <= b.policy.maxFragments <= 64 && 1 <= b.policy.minText
  }

  // ---------------------------------------------------------------- assessments

  function BlockByIndex(blocks: seq<Block>): map<nat, Block> {
    if blocks == [] then map[]
    else var last := blocks[|blocks| - 1]; BlockByIndex(blocks[..|blocks| - 1])[last.index := last]
  }

  predicate DistinctIndices(assessments: seq<Assessment>) {
    forall i, j :: 0 <= i < j < |assessments| ==> assessments[i].index != assessments[j].index
  }

  predicate KnownIndices(assessments: seq<Assessment>, blocks: map<nat, Block>) {
    forall i :: 0 <= i < |assessments| ==> assessments[i].index in blocks
  }

  predicate Precedes(a: Assessment, b: Assessment) {
    a.confidence > b.confidence || (a.confidence == b.confidence && a.index < b.index)
  }

  predicate Ordered(assessments: seq<Assessment>) {
    forall i, j :: 0 <= i < j < |assessments| ==> Precedes(assessments[i], assessments[j])
  }

  function Insert(a: Assessment, sorted: seq<Assessment>): seq<Assessment> {
    if sorted == [] || Precedes(a, sorted[0]) then [a] + sorted else [sorted[0]] + Insert(a, sorted[1..])
  }

  // The library's sort by descending confidence, then by block index.
  function Ranked(assessments: seq<Assessment>): seq<Assessment> {
    if assessments == [] then [] else Insert(assessments[0], Ranked(assessments[1..]))
  }

  lemma {:induction false} InsertElements(a: Assessment, sorted: seq<Assessment>)
    ensures forall x :: x in Insert(a, sorted) <==> x == a || x in sorted
  {
    if sorted != [] && !Precedes(a, sorted[0]) {
      InsertElements(a, sorted[1..]);
      assert sorted == [sorted[0]] + sorted[1..];
    }
  }

  lemma {:induction false} InsertOrdered(a: Assessment, sorted: seq<Assessment>)
    requires Ordered(sorted) && forall x :: x in sorted ==> x.index != a.index
    ensures Ordered(Insert(a, sorted))
  {
    if sorted != [] && !Precedes(a, sorted[0]) {
      InsertOrdered(a, sorted[1..]);
      InsertElements(a, sorted[1..]);
      forall x | x in Insert(a, sorted[1..])
        ensures Precedes(sorted[0], x)
      {
        assert sorted[0] in sorted;
      }
      ConsOrdered(sorted[0], Insert(a, sorted[1..]));
    } else if sorted != [] {
      ConsOrdered(a, sorted);
    }
  }

  lemma ConsOrdered(a: Assessment, rest: seq<Assessment>)
    requires Ordered(rest) && (rest != [] ==> Precedes(a, rest[0]))
    ensures Ordered([a] + rest)
  {
    var all := [a] + rest;
    forall i, j | 0 <= i < j < |all|
      ensures Precedes(all[i], all[j])
    {
      assert all[j] == rest[j - 1] && (i > 0 ==> all[i] == rest[i - 1]);
      assert j > 1 ==> Precedes(rest[0], rest[j - 1]);
    }
  }

  // Ranking only reorders, best first.
  lemma {:induction false} RankedFacts(assessments: seq<Assessment>)
    requires DistinctIndices(assessments)
    ensures Ordered(Ranked(assessments))
    ensures forall x :: x in Ranked(assessments) <==> x in assessments
  {
    if assessments != [] {
      var first, rest := assessments[0], assessments[1..];
      RankedFacts(rest);
      assert assessments == [first] + rest;
      forall x | x in Ranked(rest)
        ensures x.index != first.index
      {
        var i :| 0 <= i < |rest| && rest[i] == x;
        assert assessments[i + 1] == x;
      }
      InsertOrdered(first, Ranked(rest));
      InsertElements(first, Ranked(rest));
    }
  }

  // ---------------------------------------------------------------- keeping

  predicate Eligible(b: Body, a: Assessment) {
    var blocks := BlockByIndex(b.blocks);
    && a.accepted && a.confidence >= b.policy.minConfidence
    && a.index in blocks && blocks[a.index].kind !in b.policy.excluded
    && |Chunking.Strip(blocks[a.index].text)| >= b.policy.minText
  }

  function FragmentOf(b: Body, a: Assessment): Fragment
    requires a.index in BlockByIndex(b.blocks)
  {
    var block := BlockByIndex(b.blocks)[a.index];
    Fragment(Chunking.Strip(block.text), block.page, a.index, block.section)
  }

  function Texts(kept: seq<Fragment>): set<string> {
    set f | f in kept :: f.text
  }

  // Down the ranking, an eligible block is kept unless its text is already or there is no room.
  function Kept(b: Body, ranked: seq<Assessment>): seq<Fragment> {
    if ranked == [] then []
    else
      var kept, a := Kept(b, ranked[..|ranked| - 1]), ranked[|ranked| - 1];
      if |kept| < b.policy.maxFragments && Eligible(b, a) && FragmentOf(b, a).text !in Texts(kept) then kept + [FragmentOf(b, a)] else kept
  }

  // A repeated or unknown block index is refused.
  predicate Assessed(b: Body) {
    DistinctIndices(b.assessments) && KnownIndices(b.assessments, BlockByIndex(b.blocks))
  }

  lemma {:induction false} KeptFull(b: Body, ranked: seq<Assessment>, n: nat)
    requires n <= |ranked| && |Kept(b, ranked[..n])| >= b.policy.maxFragments
    ensures Kept(b, ranked) == Kept(b, ranked[..n])
  {
    if n < |ranked| {
      var front := ranked[..|ranked| - 1];
      assert front[..n] == ranked[..n];
      KeptFull(b, front, n);
    } else {
      assert ranked[..n] == ranked;
    }
  }

  // The selector's two loops; an error stands for the one it raises.
  method Retain(b: Body) returns (r: Option<seq<Fragment>>)
    requires ValidBody(b)
    ensures r == if Assessed(b) then Some(Kept(b, Ranked(b.assessments))) else None
  {
    var blocks := BlockByIndex(b.blocks);
    var seen: set<nat> := {};
    for i := 0 to |b.assessments|
      invariant forall x :: x in seen <==> exists j :: 0 <= j < i && b.assessments[j].index == x
      invariant DistinctIndices(b.assessments[..i]) && KnownIndices(b.assessments[..i], blocks)
    {
      var a := b.assessments[i];
      if a.index in seen || a.index !in blocks {
        RefusedAt(b, i);
        return None;
      }
      AcceptedAt(b.assessments, i, blocks);
      seen := seen + {a.index};
    }
    assert b.assessments[..|b.assessments|] == b.assessments;
    var ranked := Ranked(b.assessments);
    var retained: seq<Fragment>, hashes: set<string> := [], {};
    assert ranked[..0] == [];
    var i := 0;
    while i < |ranked|
      invariant 0 <= i <= |ranked|
      invariant retained == Kept(b, ranked[..i]) && hashes == Texts(retained) && |retained| < b.policy.maxFragments
    {
      var a := ranked[i];
      assert ranked[..i + 1][..i] == ranked[..i];
      i := i + 1;
      if Eligible(b, a) && FragmentOf(b, a).text !in hashes {
        TextsMore(retained, FragmentOf(b, a));
        retained := retained + [FragmentOf(b, a)];
        hashes := hashes + {FragmentOf(b, a).text};
        if |retained| >= b.policy.maxFragments {
          KeptFull(b, ranked, i);
          return Some(retained);
        }
      }
    }
    assert ranked[..|ranked|] == ranked;
    r := Some(retained);
  }

  lemma TextsMore(kept: seq<Fragment>, f: Fragment)
    ensures Texts(kept + [f]) == Texts(kept) + {f.text}
  {
    assert f in kept + [f];
  }

  lemma RefusedAt(b: Body, i: nat)
    requires i < |b.assessments|
    requires (exists j :: 0 <= j < i && b.assessments[j].index == b.assessments[i].index)
             || b.assessments[i].index !in BlockByIndex(b.blocks)
    ensures !Assessed(b)
  {
  }

  lemma AcceptedAt(assessments: seq<Assessment>, i: nat, blocks: map<nat, Block>)
    requires i < |assessments| && DistinctIndices(assessments[..i]) && KnownIndices(assessments[..i], blocks)
    requires assessments[i].index in blocks && forall j :: 0 <= j < i ==> assessments[j].index != assessments[i].index
    ensures DistinctIndices(assessments[..i + 1]) && KnownIndices(assessments[..i + 1], blocks)
  {
    var before, after := assessments[..i], assessments[..i + 1];
    forall k, l | 0 <= k < l < |after|
      ensures after[k].index != after[l].index
    {
      assert l < i ==> before[k].index != before[l].index;
    }
    forall k | 0 <= k < |after|
      ensures after[k].index in blocks
    {
      assert k < i ==> before[k].index in blocks;
    }
  }

  // ---------------------------------------------------------------- what is kept

  // No text and no block index occurs twice.
  predicate Distinct(kept: seq<Fragment>) {
    forall i, j :: 0 <= i < j < |kept| ==> kept[i].text != kept[j].text && kept[i].index != kept[j].index
  }

  // Every kept fragment is that of an eligible assessment among these.
  predicate From(b: Body, ranked: seq<Assessment>, f: Fragment) {
    exists a :: a in ranked && Eligible(b, a) && f == FragmentOf(b, a)
  }

  lemma {:induction false} KeptFacts(b: Body, ranked: seq<Assessment>)
    requires Ordered(ranked) && DistinctIndices(ranked)
    ensures |Kept(b, ranked)| <= b.policy.maxFragments && Distinct(Kept(b, ranked))
    ensures forall f :: f in Kept(b, ranked) ==> From(b, ranked, f)
    ensures |Kept(b, ranked)| < b.policy.maxFragments ==>
              forall a :: a in ranked && Eligible(b, a) ==> FragmentOf(b, a).text in Texts(Kept(b, ranked))
  {
    if ranked != [] {
      var front, a := ranked[..|ranked| - 1], ranked[|ranked| - 1];
      var kept := Kept(b, front);
      KeptFacts(b, front);
      assert ranked == front + [a];
      forall f | f in kept
        ensures From(b, ranked, f) && f.index != a.index
      {
        var x :| x in front && Eligible(b, x) && f == FragmentOf(b, x);
        assert x in ranked;
      }
      if Kept(b, ranked) != kept {
        TextsMore(kept, FragmentOf(b, a));
        assert a in ranked && From(b, ranked, FragmentOf(b, a));
        forall i | 0 <= i < |kept|
          ensures kept[i].text != FragmentOf(b, a).text && kept[i].index != a.index
        {
          assert kept[i] in kept && kept[i].text in Texts(kept);
        }
      }
    }
  }

  lemma OrderedDistinct(ranked: seq<Assessment>, assessments: seq<Assessment>)
    requires Ordered(ranked) && DistinctIndices(assessments) && forall x :: x in ranked <==> x in assessments
    ensures DistinctIndices(ranked)
  {
    forall i, j | 0 <= i < j < |ranked|
      ensures ranked[i].index != ranked[j].index
    {
      assert Precedes(ranked[i], ranked[j]) && ranked[i] in assessments && ranked[j] in assessments;
    }
  }

  // For every list of assessments: within the limit, no block and no text twice, each kept
  // fragment supported by an eligible assessment, and nothing eligible missing while there
  // was room, except under a text that is kept.
  lemma RetainedFacts(b: Body)
    requires ValidBody(b) && Assessed(b)
    ensures var kept := Kept(b, Ranked(b.assessments));
            && |kept| <= b.policy.maxFragments && Distinct(kept)
            && (forall f :: f in kept ==> From(b, b.assessments, f))
            && (|kept| < b.policy.maxFragments ==>
                  forall a :: a in b.assessments && Eligible(b, a) ==> FragmentOf(b, a).text in Texts(kept))
  {
    var ranked := Ranked(b.assessments);
    RankedFacts(b.assessments);
    OrderedDistinct(ranked, b.assessments);
    KeptFacts(b, ranked);
    forall f | f in Kept(b, ranked)
      ensures From(b, b.assessments, f)
    {
      var a :| a in ranked && Eligible(b, a) && f == FragmentOf(b, a);
      assert a in b.assessments;
    }
  }

  // ---------------------------------------------------------------- what a fragment comes from

  // The last block with this index.
  predicate BlockAt(b: Body, index: nat, k: nat) {
    k < |b.blocks| && b.blocks[k].index == index && forall j :: k < j < |b.blocks| ==> b.blocks[j].index != index
  }

  lemma {:induction false} BlocksByIndex(blocks: seq<Block>, k: nat)
    requires k < |blocks| && forall j :: k < j < |blocks| ==> blocks[j].index != blocks[k].index
    ensures blocks[k].index in BlockByIndex(blocks) && BlockByIndex(blocks)[blocks[k].index] == blocks[k]
  {
    if k < |blocks| - 1 {
      BlocksByIndex(blocks[..|blocks| - 1], k);
    }
  }

  lemma {:induction false} IndexHasBlock(blocks: seq<Block>, index: nat) returns (k: nat)
    requires index in BlockByIndex(blocks)
    ensures k < |blocks| && blocks[k].index == index && forall j :: k < j < |blocks| ==> blocks[j].index != index
  {
    k := |blocks| - 1;
    if blocks[k].index != index {
      k := IndexHasBlock(blocks[..|blocks| - 1], index);
    }
  }

  // An assessment supports keeping its block: accepted, certain enough, of a kind that is not
  // excluded, with enough text.
  predicate Supports(b: Body, a: Assessment, k: nat) {
    && BlockAt(b, a.index, k)
    && a.accepted && b.policy.minConfidence <= a.confidence && b.blocks[k].kind !in b.policy.excluded
    && |Chunking.Strip(b.blocks[k].text)| >= b.policy.minText
  }

  lemma SupportsIff(b: Body, a: Assessment, k: nat)
    requires BlockAt(b, a.index, k)
    ensures Eligible(b, a) <==> Supports(b, a, k)
    ensures a.index in BlockByIndex(b.blocks) && FragmentOf(b, a) == Fragment(Chunking.Strip(b.blocks[k].text), b.blocks[k].page, a.index, b.blocks[k].section)
  {
    BlocksByIndex(b.blocks, k);
  }

  // No fragment comes from a block that was not accepted, was too uncertain, is of an excluded
  // kind or too short: each is the stripped text of a supported block, with its place.
  lemma KeptIsSupported(b: Body, f: Fragment) returns (a: Assessment, k: nat)
    requires ValidBody(b) && Assessed(b) && f in Kept(b, Ranked(b.assessments))
    ensures a in b.assessments && Supports(b, a, k)
    ensures f == Fragment(Chunking.Strip(b.blocks[k].text), b.blocks[k].page, a.index, b.blocks[k].section)
  {
    RetainedFacts(b);
    a :| a in b.assessments && Eligible(b, a) && f == FragmentOf(b, a);
    k := IndexHasBlock(b.blocks, a.index);
    SupportsIff(b, a, k);
  }

  // `x` is at least as certain as `y`, and before it if they are equally certain.
  predicate Surer(x: Assessment, y: Assessment) {
    x.confidence > y.confidence || (x.confidence == y.confidence && x.index <= y.index)
  }

  // A supported block is passed over only for better ones: its text is kept already, or the
  // limit was reached with fragments that are all surer.
  lemma PassedOverForBetter(b: Body, a: Assessment, k: nat)
    requires ValidBody(b) && Assessed(b) && a in b.assessments && Supports(b, a, k)
    requires Chunking.Strip(b.blocks[k].text) !in Texts(Kept(b, Ranked(b.assessments)))
    ensures |Kept(b, Ranked(b.assessments))| == b.policy.maxFragments
    ensures forall f :: f in Kept(b, Ranked(b.assessments)) ==>
              exists x :: x in b.assessments && x.index == f.index && x.accepted && Surer(x, a)
  {
    var ranked := Ranked(b.assessments);
    RankedFacts(b.assessments);
    OrderedDistinct(ranked, b.assessments);
    RetainedFacts(b);
    SupportsIff(b, a, k);
    assert a in ranked;
    var i :| 0 <= i < |ranked| && ranked[i] == a;
    FullBefore(b, ranked, i);
    forall f | f in Kept(b, ranked)
      ensures exists x :: x in b.assessments && x.index == f.index && x.accepted && Surer(x, a)
    {
      KeptFacts(b, ranked[..i]);
      var x :| x in ranked[..i] && Eligible(b, x) && f == FragmentOf(b, x);
      var j :| 0 <= j < i && ranked[j] == x;
      assert Precedes(ranked[j], ranked[i]) && x in b.assessments;
    }
  }

  // An eligible assessment whose text is not kept found the limit reached.
  lemma {:induction false} FullBefore(b: Body, ranked: seq<Assessment>, i: nat)
    requires Ordered(ranked) && DistinctIndices(ranked) && i < |ranked| && Eligible(b, ranked[i])
    requires FragmentOf(b, ranked[i]).text !in Texts(Kept(b, ranked))
    ensures |Kept(b, ranked[..i])| >= b.policy.maxFragments && Kept(b, ranked) == Kept(b, ranked[..i])
    ensures Ordered(ranked[..i]) && DistinctIndices(ranked[..i])
  {
    var front := ranked[..i + 1];
    assert front[..i] == ranked[..i];
    if |Kept(b, ranked[..i])| < b.policy.maxFragments {
      TextsMore(Kept(b, ranked[..i]), FragmentOf(b, ranked[i]));
      assert FragmentOf(b, ranked[i]).text in Texts(Kept(b, front));
      KeptGrows(b, ranked, i + 1);
    } else {
      KeptFull(b, ranked, i);
    }
  }

  lemma {:induction false} KeptGrows(b: Body, ranked: seq<Assessment>, n: nat)
    requires n <= |ranked|
    ensures Texts(Kept(b, ranked[..n])) <= Texts(Kept(b, ranked))
  {
    if n < |ranked| {
      var front := ranked[..|ranked| - 1];
      assert front[..n] == ranked[..n];
      KeptGrows(b, front, n);
    } else {
      assert ranked[..n] == ranked;
    }
  }

  // ---------------------------------------------------------------- stable identifiers

  function Identify(key: string, f: Fragment): StableId {
    StableId(key, f.text, f.page, f.index, if f.section.Some? then f.section.value else "")
  }

  function Identities(key: string, kept: seq<Fragment>): seq<StableId> {
    seq(|kept|, i requires 0 <= i < |kept| => Identify(key, kept[i]))
  }

  // The identifiers of what a body yields; none if its assessments are refused.
  function Fragments(b: Body): seq<StableId> {
    if Assessed(b) then Identities(b.key, Kept(b, Ranked(b.assessments))) else []
  }

  method StableFragments(key: string, kept: seq<Fragment>) returns (ids: seq<StableId>)
    ensures ids == Identities(key, kept)
  {
    ids := [];
    for i := 0 to |kept|
      invariant ids == Identities(key, kept[..i])
    {
      ids := ids + [Identify(key, kept[i])];
    }
    assert kept[..|kept|] == kept;
  }

  // The stable identifiers of one body are distinct, by their text and again by their block.
  lemma FragmentsDistinct(b: Body)
    requires ValidBody(b)
    ensures NoDup(Fragments(b)) && |Fragments(b)| <= b.policy.maxFragments
    ensures forall i, j :: 0 <= i < j < |Fragments(b)| ==>
              Fragments(b)[i].text != Fragments(b)[j].text && Fragments(b)[i].index != Fragments(b)[j].index
  {
    if Assessed(b) {
      RetainedFacts(b);
    }
  }

  // The evidence table has one row per identifier.  A list of fragments fills as many rows as
  // it is long exactly when no identifier occurs twice.
  lemma RowsCountIff(ids: seq<StableId>)
    ensures |Elements(ids)| == |ids| <==> NoDup(ids)
  {
    if NoDup(ids) {
      NoDupCardinality(ids);
    } else {
      var i, j :| 0 <= i < j < |ids| && ids[i] == ids[j];
      var fewer := ids[..j] + ids[j + 1..];
      assert fewer[i] == ids[i];
      forall k | 0 <= k < |ids|
        ensures ids[k] in fewer
      {
        assert k < j ==> fewer[k] == ids[k];
        assert k > j ==> fewer[k - 1] == ids[k];
      }
      assert Elements(ids) == Elements(fewer);
      ElementsBound(fewer);
    }
  }

  lemma {:induction false} ElementsBound(ids: seq<StableId>)
    ensures |Elements(ids)| <= |ids|
  {
    if ids != [] {
      var front := ids[..|ids| - 1];
      ElementsBound(front);
      assert ids == front + [ids[|ids| - 1]];
      assert Elements(ids) == Elements(front) + {ids[|ids| - 1]};
    }
  }

  // So a body's fragments fill exactly as many rows as they are.
  lemma FragmentsFillRows(b: Body)
    requires ValidBody(b)
    ensures |Elements(Fragments(b))| == |Fragments(b)|
  {
    FragmentsDistinct(b);
    RowsCountIff(Fragments(b));
  }

  // The selector, then the identifiers: what is to be made durable, and the rows it fills.
  method SelectFragments(b: Body) returns (ids: Option<seq<StableId>>)
    requires ValidBody(b)
    ensures ids == if Assessed(b) then Some(Fragments(b)) else None
    ensures ids.Some? ==> |Elements(ids.value)| == |ids.value|
  {
    var kept := Retain(b);
    if kept.None? {
      return None;
    }
    var fragments := StableFragments(b.key, kept.value);
    FragmentsFillRows(b);
    ids := Some(fragments);
  }
}
