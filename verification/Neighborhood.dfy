// The capped breadth-first search over the edge index and the capped scan for the
// edges induced by what the search selected.

module Neighborhood {
  import opened Common
  import opened LayoutIndex

  // ---------------------------------------------------------------- plain graph

  predicate Joins(edge: Edge, u: nat, v: nat) {
    edge == Edge(u, v) || edge == Edge(v, u)
  }

  ghost predicate Adjacent(es: seq<Edge>, u: nat, v: nat) {
    exists e :: 0 <= e < |es| && Joins(es[e], u, v)
  }

  // `v` lies at undirected distance at most `d` from `c`.
  ghost predicate Within(es: seq<Edge>, c: nat, d: nat, v: nat) {
    if d == 0 then v == c
    else Within(es, c, d - 1, v) || exists w: nat :: Within(es, c, d - 1, w) && Adjacent(es, w, v)
  }

  ghost predicate Walk(es: seq<Edge>, p: seq<nat>) {
    p != [] && forall i :: 0 <= i < |p| - 1 ==> Adjacent(es, p[i], p[i + 1])
  }

  lemma {:induction false} WithinMonotone(es: seq<Edge>, c: nat, d: nat, k: nat, v: nat)
    requires d <= k && Within(es, c, d, v)
    ensures Within(es, c, k, v)
    decreases k
  {
    if d < k {
      WithinMonotone(es, c, d, k - 1, v);
    }
  }

  lemma {:induction false} WithinInRange(es: seq<Edge>, n: nat, c: nat, d: nat, v: nat)
    requires InRange(es, n) && c < n && Within(es, c, d, v)
    ensures v < n
  {
    if d > 0 && !Within(es, c, d - 1, v) {
      var w: nat :| Within(es, c, d - 1, w) && Adjacent(es, w, v);
    } else if d > 0 {
      WithinInRange(es, n, c, d - 1, v);
    }
  }

  lemma {:induction false} WalkToWithin(es: seq<Edge>, p: seq<nat>)
    requires Walk(es, p)
    ensures Within(es, p[0], |p| - 1, p[|p| - 1])
  {
    if |p| > 1 {
      var q := p[..|p| - 1];
      assert Walk(es, q) by {
        forall i | 0 <= i < |q| - 1
          ensures Adjacent(es, q[i], q[i + 1])
        {
          assert Adjacent(es, p[i], p[i + 1]);
        }
      }
      WalkToWithin(es, q);
      var i := |p| - 2;
      assert Adjacent(es, p[i], p[i + 1]);
    }
  }

  lemma {:induction false} WithinToWalk(es: seq<Edge>, c: nat, d: nat, v: nat) returns (p: seq<nat>)
    requires Within(es, c, d, v)
    ensures Walk(es, p) && |p| <= d + 1 && p[0] == c && p[|p| - 1] == v
  {
    if d == 0 {
      p := [c];
    } else if Within(es, c, d - 1, v) {
      p := WithinToWalk(es, c, d - 1, v);
    } else {
      var w: nat :| Within(es, c, d - 1, w) && Adjacent(es, w, v);
      var q := WithinToWalk(es, c, d - 1, w);
      p := q + [v];
      forall i | 0 <= i < |p| - 1
        ensures Adjacent(es, p[i], p[i + 1])
      {
        if i < |q| - 1 {
          assert Adjacent(es, q[i], q[i + 1]);
        }
      }
    }
  }

  // The distance ball is what walks of bounded length reach.
  lemma BallIsWalks(es: seq<Edge>, c: nat, d: nat, v: nat)
    ensures Within(es, c, d, v) <==> exists p :: Walk(es, p) && |p| <= d + 1 && p[0] == c && p[|p| - 1] == v
  {
    if Within(es, c, d, v) {
      var p := WithinToWalk(es, c, d, v);
    }
    forall p | Walk(es, p) && |p| <= d + 1 && p[0] == c && p[|p| - 1] == v
      ensures Within(es, c, d, v)
    {
      WalkToWithin(es, p);
      WithinMonotone(es, c, |p| - 1, d, v);
    }
  }

  // ---------------------------------------------------------------- the search

  function Other(edge: Edge, v: nat): nat {
    if edge.source == v then edge.target else edge.source
  }

  // Nearest first, and nothing is listed before everything nearer is.
  ghost predicate ByDistance(es: seq<Edge>, c: nat, order: seq<nat>) {
    && (forall i, j, k: nat :: 0 <= i < j < |order| && Within(es, c, k, order[j]) ==> Within(es, c, k, order[i]))
    && (forall j, k: nat, v: nat :: 0 <= j < |order| && Within(es, c, k, v) && !Within(es, c, k, order[j]) ==> v in order)
  }

  // Every neighbour of `v` is listed.
  ghost predicate Explored(es: seq<Edge>, order: seq<nat>, v: nat) {
    forall w: nat :: Adjacent(es, v, w) ==> w in order
  }

  // The search stands between two levels: `order` is the ball of radius `d`, and only
  // frontier nodes may have neighbours outside it.
  ghost predicate AtLevel(es: seq<Edge>, c: nat, d: nat, order: seq<nat>, frontier: seq<nat>) {
    && NoDup(order)
    && (forall v: nat :: v in order <==> Within(es, c, d, v))
    && (forall v :: v in frontier ==> v in order)
    && (forall v :: v in order ==> v in frontier || Explored(es, order, v))
    && ByDistance(es, c, order)
  }

  // The search stands inside level `d + 1`: `inner` is the ball of radius `d`.
  ghost predicate InLevel(es: seq<Edge>, c: nat, d: nat, inner: seq<nat>, order: seq<nat>, next: seq<nat>) {
    && order == inner + next
    && NoDup(order)
    && (forall v: nat :: v in inner <==> Within(es, c, d, v))
    && (forall v :: v in next ==> Within(es, c, d + 1, v))
  }

  lemma InLevelByDistance(es: seq<Edge>, c: nat, d: nat, inner: seq<nat>, order: seq<nat>, next: seq<nat>)
    requires InLevel(es, c, d, inner, order, next) && ByDistance(es, c, inner)
    ensures ByDistance(es, c, order)
  {
    forall i, j, k: nat | 0 <= i < j < |order| && Within(es, c, k, order[j])
      ensures Within(es, c, k, order[i])
    {
      if j < |inner| {
        assert Within(es, c, k, inner[j]);
        assert Within(es, c, k, inner[i]);
      } else {
        NextIsFar(es, c, d, inner, order, next, order[j], k);
        if i < |inner| {
          assert inner[i] in inner;
          WithinMonotone(es, c, d, k, order[i]);
        } else {
          assert order[i] in next;
          WithinMonotone(es, c, d + 1, k, order[i]);
        }
      }
    }
    forall j, k: nat, v: nat | 0 <= j < |order| && Within(es, c, k, v) && !Within(es, c, k, order[j])
      ensures v in order
    {
      if j < |inner| {
        assert !Within(es, c, k, inner[j]);
      } else if k <= d {
        WithinMonotone(es, c, k, d, v);
      } else {
        assert order[j] in next;
        WithinMonotone(es, c, d + 1, k, order[j]);
      }
    }
  }

  lemma NextIsFar(es: seq<Edge>, c: nat, d: nat, inner: seq<nat>, order: seq<nat>, next: seq<nat>, v: nat, k: nat)
    requires InLevel(es, c, d, inner, order, next) && v in next && Within(es, c, k, v)
    ensures k >= d + 1
  {
    if k <= d {
      WithinMonotone(es, c, k, d, v);
      InnerApart(inner, next, v);
    }
  }

  lemma InnerApart(inner: seq<nat>, next: seq<nat>, v: nat)
    requires NoDup(inner + next) && v in next
    ensures v !in inner
  {
    var b :| 0 <= b < |next| && next[b] == v;
    forall a | 0 <= a < |inner|
      ensures inner[a] != v
    {
      assert (inner + next)[a] != (inner + next)[|inner| + b];
    }
  }

  lemma SliceIsIncidences(ix: EdgeIndex, v: nat)
    requires Exact(ix) && v < ix.nodeCount
    ensures ix.offsets[v] <= ix.offsets[v + 1] <= |ix.incident|
    ensures forall i :: ix.offsets[v] <= i < ix.offsets[v + 1] ==>
              && ix.incident[i] < |ix.edges|
              && (ix.edges[ix.incident[i]].source == v || ix.edges[ix.incident[i]].target == v)
  {
    assert SliceExact(ix, v);
    var slice := ix.incident[ix.offsets[v]..ix.offsets[v + 1]];
    forall i | ix.offsets[v] <= i < ix.offsets[v + 1]
      ensures ix.incident[i] < |ix.edges|
      ensures ix.edges[ix.incident[i]].source == v || ix.edges[ix.incident[i]].target == v
    {
      assert ix.incident[i] == slice[i - ix.offsets[v]];
      IncidencesMember(ix.edges, v, |ix.edges|, ix.incident[i]);
    }
  }

  lemma EdgeInSlice(ix: EdgeIndex, v: nat, e: nat)
    requires Exact(ix) && v < ix.nodeCount && e < |ix.edges|
    requires ix.edges[e].source == v || ix.edges[e].target == v
    ensures ix.offsets[v] <= ix.offsets[v + 1] <= |ix.incident|
    ensures exists i :: ix.offsets[v] <= i < ix.offsets[v + 1] && ix.incident[i] == e
  {
    assert SliceExact(ix, v);
    var slice := ix.incident[ix.offsets[v]..ix.offsets[v + 1]];
    IncidencesMember(ix.edges, v, |ix.edges|, e);
    var j :| 0 <= j < |slice| && slice[j] == e;
    assert ix.incident[ix.offsets[v] + j] == e;
  }

  lemma ExploredBySlice(ix: EdgeIndex, order: seq<nat>, v: nat)
    requires Exact(ix) && v < ix.nodeCount && v in order
    requires ix.offsets[v] <= ix.offsets[v + 1] <= |ix.incident|
    requires forall i :: ix.offsets[v] <= i < ix.offsets[v + 1] ==>
               ix.incident[i] < |ix.edges| && Other(ix.edges[ix.incident[i]], v) in order
    ensures Explored(ix.edges, order, v)
  {
    forall w: nat | Adjacent(ix.edges, v, w)
      ensures w in order
    {
      var e :| 0 <= e < |ix.edges| && Joins(ix.edges[e], v, w);
      EdgeInSlice(ix, v, e);
      var i :| ix.offsets[v] <= i < ix.offsets[v + 1] && ix.incident[i] == e;
      assert Other(ix.edges[ix.incident[i]], v) in order;
    }
  }

  lemma ExploredGrows(es: seq<Edge>, a: seq<nat>, b: seq<nat>, v: nat)
    requires Explored(es, a, v) && a <= b
    ensures Explored(es, b, v)
  {
  }

  // One frontier node: list its unlisted neighbours while there is room.
  method ScanNode(ix: EdgeIndex, ghost c: nat, ghost d: nat, ghost inner: seq<nat>,
                  current: nat, selected: set<nat>, order: seq<nat>, next: seq<nat>, maxNodes: nat)
    returns (selected': set<nat>, order': seq<nat>, next': seq<nat>, truncated: bool)
    requires Exact(ix) && current < ix.nodeCount && current in inner
    requires InLevel(ix.edges, c, d, inner, order, next) && |order| <= maxNodes && selected == Elements(order)
    ensures InLevel(ix.edges, c, d, inner, order', next') && |order'| <= maxNodes && order <= order'
    ensures selected' == Elements(order')
    ensures !truncated ==> Explored(ix.edges, order', current)
    ensures truncated ==> |order'| == maxNodes && exists v: nat :: v !in order' && Within(ix.edges, c, d + 1, v)
  {
    selected', order', next', truncated := selected, order, next, false;
    SliceIsIncidences(ix, current);
    for offset: nat := ix.offsets[current] to ix.offsets[current + 1]
      invariant InLevel(ix.edges, c, d, inner, order', next') && |order'| <= maxNodes && order <= order'
      invariant selected' == Elements(order')
      invariant forall i :: ix.offsets[current] <= i < offset ==> Other(ix.edges[ix.incident[i]], current) in order'
    {
      var edge := ix.edges[ix.incident[offset]];
      var neighbor := if edge.source == current then edge.target else edge.source;
      if neighbor !in selected' {
        NeighbourIsNear(ix.edges, c, d, inner, current, ix.incident[offset], neighbor);
        NoDupCardinality(order');
        if |selected'| >= maxNodes {
          return selected', order', next', true;
        }
        AppendNext(ix.edges, c, d, inner, order', next', neighbor);
        selected', order', next' := selected' + {neighbor}, order' + [neighbor], next' + [neighbor];
      }
    }
    ExploredBySlice(ix, order', current);
  }

  lemma NeighbourIsNear(es: seq<Edge>, c: nat, d: nat, inner: seq<nat>, current: nat, e: nat, neighbor: nat)
    requires e < |es| && (es[e].source == current || es[e].target == current) && neighbor == Other(es[e], current)
    requires current in inner && forall v: nat :: v in inner <==> Within(es, c, d, v)
    ensures Within(es, c, d + 1, neighbor)
  {
    assert Joins(es[e], current, neighbor);
    assert Within(es, c, d, current) && Adjacent(es, current, neighbor);
  }

  lemma AppendNext(es: seq<Edge>, c: nat, d: nat, inner: seq<nat>, order: seq<nat>, next: seq<nat>, v: nat)
    requires InLevel(es, c, d, inner, order, next) && v !in order && Within(es, c, d + 1, v)
    ensures InLevel(es, c, d, inner, order + [v], next + [v])
  {
    assert order + [v] == inner + (next + [v]);
  }

  // One level of the search: every frontier node in turn.
  method ExpandLevel(ix: EdgeIndex, ghost c: nat, ghost d: nat,
                     selected: set<nat>, order: seq<nat>, frontier: seq<nat>, maxNodes: nat)
    returns (selected': set<nat>, order': seq<nat>, next: seq<nat>, truncated: bool)
    requires Exact(ix) && c < ix.nodeCount
    requires AtLevel(ix.edges, c, d, order, frontier) && |order| <= maxNodes && selected == Elements(order)
    ensures selected' == Elements(order')
    ensures NoDup(order') && |order'| <= maxNodes && order <= order' && ByDistance(ix.edges, c, order')
    ensures !truncated ==> AtLevel(ix.edges, c, d + 1, order', next)
    ensures !truncated && next == [] ==> order' == order
    ensures truncated ==> |order'| == maxNodes && exists v: nat :: v !in order' && Within(ix.edges, c, d + 1, v)
    ensures truncated ==> forall v :: v in order' ==> Within(ix.edges, c, d + 1, v)
  {
    selected', order', next, truncated := selected, order, [], false;
    for i := 0 to |frontier|
      invariant InLevel(ix.edges, c, d, order, order', next) && |order'| <= maxNodes
      invariant selected' == Elements(order')
      invariant forall j :: 0 <= j < i ==> Explored(ix.edges, order', frontier[j])
    {
      assert frontier[i] in frontier;
      WithinInRange(ix.edges, ix.nodeCount, c, d, frontier[i]);
      ghost var before := order';
      selected', order', next, truncated := ScanNode(ix, c, d, order, frontier[i], selected', order', next, maxNodes);
      if truncated {
        LevelReached(ix.edges, c, d, order, order', next);
        InLevelByDistance(ix.edges, c, d, order, order', next);
        return;
      }
      forall j | 0 <= j < i
        ensures Explored(ix.edges, order', frontier[j])
      {
        ExploredGrows(ix.edges, before, order', frontier[j]);
      }
    }
    InLevelByDistance(ix.edges, c, d, order, order', next);
    LevelReached(ix.edges, c, d, order, order', next);
    LevelComplete(ix.edges, c, d, order, frontier, order', next);
  }

  lemma LevelReached(es: seq<Edge>, c: nat, d: nat, inner: seq<nat>, order: seq<nat>, next: seq<nat>)
    requires InLevel(es, c, d, inner, order, next)
    ensures forall v :: v in order ==> Within(es, c, d + 1, v)
  {
    forall v | v in order
      ensures Within(es, c, d + 1, v)
    {
      if v in inner {
        assert Within(es, c, d, v);
      } else {
        assert v in next;
      }
    }
  }

  lemma LevelComplete(es: seq<Edge>, c: nat, d: nat, inner: seq<nat>, frontier: seq<nat>, order: seq<nat>, next: seq<nat>)
    requires AtLevel(es, c, d, inner, frontier) && InLevel(es, c, d, inner, order, next)
    requires forall v :: v in frontier ==> Explored(es, order, v)
    requires ByDistance(es, c, order)
    ensures AtLevel(es, c, d + 1, order, next)
  {
    forall v | v in inner
      ensures Explored(es, order, v)
    {
      if v !in frontier {
        ExploredGrows(es, inner, order, v);
      }
    }
    LevelReached(es, c, d, inner, order, next);
    forall v: nat | Within(es, c, d + 1, v)
      ensures v in order
    {
      if Within(es, c, d, v) {
        assert v in inner;
      } else {
        var w: nat :| Within(es, c, d, w) && Adjacent(es, w, v);
        assert w in inner;
      }
    }
    forall v | v in order
      ensures v in next || Explored(es, order, v)
    {
      assert v in inner || v in next;
    }
  }

  // When a level adds nothing the ball has stopped growing.
  lemma {:induction false} BallStops(es: seq<Edge>, c: nat, d: nat, k: nat, order: seq<nat>, v: nat)
    requires d <= k
    requires forall w: nat :: w in order <==> Within(es, c, d, w)
    requires forall w :: w in order ==> Explored(es, order, w)
    ensures v in order <==> Within(es, c, k, v)
    decreases k
  {
    if v in order {
      WithinMonotone(es, c, d, k, v);
    }
    if d < k && Within(es, c, k, v) {
      if Within(es, c, k - 1, v) {
        BallStops(es, c, d, k - 1, order, v);
      } else {
        var w: nat :| Within(es, c, k - 1, w) && Adjacent(es, w, v);
        BallStops(es, c, d, k - 1, order, w);
      }
    }
  }

  method CollectNodes(ix: EdgeIndex, center: nat, hops: nat, maxNodes: nat)
    returns (order: seq<nat>, truncated: bool)
    requires Exact(ix) && center < ix.nodeCount && 1 <= maxNodes
    ensures NoDup(order) && |order| <= maxNodes && order != [] && order[0] == center
    ensures ByDistance(ix.edges, center, order)
    ensures forall v :: v in order ==> Within(ix.edges, center, hops, v)
    ensures truncated <==> exists v: nat :: Within(ix.edges, center, hops, v) && v !in order
    ensures truncated ==> |order| == maxNodes
  {
    order, truncated := [center], false;
    var selected := {center};
    var frontier := [center];
    forall k: nat
      ensures Within(ix.edges, center, k, center)
    {
      WithinMonotone(ix.edges, center, 0, k, center);
    }
    for depth: nat := 0 to hops
      invariant AtLevel(ix.edges, center, depth, order, frontier)
      invariant |order| <= maxNodes && order != [] && order[0] == center && selected == Elements(order)
    {
      ghost var inner := order;
      var next;
      selected, order, next, truncated := ExpandLevel(ix, center, depth, selected, order, frontier, maxNodes);
      if truncated {
        ghost var v: nat :| v !in order && Within(ix.edges, center, depth + 1, v);
        WithinMonotone(ix.edges, center, depth + 1, hops, v);
        forall w | w in order
          ensures Within(ix.edges, center, hops, w)
        {
          WithinMonotone(ix.edges, center, depth + 1, hops, w);
        }
        return;
      }
      frontier := next;
      if frontier == [] {
        forall v: nat
          ensures v in order <==> Within(ix.edges, center, hops, v)
        {
          BallStops(ix.edges, center, depth + 1, hops, order, v);
        }
        return;
      }
    }
  }

  // ---------------------------------------------------------------- induced edges

  // The members of `s` below `bound` in ascending order.
  function SortedBelow(s: set<nat>, bound: nat): (r: seq<nat>)
    ensures forall i, j :: 0 <= i < j < |r| ==> r[i] < r[j]
    ensures forall x :: x in r <==> x in s && x < bound
  {
    if bound == 0 then []
    else
      var front := SortedBelow(s, bound - 1);
      assert forall i :: 0 <= i < |front| ==> front[i] in front;
      front + (if bound - 1 in s then [bound - 1] else [])
  }

  predicate Induced(es: seq<Edge>, selected: set<nat>, e: nat) {
    e < |es| && es[e].source in selected && es[e].target in selected
  }

  // The endpoint from which the ascending scan meets an edge first.
  function Low(edge: Edge): nat {
    if edge.source <= edge.target then edge.source else edge.target
  }

  // The scan order: by first endpoint met, then by edge id.
  predicate Before(es: seq<Edge>, e: nat, f: nat)
    requires e < |es| && f < |es|
  {
    Low(es[e]) < Low(es[f]) || (Low(es[e]) == Low(es[f]) && e < f)
  }

  predicate InScanOrder(es: seq<Edge>, selected: set<nat>, out: seq<nat>) {
    && (forall i :: 0 <= i < |out| ==> Induced(es, selected, out[i]))
    && (forall i, j :: 0 <= i < j < |out| ==> Before(es, out[i], out[j]))
  }

  // An edge that the scan has passed: met from an earlier node, or from `node` up to position `k`.
  predicate Passed(ix: EdgeIndex, e: nat, node: nat, k: nat)
    requires e < |ix.edges| && node < ix.nodeCount && |ix.offsets| == ix.nodeCount + 1 && k <= |ix.incident|
  {
    Low(ix.edges[e]) < node || (Low(ix.edges[e]) == node && e in ix.incident[Start(ix, node, k)..k])
  }

  function Start(ix: EdgeIndex, node: nat, k: nat): nat
    requires node < ix.nodeCount && |ix.offsets| == ix.nodeCount + 1
  {
    if ix.offsets[node] <= k then ix.offsets[node] else k
  }

  ghost predicate ScanState(ix: EdgeIndex, selected: set<nat>, out: seq<nat>, node: nat, k: nat)
    requires Exact(ix) && node < ix.nodeCount && k <= |ix.incident|
  {
    && InScanOrder(ix.edges, selected, out)
    && forall e: nat :: Induced(ix.edges, selected, e) ==> (e in out <==> Passed(ix, e, node, k))
  }

  lemma SliceSorted(ix: EdgeIndex, v: nat, i: nat, j: nat)
    requires Exact(ix) && v < ix.nodeCount && ix.offsets[v] <= i <= j < ix.offsets[v + 1]
    ensures j < |ix.incident| && ix.incident[i] <= ix.incident[j]
  {
    assert SliceExact(ix, v);
    IncidencesSorted(ix.edges, v, |ix.edges|, i - ix.offsets[v], j - ix.offsets[v]);
    var slice := ix.incident[ix.offsets[v]..ix.offsets[v + 1]];
    assert slice[i - ix.offsets[v]] == ix.incident[i] && slice[j - ix.offsets[v]] == ix.incident[j];
  }

  // Position `k` of `node`'s slice: the edge there is new exactly when it is not passed yet,
  // and then everything listed comes before it.
  lemma PassOne(ix: EdgeIndex, selected: set<nat>, out: seq<nat>, node: nat, k: nat)
    requires Exact(ix) && node < ix.nodeCount && ix.offsets[node] <= k < ix.offsets[node + 1] <= |ix.incident|
    requires ScanState(ix, selected, out, node, k) && node in selected
    ensures var e := ix.incident[k];
            && e < |ix.edges|
            && (e in out || !Induced(ix.edges, selected, e) ==> ScanState(ix, selected, out, node, k + 1))
            && (e !in out && Induced(ix.edges, selected, e) ==> ScanState(ix, selected, out + [e], node, k + 1))
            && (e !in out && Induced(ix.edges, selected, e) ==>
                  forall f: nat, g :: Induced(ix.edges, selected, f) && f !in out && g in out ==> Before(ix.edges, g, f))
  {
    var es, e := ix.edges, ix.incident[k];
    SliceIsIncidences(ix, node);
    assert ix.incident[ix.offsets[node]..k + 1] == ix.incident[ix.offsets[node]..k] + [e];
    forall f: nat | f < |es| && f != e
      ensures Passed(ix, f, node, k + 1) <==> Passed(ix, f, node, k)
    {
    }
    if Induced(es, selected, e) {
      assert Passed(ix, e, node, k + 1);
      if e !in out {
        assert Low(es[e]) == node;
        forall g | g in out
          ensures Before(es, g, e)
        {
          ListedBefore(ix, selected, out, node, k, g);
        }
        forall f: nat, g | Induced(es, selected, f) && f !in out && g in out
          ensures Before(es, g, f)
        {
          ListedBefore(ix, selected, out, node, k, g);
          MissingAfter(ix, selected, out, node, k, f);
        }
        AppendInOrder(es, selected, out, e);
      }
    }
  }

  lemma AppendInOrder(es: seq<Edge>, selected: set<nat>, out: seq<nat>, e: nat)
    requires InScanOrder(es, selected, out) && Induced(es, selected, e)
    requires forall g :: g in out ==> g < |es| && Before(es, g, e)
    ensures InScanOrder(es, selected, out + [e])
  {
  }

  lemma ListedBefore(ix: EdgeIndex, selected: set<nat>, out: seq<nat>, node: nat, k: nat, g: nat)
    requires Exact(ix) && node < ix.nodeCount && ix.offsets[node] <= k < ix.offsets[node + 1] <= |ix.incident|
    requires ScanState(ix, selected, out, node, k) && g in out
    ensures g < |ix.edges| && (Low(ix.edges[g]) < node || (Low(ix.edges[g]) == node && g <= ix.incident[k]))
  {
    assert Passed(ix, g, node, k);
    if Low(ix.edges[g]) == node {
      var i :| ix.offsets[node] <= i < k && ix.incident[i] == g;
      SliceSorted(ix, node, i, k);
    }
  }

  lemma InSlice(s: seq<nat>, a: nat, b: nat, i: nat)
    requires a <= i < b <= |s|
    ensures s[i] in s[a..b]
  {
    assert s[i] == s[a..b][i - a];
  }

  lemma MissingAfter(ix: EdgeIndex, selected: set<nat>, out: seq<nat>, node: nat, k: nat, f: nat)
    requires Exact(ix) && node < ix.nodeCount && ix.offsets[node] <= k < ix.offsets[node + 1] <= |ix.incident|
    requires ScanState(ix, selected, out, node, k) && Induced(ix.edges, selected, f) && f !in out
    ensures Low(ix.edges[f]) > node || (Low(ix.edges[f]) == node && f >= ix.incident[k])
  {
    assert !Passed(ix, f, node, k);
    if Low(ix.edges[f]) == node {
      EdgeInSlice(ix, node, f);
      var i :| ix.offsets[node] <= i < ix.offsets[node + 1] && ix.incident[i] == f;
      if i < k {
        InSlice(ix.incident, ix.offsets[node], k, i);
      }
      SliceSorted(ix, node, k, i);
    }
  }

  lemma NodeFinished(ix: EdgeIndex, e: nat, node: nat, bound: nat)
    requires Exact(ix) && node < bound <= ix.nodeCount && e < |ix.edges|
    ensures ix.offsets[node + 1] <= |ix.incident|
    ensures Passed(ix, e, node, ix.offsets[node + 1]) <==> Low(ix.edges[e]) <= node
  {
    if Low(ix.edges[e]) == node {
      EdgeInSlice(ix, node, e);
      var i :| ix.offsets[node] <= i < ix.offsets[node + 1] && ix.incident[i] == e;
      assert ix.incident[ix.offsets[node]..ix.offsets[node + 1]][i - ix.offsets[node]] == e;
    } else {
      SliceIsIncidences(ix, node);
    }
  }

  // What the scan of one node owes; `full` reports that an edge did not fit.
  method ScanEdges(ix: EdgeIndex, selected: set<nat>, node: nat, out: seq<nat>, maxEdges: nat)
    returns (out': seq<nat>, full: bool)
    requires Exact(ix) && node < ix.nodeCount && node in selected && |out| <= maxEdges
    requires InScanOrder(ix.edges, selected, out)
    requires forall e: nat :: Induced(ix.edges, selected, e) ==> (e in out <==> Low(ix.edges[e]) < node)
    ensures InScanOrder(ix.edges, selected, out') && |out'| <= maxEdges
    ensures !full ==> forall e: nat :: Induced(ix.edges, selected, e) ==> (e in out' <==> Low(ix.edges[e]) <= node)
    ensures full ==> |out'| == maxEdges && exists e: nat :: Induced(ix.edges, selected, e) && e !in out'
    ensures full ==> forall f: nat, g :: Induced(ix.edges, selected, f) && f !in out' && g in out' ==> Before(ix.edges, g, f)
  {
    out', full := out, false;
    SliceIsIncidences(ix, node);
    assert ix.incident[ix.offsets[node]..ix.offsets[node]] == [];
    for offset: nat := ix.offsets[node] to ix.offsets[node + 1]
      invariant ScanState(ix, selected, out', node, offset) && |out'| <= maxEdges
    {
      var e := ix.incident[offset];
      PassOne(ix, selected, out', node, offset);
      if e in out' {
        continue;
      }
      if ix.edges[e].source !in selected || ix.edges[e].target !in selected {
        continue;
      }
      if |out'| >= maxEdges {
        return out', true;
      }
      out' := out' + [e];
    }
    forall e: nat | Induced(ix.edges, selected, e)
      ensures e in out' <==> Low(ix.edges[e]) <= node
    {
      NodeFinished(ix, e, node, ix.nodeCount);
    }
  }

  method CollectEdges(ix: EdgeIndex, selected: set<nat>, maxEdges: nat)
    returns (out: seq<nat>, truncated: bool)
    requires Exact(ix) && forall v :: v in selected ==> v < ix.nodeCount
    ensures InScanOrder(ix.edges, selected, out) && |out| <= maxEdges
    ensures truncated <==> exists e: nat :: Induced(ix.edges, selected, e) && e !in out
    ensures truncated ==> |out| == maxEdges
    ensures forall f: nat, g :: Induced(ix.edges, selected, f) && f !in out && g in out ==> Before(ix.edges, g, f)
  {
    out, truncated := [], false;
    var nodes := SortedBelow(selected, ix.nodeCount);
    for i := 0 to |nodes|
      invariant InScanOrder(ix.edges, selected, out) && |out| <= maxEdges
      invariant forall e: nat :: Induced(ix.edges, selected, e) ==> (e in out <==> Low(ix.edges[e]) in nodes[..i])
    {
      assert nodes[i] in nodes;
      forall e: nat | Induced(ix.edges, selected, e)
        ensures Low(ix.edges[e]) in nodes[..i] <==> Low(ix.edges[e]) < nodes[i]
        ensures Low(ix.edges[e]) in nodes[..i + 1] <==> Low(ix.edges[e]) <= nodes[i]
      {
        AscendingPrefix(nodes, i, Low(ix.edges[e]));
        AscendingPrefix(nodes, i + 1, Low(ix.edges[e]));
      }
      out, truncated := ScanEdges(ix, selected, nodes[i], out, maxEdges);
      if truncated {
        return;
      }
    }
    assert nodes[..|nodes|] == nodes;
  }

  lemma AscendingPrefix(nodes: seq<nat>, i: nat, x: nat)
    requires i <= |nodes| && x in nodes && forall a, b :: 0 <= a < b < |nodes| ==> nodes[a] < nodes[b]
    ensures i < |nodes| ==> (x in nodes[..i] <==> x < nodes[i])
    ensures i > 0 ==> (x in nodes[..i] <==> x <= nodes[i - 1])
  {
    var j :| 0 <= j < |nodes| && nodes[j] == x;
    if j < i {
      assert nodes[..i][j] == x;
    }
  }

  // The bounded neighbourhood of `center`: nodes in the order they were found, induced
  // edges in scan order, and one truncation flag for each cap.
  method CollectBoundedNeighborhood(ix: EdgeIndex, center: nat, hops: nat, maxNodes: nat, maxEdges: nat)
    returns (nodes: seq<nat>, edges: seq<nat>, nodesTruncated: bool, edgesTruncated: bool)
    requires Exact(ix) && center < ix.nodeCount && 1 <= maxNodes
    ensures NoDup(nodes) && |nodes| <= maxNodes && nodes != [] && nodes[0] == center
    ensures ByDistance(ix.edges, center, nodes)
    ensures forall v :: v in nodes ==> Within(ix.edges, center, hops, v)
    ensures nodesTruncated <==> exists v: nat :: Within(ix.edges, center, hops, v) && v !in nodes
    ensures nodesTruncated ==> |nodes| == maxNodes
    ensures InScanOrder(ix.edges, Elements(nodes), edges) && |edges| <= maxEdges
    ensures edgesTruncated <==> exists e: nat :: Induced(ix.edges, Elements(nodes), e) && e !in edges
    ensures edgesTruncated ==> |edges| == maxEdges
    ensures forall f: nat, g :: Induced(ix.edges, Elements(nodes), f) && f !in edges && g in edges ==> Before(ix.edges, g, f)
  {
    nodes, nodesTruncated := CollectNodes(ix, center, hops, maxNodes);
    forall v | v in nodes
      ensures v < ix.nodeCount
    {
      WithinInRange(ix.edges, ix.nodeCount, center, hops, v);
    }
    edges, edgesTruncated := CollectEdges(ix, Elements(nodes), maxEdges);
  }
}
