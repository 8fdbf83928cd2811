// The compact incident-edge index of the material graph layout.  Endpoints arrive as
// one flat array: edge `e` joins slots `2*e` and `2*e+1`.  The builder is a counting
// sort over three arrays; it is proved against plain incidence lists.

module LayoutIndex {
  import opened Common

  const MAX_LAYOUT_CACHE_EDGES: nat := 2_000_000
  // 128 MiB at eight bytes an edge
  const MAX_LAYOUT_ASSET_EDGES: nat := 16_777_216

  datatype Error = AssetUnavailable | AssetUnsupported

  datatype Edge = Edge(source: nat, target: nat)

  datatype EdgeIndex = EdgeIndex(nodeCount: nat, edges: seq<Edge>, offsets: seq<nat>, incident: seq<nat>)

  // ---------------------------------------------------------------- plain graph

  // The edges that a flat endpoint array of even length describes.
  function EdgesOf(slots: seq<nat>): seq<Edge>
    requires |slots| % 2 == 0
  {
    seq(|slots| / 2, e requires 0 <= e < |slots| / 2 => Edge(slots[2 * e], slots[2 * e + 1]))
  }

  predicate InRange(es: seq<Edge>, n: nat) {
    forall e :: 0 <= e < |es| ==> es[e].source < n && es[e].target < n
  }

  // Edge `e` once for each endpoint equal to `v`, hence twice for a self-loop.
  function Hits(edge: Edge, e: nat, v: nat): seq<nat> {
    (if edge.source == v then [e] else []) + (if edge.target == v then [e] else [])
  }

  // The first `k` edges seen from node `v`, in edge order.
  function Incidences(es: seq<Edge>, v: nat, k: nat): seq<nat>
    requires k <= |es|
  {
    if k == 0 then [] else Incidences(es, v, k - 1) + Hits(es[k - 1], k - 1, v)
  }

  // How often `v` is an endpoint of the first `k` edges.
  function Degree(es: seq<Edge>, v: nat, k: nat): nat
    requires k <= |es|
  {
    if k == 0 then 0
    else Degree(es, v, k - 1) + (if es[k - 1].source == v then 1 else 0) + (if es[k - 1].target == v then 1 else 0)
  }

  // Number of slots that the nodes below `v` take when `k` edges are counted.
  function Offset(es: seq<Edge>, v: nat, k: nat): nat
    requires k <= |es|
  {
    if v == 0 then 0 else Offset(es, v - 1, k) + Degree(es, v - 1, k)
  }

  predicate SliceExact(ix: EdgeIndex, v: nat)
    requires v < ix.nodeCount && |ix.offsets| == ix.nodeCount + 1
  {
    && ix.offsets[v] <= ix.offsets[v + 1] <= |ix.incident|
    && ix.incident[ix.offsets[v]..ix.offsets[v + 1]] == Incidences(ix.edges, v, |ix.edges|)
  }

  // What the builder owes: each node's slice is exactly its incidence list.
  predicate Exact(ix: EdgeIndex) {
    && InRange(ix.edges, ix.nodeCount)
    && |ix.offsets| == ix.nodeCount + 1
    && ix.offsets[0] == 0
    && ix.offsets[ix.nodeCount] == |ix.incident| == 2 * |ix.edges|
    && forall v :: 0 <= v < ix.nodeCount ==> SliceExact(ix, v)
  }

  // ---------------------------------------------------------------- incidence lists

  lemma {:induction false} OffsetStep(es: seq<Edge>, e: nat, n: nat)
    requires e < |es|
    ensures Offset(es, n, e + 1) == Offset(es, n, e) + (if es[e].source < n then 1 else 0) + (if es[e].target < n then 1 else 0)
  {
    if n > 0 {
      OffsetStep(es, e, n - 1);
    }
  }

  lemma {:induction false} OffsetOfNothing(es: seq<Edge>, n: nat)
    ensures Offset(es, n, 0) == 0
  {
    if n > 0 {
      OffsetOfNothing(es, n - 1);
    }
  }

  // Every edge is counted at both of its endpoints: the degrees sum to twice the edges.
  lemma {:induction false} Handshake(es: seq<Edge>, n: nat, k: nat)
    requires InRange(es, n) && k <= |es|
    ensures Offset(es, n, k) == 2 * k
  {
    if k == 0 {
      OffsetOfNothing(es, n);
    } else {
      Handshake(es, n, k - 1);
      OffsetStep(es, k - 1, n);
    }
  }

  lemma {:induction false} OffsetMonotone(es: seq<Edge>, u: nat, v: nat, k: nat)
    requires k <= |es| && u < v
    ensures Offset(es, u, k) + Degree(es, u, k) <= Offset(es, v, k)
    decreases v
  {
    if u < v - 1 {
      OffsetMonotone(es, u, v - 1, k);
    }
  }

  lemma {:induction false} DegreeGrows(es: seq<Edge>, v: nat, j: nat, k: nat)
    requires j <= k <= |es|
    ensures Degree(es, v, j) <= Degree(es, v, k)
    decreases k
  {
    if j < k {
      DegreeGrows(es, v, j, k - 1);
    }
  }

  lemma {:induction false} IncidencesLength(es: seq<Edge>, v: nat, k: nat)
    requires k <= |es|
    ensures |Incidences(es, v, k)| == Degree(es, v, k)
  {
    if k > 0 {
      IncidencesLength(es, v, k - 1);
    }
  }

  // How often an edge meets node `v`.
  function Meets(edge: Edge, v: nat): nat {
    (if edge.source == v then 1 else 0) + (if edge.target == v then 1 else 0)
  }

  function Occurrences(s: seq<nat>, x: nat): nat {
    if s == [] then 0 else Occurrences(s[..|s| - 1], x) + (if s[|s| - 1] == x then 1 else 0)
  }

  lemma OccurrencesAppend(s: seq<nat>, y: nat, x: nat)
    ensures Occurrences(s + [y], x) == Occurrences(s, x) + (if y == x then 1 else 0)
  {
    assert (s + [y])[..|s|] == s;
  }

  lemma OccurrencesOfHits(s: seq<nat>, edge: Edge, e: nat, v: nat, x: nat)
    ensures Occurrences(s + Hits(edge, e, v), x) == Occurrences(s, x) + (if e == x then Meets(edge, v) else 0)
  {
    OccurrencesAppend(s, e, x);
    OccurrencesAppend(s + [e], e, x);
    assert s + [e, e] == s + [e] + [e];
    assert s + [] == s;
    assert Hits(edge, e, v) == [] || Hits(edge, e, v) == [e] || Hits(edge, e, v) == [e, e];
  }

  // A node's list holds an edge once for each of its endpoints at that node, and no other edge.
  lemma {:induction false} IncidencesCount(es: seq<Edge>, v: nat, k: nat, e: nat)
    requires k <= |es|
    ensures Occurrences(Incidences(es, v, k), e) == if e < k then Meets(es[e], v) else 0
  {
    if k > 0 {
      IncidencesCount(es, v, k - 1, e);
      OccurrencesOfHits(Incidences(es, v, k - 1), es[k - 1], k - 1, v, e);
    }
  }

  lemma {:induction false} OccursIffMember(s: seq<nat>, x: nat)
    ensures x in s <==> Occurrences(s, x) > 0
  {
    if s != [] {
      OccursIffMember(s[..|s| - 1], x);
      assert s == s[..|s| - 1] + [s[|s| - 1]];
    }
  }

  lemma {:induction false} IncidencesMember(es: seq<Edge>, v: nat, k: nat, e: nat)
    requires k <= |es|
    ensures e in Incidences(es, v, k) <==> e < k && Meets(es[e], v) > 0
  {
    IncidencesCount(es, v, k, e);
    OccursIffMember(Incidences(es, v, k), e);
  }

  lemma {:induction false} IncidencesSorted(es: seq<Edge>, v: nat, k: nat, i: nat, j: nat)
    requires k <= |es| && i <= j < |Incidences(es, v, k)|
    ensures Incidences(es, v, k)[i] <= Incidences(es, v, k)[j] < k
  {
    var shorter := |Incidences(es, v, k - 1)|;
    if j < shorter {
      IncidencesSorted(es, v, k - 1, i, j);
    } else if i < shorter {
      IncidencesSorted(es, v, k - 1, i, i);
    }
  }

  lemma {:induction false} OffsetsMonotone(ix: EdgeIndex, a: nat, b: nat)
    requires Exact(ix) && a <= b <= ix.nodeCount
    ensures ix.offsets[a] <= ix.offsets[b]
    decreases b
  {
    if a < b {
      OffsetsMonotone(ix, a, b - 1);
      assert SliceExact(ix, b - 1);
    }
  }

  predicate Owns(ix: EdgeIndex, v: nat, slot: nat)
    requires v < ix.nodeCount && |ix.offsets| == ix.nodeCount + 1
  {
    ix.offsets[v] <= slot < ix.offsets[v + 1]
  }

  // Every slot of an exact index belongs to exactly one node.
  lemma {:induction false} SlotOwner(ix: EdgeIndex, slot: nat)
    requires Exact(ix) && slot < |ix.incident|
    ensures exists v :: 0 <= v < ix.nodeCount && Owns(ix, v, slot)
    ensures forall u, v :: 0 <= u < ix.nodeCount && 0 <= v < ix.nodeCount && Owns(ix, u, slot) && Owns(ix, v, slot) ==> u == v
  {
    var v := 0;
    while !(slot < ix.offsets[v + 1])
      invariant 0 <= v < ix.nodeCount && ix.offsets[v] <= slot
      decreases ix.nodeCount - v
    {
      v := v + 1;
    }
    assert Owns(ix, v, slot);
    forall a, b | 0 <= a < ix.nodeCount && 0 <= b < ix.nodeCount && Owns(ix, a, slot) && Owns(ix, b, slot)
      ensures a == b
    {
      if a < b { OffsetsMonotone(ix, a + 1, b); }
      if b < a { OffsetsMonotone(ix, b + 1, a); }
    }
  }

  // ---------------------------------------------------------------- building the index

  // Where node `v` writes next when the first `e` edges are placed.
  function Cursor(es: seq<Edge>, v: nat, e: nat): nat
    requires e <= |es|
  {
    Offset(es, v, |es|) + Degree(es, v, e)
  }

  // Node `v` has filled the first part of its slots with its first incidences.
  ghost predicate PlacedAt(slots: seq<nat>, es: seq<Edge>, v: nat, e: nat)
    requires e <= |es|
  {
    && Cursor(es, v, e) <= |slots|
    && slots[Offset(es, v, |es|)..Cursor(es, v, e)] == Incidences(es, v, e)
  }

  ghost predicate Placed(slots: seq<nat>, es: seq<Edge>, n: nat, e: nat)
    requires e <= |es|
  {
    |slots| == 2 * |es| && forall v :: 0 <= v < n ==> PlacedAt(slots, es, v, e)
  }

  // Node `v`'s cursor stays inside its own slice.
  lemma CursorInSlice(es: seq<Edge>, n: nat, v: nat, e: nat)
    requires InRange(es, n) && v < n && e <= |es|
    ensures Cursor(es, v, e) <= Offset(es, v + 1, |es|) <= 2 * |es|
  {
    DegreeGrows(es, v, e, |es|);
    Handshake(es, n, |es|);
    if v + 1 < n {
      OffsetMonotone(es, v + 1, n, |es|);
    }
  }

  // The part that node `u` has filled ends before, or starts after, node `v`'s slice.
  lemma SlicesApart(es: seq<Edge>, n: nat, u: nat, v: nat, e: nat)
    requires InRange(es, n) && u < n && v < n && u != v && e <= |es|
    ensures Cursor(es, u, e) <= Offset(es, v, |es|) || Offset(es, v + 1, |es|) <= Offset(es, u, |es|)
  {
    DegreeGrows(es, u, e, |es|);
    if u < v {
      OffsetMonotone(es, u, v, |es|);
    } else if v + 1 < u {
      OffsetMonotone(es, v + 1, u, |es|);
    }
  }

  // Appending edge `e` at node `w`'s cursor, `h` of its hits being there already.
  lemma WriteHit(slots: seq<nat>, es: seq<Edge>, n: nat, w: nat, v: nat, e: nat, x: nat, at: nat)
    requires InRange(es, n) && w < n && v < n && v != w && e <= |es| && |slots| == 2 * |es|
    requires PlacedAt(slots, es, v, e)
    requires Offset(es, w, |es|) <= at < Offset(es, w + 1, |es|) <= |slots|
    ensures PlacedAt(slots[at := x], es, v, e)
  {
    SlicesApart(es, n, v, w, e);
  }

  method CountDegrees(nodeCount: nat, es: seq<Edge>) returns (degrees: array<nat>, ok: bool)
    ensures fresh(degrees) && degrees.Length == nodeCount
    ensures ok <==> InRange(es, nodeCount)
    ensures ok ==> forall v {:trigger degrees[v]} :: 0 <= v < nodeCount ==> degrees[v] == Degree(es, v, |es|)
  {
    degrees := new nat[nodeCount](_ => 0);
    for e: nat := 0 to |es|
      invariant forall i :: 0 <= i < e ==> es[i].source < nodeCount && es[i].target < nodeCount
      invariant forall v {:trigger degrees[v]} :: 0 <= v < nodeCount ==> degrees[v] == Degree(es, v, e)
    {
      var source, target := es[e].source, es[e].target;
      if source >= nodeCount || target >= nodeCount {
        return degrees, false;
      }
      degrees[source] := degrees[source] + 1;
      degrees[target] := degrees[target] + 1;
    }
    ok := true;
  }

  method PrefixSums(nodeCount: nat, es: seq<Edge>, degrees: array<nat>) returns (offsets: array<nat>)
    requires degrees.Length == nodeCount
    requires forall v {:trigger degrees[v]} :: 0 <= v < nodeCount ==> degrees[v] == Degree(es, v, |es|)
    ensures fresh(offsets) && offsets.Length == nodeCount + 1
    ensures forall v {:trigger offsets[v]} :: 0 <= v <= nodeCount ==> offsets[v] == Offset(es, v, |es|)
  {
    offsets := new nat[nodeCount + 1](_ => 0);
    var runningTotal := 0;
    for v := 0 to nodeCount
      invariant runningTotal == Offset(es, v, |es|)
      invariant forall u {:trigger offsets[u]} :: 0 <= u < v ==> offsets[u] == Offset(es, u, |es|)
    {
      offsets[v] := runningTotal;
      runningTotal := runningTotal + degrees[v];
    }
    offsets[nodeCount] := runningTotal;
  }

  method FillIncidentEdges(nodeCount: nat, es: seq<Edge>, offsets: array<nat>) returns (incident: array<nat>)
    requires InRange(es, nodeCount)
    requires offsets.Length == nodeCount + 1
    requires forall v {:trigger offsets[v]} :: 0 <= v <= nodeCount ==> offsets[v] == Offset(es, v, |es|)
    ensures fresh(incident) && Placed(incident[..], es, nodeCount, |es|)
  {
    Handshake(es, nodeCount, |es|);
    incident := new nat[offsets[nodeCount]](_ => 0);
    var cursors := new nat[nodeCount](v requires 0 <= v < nodeCount reads offsets => offsets[v]);
    forall v | 0 <= v < nodeCount
      ensures PlacedAt(incident[..], es, v, 0)
    {
      CursorInSlice(es, nodeCount, v, 0);
    }
    for e: nat := 0 to |es|
      invariant forall v {:trigger cursors[v]} :: 0 <= v < nodeCount ==> cursors[v] == Cursor(es, v, e)
      invariant Placed(incident[..], es, nodeCount, e)
    {
      var source, target := es[e].source, es[e].target;
      ghost var before := incident[..];
      CursorInSlice(es, nodeCount, source, e + 1);
      CursorInSlice(es, nodeCount, target, e + 1);
      var sourceOffset := cursors[source];
      incident[sourceOffset] := e;
      if source == target {
        incident[sourceOffset + 1] := e;
        cursors[source] := sourceOffset + 2;
        PlaceLoop(before, es, nodeCount, e, sourceOffset);
        ghost var middle: seq<nat> := before[sourceOffset := e];
        assert incident[..] == middle[sourceOffset + 1 := e];
      } else {
        var targetOffset := cursors[target];
        incident[targetOffset] := e;
        cursors[source] := sourceOffset + 1;
        cursors[target] := targetOffset + 1;
        PlaceEdge(before, es, nodeCount, e, sourceOffset, targetOffset);
        ghost var middle: seq<nat> := before[sourceOffset := e];
        assert incident[..] == middle[targetOffset := e];
      }
    }
  }

  // A node none of whose slots are written keeps its list.
  lemma KeepNode(slots: seq<nat>, es: seq<Edge>, v: nat, e: nat)
    requires e < |es| && es[e].source != v && es[e].target != v
    requires PlacedAt(slots, es, v, e)
    ensures PlacedAt(slots, es, v, e + 1)
  {
    assert Hits(es[e], e, v) == [];
  }

  // A node met once by edge `e` takes it in one slot.
  lemma ExtendNode(slots: seq<nat>, es: seq<Edge>, v: nat, e: nat)
    requires e < |es| && (es[e].source == v) != (es[e].target == v)
    requires PlacedAt(slots, es, v, e) && Cursor(es, v, e) < |slots|
    ensures Cursor(es, v, e + 1) == Cursor(es, v, e) + 1
    ensures PlacedAt(slots[Cursor(es, v, e) := e], es, v, e + 1)
  {
    var a, c := Offset(es, v, |es|), Cursor(es, v, e);
    assert Hits(es[e], e, v) == [e];
    assert slots[c := e][a..c + 1] == slots[a..c] + [e];
  }

  // A self-loop takes two consecutive slots of its node.
  lemma ExtendLoop(slots: seq<nat>, es: seq<Edge>, v: nat, e: nat)
    requires e < |es| && es[e].source == es[e].target == v
    requires PlacedAt(slots, es, v, e) && Cursor(es, v, e) + 1 < |slots|
    ensures Cursor(es, v, e + 1) == Cursor(es, v, e) + 2
    ensures PlacedAt(slots[Cursor(es, v, e) := e][Cursor(es, v, e) + 1 := e], es, v, e + 1)
  {
    var a, c := Offset(es, v, |es|), Cursor(es, v, e);
    assert Hits(es[e], e, v) == [e, e];
    assert slots[c := e][c + 1 := e][a..c + 2] == slots[a..c] + [e, e];
  }

  lemma PlaceLoop(slots: seq<nat>, es: seq<Edge>, n: nat, e: nat, c: nat)
    requires InRange(es, n) && e < |es| && es[e].source == es[e].target
    requires Placed(slots, es, n, e)
    requires c == Cursor(es, es[e].source, e) && c + 1 < |slots|
    ensures Cursor(es, es[e].source, e + 1) == c + 2
    ensures Placed(slots[c := e][c + 1 := e], es, n, e + 1)
  {
    var s := es[e].source;
    assert PlacedAt(slots, es, s, e);
    ExtendLoop(slots, es, s, e);
    CursorInSlice(es, n, s, e + 1);
    var middle := slots[c := e];
    var next, k := middle[c + 1 := e], e + 1;
    forall v | 0 <= v < n
      ensures PlacedAt(next, es, v, k)
    {
      if v != s {
        assert PlacedAt(slots, es, v, e);
        WriteHit(slots, es, n, s, v, e, e, c);
        WriteHit(middle, es, n, s, v, e, e, c + 1);
        KeepNode(next, es, v, e);
      }
    }
  }

  // Any other edge takes one slot at each of its two nodes.
  lemma PlaceEdge(slots: seq<nat>, es: seq<Edge>, n: nat, e: nat, a: nat, b: nat)
    requires InRange(es, n) && e < |es| && es[e].source != es[e].target
    requires Placed(slots, es, n, e)
    requires a == Cursor(es, es[e].source, e) && b == Cursor(es, es[e].target, e) && a < |slots| && b < |slots|
    ensures Cursor(es, es[e].source, e + 1) == a + 1
    ensures Cursor(es, es[e].target, e + 1) == b + 1
    ensures Placed(slots[a := e][b := e], es, n, e + 1)
  {
    var s, t := es[e].source, es[e].target;
    assert PlacedAt(slots, es, s, e) && PlacedAt(slots, es, t, e);
    ExtendNode(slots, es, s, e);
    CursorInSlice(es, n, s, e + 1);
    var middle := slots[a := e];
    WriteHit(slots, es, n, s, t, e, e, a);
    ExtendNode(middle, es, t, e);
    CursorInSlice(es, n, t, e + 1);
    var next, k := middle[b := e], e + 1;
    WriteHit(middle, es, n, t, s, k, e, b);
    forall v | 0 <= v < n
      ensures PlacedAt(next, es, v, k)
    {
      if v != s && v != t {
        assert PlacedAt(slots, es, v, e);
        WriteHit(slots, es, n, s, v, e, e, a);
        WriteHit(middle, es, n, t, v, e, e, b);
        KeepNode(next, es, v, e);
      }
    }
  }

  // The whole build.  `slots` is the content of the edge asset, one entry for each
  // 32-bit word; `nodeCount` was read from the node table.
  method BuildEdgeIndex(nodeCount: nat, slots: seq<nat>) returns (r: Result<EdgeIndex, Error>)
    ensures r == Err(AssetUnavailable) <==> !(|slots| % 2 == 0 && 0 < |slots| / 2 <= MAX_LAYOUT_CACHE_EDGES)
    ensures r.Ok? <==> |slots| % 2 == 0 && 0 < |slots| / 2 <= MAX_LAYOUT_CACHE_EDGES && InRange(EdgesOf(slots), nodeCount)
    ensures r.Ok? ==> Exact(r.value) && r.value.nodeCount == nodeCount && r.value.edges == EdgesOf(slots)
  {
    if |slots| % 2 != 0 || |slots| / 2 > MAX_LAYOUT_ASSET_EDGES {
      return Err(AssetUnavailable);
    }
    if |slots| / 2 <= 0 || |slots| / 2 > MAX_LAYOUT_CACHE_EDGES {
      return Err(AssetUnavailable);
    }
    var es := EdgesOf(slots);
    var degrees, ok := CountDegrees(nodeCount, es);
    if !ok {
      return Err(AssetUnsupported);
    }
    var offsets := PrefixSums(nodeCount, es, degrees);
    Handshake(es, nodeCount, |es|);
    assert offsets[nodeCount] == 2 * |es|;  // the offsets account for every slot, so the check against the slot count cannot fail
    var incident := FillIncidentEdges(nodeCount, es, offsets);
    var ix := EdgeIndex(nodeCount, es, offsets[..], incident[..]);
    forall v | 0 <= v < nodeCount
      ensures SliceExact(ix, v)
    {
      assert PlacedAt(incident[..], es, v, |es|);
      assert offsets[v + 1] == Offset(es, v + 1, |es|) == Cursor(es, v, |es|);
    }
    r := Ok(ix);
  }
}
