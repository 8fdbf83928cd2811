// The audit of the canonical semantic graph: degree and component accounting over raw
// relationship rows.  The specification is plain connectivity of the valid rows.

module GraphAudit {
  import opened Common
  import opened LayoutIndex
  import opened Neighborhood
  import opened DisjointSets

  datatype Row = Row(source: string, target: string)

  datatype Report = Report(
    nodes: nat,
    directedEdges: nat,
    duplicateEntityIds: nat,
    selfLoops: nat,
    duplicateDirectedEdges: nat,
    uniquePairs: nat,
    missingEndpointRows: nat,
    missingSourceEndpoints: nat,
    missingTargetEndpoints: nat,
    components: nat,
    largestComponent: nat,
    isolatedNodes: nat,
    degrees: seq<nat>)

  datatype Error = EntityWithoutId

  // ---------------------------------------------------------------- connectivity

  ghost predicate Connected(es: seq<Edge>, u: nat, v: nat) {
    exists p :: Walk(es, p) && p[0] == u && p[|p| - 1] == v
  }

  lemma ConnectedRefl(es: seq<Edge>, u: nat)
    ensures Connected(es, u, u)
  {
    var p: seq<nat> := [u];
    assert Walk(es, p) && p[0] == u && p[|p| - 1] == u;
  }

  lemma ConnectedStep(es: seq<Edge>, u: nat, v: nat)
    requires Adjacent(es, u, v)
    ensures Connected(es, u, v)
  {
    var p: seq<nat> := [u, v];
    assert Walk(es, p) && p[0] == u && p[|p| - 1] == v;
  }

  lemma ConnectedTrans(es: seq<Edge>, u: nat, v: nat, w: nat)
    requires Connected(es, u, v) && Connected(es, v, w)
    ensures Connected(es, u, w)
  {
    var p :| Walk(es, p) && p[0] == u && p[|p| - 1] == v;
    var q :| Walk(es, q) && q[0] == v && q[|q| - 1] == w;
    var r := p + q[1..];
    forall i | 0 <= i < |r| - 1
      ensures Adjacent(es, r[i], r[i + 1])
    {
      if i < |p| - 1 {
        assert Adjacent(es, p[i], p[i + 1]);
      } else {
        var j := i - (|p| - 1);
        assert Adjacent(es, q[j], q[j + 1]);
      }
    }
    assert Walk(es, r) && r[0] == u && r[|r| - 1] == w;
  }

  lemma AdjacentSym(es: seq<Edge>, u: nat, v: nat)
    requires Adjacent(es, u, v)
    ensures Adjacent(es, v, u)
  {
    var e :| 0 <= e < |es| && Joins(es[e], u, v);
    assert Joins(es[e], v, u);
  }

  lemma {:induction false} WalkBack(es: seq<Edge>, p: seq<nat>)
    requires Walk(es, p)
    ensures Connected(es, p[|p| - 1], p[0])
  {
    if |p| == 1 {
      ConnectedRefl(es, p[0]);
    } else {
      var q := p[1..];
      forall i | 0 <= i < |q| - 1
        ensures Adjacent(es, q[i], q[i + 1])
      {
        var j := i + 1;
        assert Adjacent(es, p[j], p[j + 1]);
      }
      WalkBack(es, q);
      var first := 0;
      assert Adjacent(es, p[first], p[first + 1]);
      AdjacentSym(es, p[0], p[1]);
      ConnectedStep(es, p[1], p[0]);
      ConnectedTrans(es, p[|p| - 1], p[1], p[0]);
    }
  }

  lemma ConnectedSym(es: seq<Edge>, u: nat, v: nat)
    requires Connected(es, u, v)
    ensures Connected(es, v, u)
  {
    var p :| Walk(es, p) && p[0] == u && p[|p| - 1] == v;
    WalkBack(es, p);
  }

  lemma ConnectedGrows(es: seq<Edge>, edge: Edge, u: nat, v: nat)
    requires Connected(es, u, v)
    ensures Connected(es + [edge], u, v)
  {
    var p :| Walk(es, p) && p[0] == u && p[|p| - 1] == v;
    forall i | 0 <= i < |p| - 1
      ensures Adjacent(es + [edge], p[i], p[i + 1])
    {
      assert Adjacent(es, p[i], p[i + 1]);
      var e :| 0 <= e < |es| && Joins(es[e], p[i], p[i + 1]);
      assert (es + [edge])[e] == es[e];
    }
    assert Walk(es + [edge], p);
  }

  // Labels agree exactly on connected nodes.
  ghost predicate Labels(es: seq<Edge>, lab: seq<nat>) {
    forall x, y :: 0 <= x < |lab| && 0 <= y < |lab| ==> (lab[x] == lab[y] <==> Connected(es, x, y))
  }

  lemma {:induction false} WalkKeepsLabel(es: seq<Edge>, lab: seq<nat>, p: seq<nat>)
    requires InRange(es, |lab|) && Walk(es, p) && p[0] < |lab|
    requires forall e :: 0 <= e < |es| ==> lab[es[e].source] == lab[es[e].target]
    ensures p[|p| - 1] < |lab| && lab[p[|p| - 1]] == lab[p[0]]
  {
    if |p| > 1 {
      var q := p[..|p| - 1];
      forall i | 0 <= i < |q| - 1
        ensures Adjacent(es, q[i], q[i + 1])
      {
        assert Adjacent(es, p[i], p[i + 1]);
      }
      WalkKeepsLabel(es, lab, q);
      var i := |p| - 2;
      assert Adjacent(es, p[i], p[i + 1]);
    }
  }

  // Merging the labels of an edge's endpoints accounts for exactly that edge.
  lemma MergeLabels(es: seq<Edge>, edge: Edge, lab: seq<nat>, merged: seq<nat>, r: nat)
    requires |lab| == |merged| && InRange(es + [edge], |lab|) && Labels(es, lab)
    requires edge == (es + [edge])[|es|] && edge.source < |lab| && edge.target < |lab|
    requires r == lab[edge.source] || r == lab[edge.target]
    requires forall x :: 0 <= x < |lab| ==>
               merged[x] == if lab[x] == lab[edge.source] || lab[x] == lab[edge.target] then r else lab[x]
    ensures Labels(es + [edge], merged)
  {
    var all := es + [edge];
    forall e | 0 <= e < |all|
      ensures merged[all[e].source] == merged[all[e].target]
    {
      if e < |es| {
        assert all[e] == es[e];
        assert Joins(es[e], es[e].source, es[e].target);
        ConnectedStep(es, es[e].source, es[e].target);
      }
    }
    forall x: nat, y: nat | x < |lab| && y < |lab|
      ensures merged[x] == merged[y] <==> Connected(all, x, y)
    {
      if merged[x] == merged[y] {
        Link(es, edge, lab, x, y);
      }
      if Connected(all, x, y) {
        var p :| Walk(all, p) && p[0] == x && p[|p| - 1] == y;
        WalkKeepsLabel(all, merged, p);
      }
    }
  }

  lemma Link(es: seq<Edge>, edge: Edge, lab: seq<nat>, x: nat, y: nat)
    requires Labels(es, lab) && x < |lab| && y < |lab| && edge.source < |lab| && edge.target < |lab|
    requires lab[x] == lab[y] || (lab[x] in {lab[edge.source], lab[edge.target]} && lab[y] in {lab[edge.source], lab[edge.target]})
    ensures Connected(es + [edge], x, y)
  {
    var all, a, b := es + [edge], edge.source, edge.target;
    if lab[x] == lab[y] {
      ConnectedGrows(es, edge, x, y);
    } else {
      assert all[|es|] == edge && Joins(all[|es|], a, b);
      ConnectedStep(all, a, b);
      ConnectedSym(all, a, b);
      var near, far := if lab[x] == lab[a] then a else b, if lab[x] == lab[a] then b else a;
      ConnectedGrows(es, edge, x, near);
      ConnectedGrows(es, edge, far, y);
      ConnectedTrans(all, x, near, far);
      ConnectedTrans(all, x, far, y);
    }
  }

  // ---------------------------------------------------------------- components

  ghost function Component(es: seq<Edge>, n: nat, x: nat): set<nat> {
    set y | y in Below(n) && Connected(es, x, y)
  }

  // The connected components, within nodes 0..n-1, of the first `k` nodes.
  ghost function Components(es: seq<Edge>, n: nat, k: nat): (cs: set<set<nat>>)
    ensures forall c :: c in cs <==> exists x: nat :: x < k && Component(es, n, x) == c
  {
    if k == 0 then {}
    else
      var rest := Components(es, n, k - 1);
      rest + {Component(es, n, k - 1)}
  }

  // How many of the first `k` nodes carry label `r`.
  function Tally(lab: seq<nat>, k: nat): map<nat, nat>
    requires k <= |lab|
  {
    if k == 0 then map[]
    else
      var m := Tally(lab, k - 1);
      m[lab[k - 1] := (if lab[k - 1] in m then m[lab[k - 1]] else 0) + 1]
  }

  function Carriers(lab: seq<nat>, k: nat, r: nat): set<nat>
    requires k <= |lab|
  {
    if k == 0 then {}
    else Carriers(lab, k - 1, r) + (if lab[k - 1] == r then {k - 1} else {})
  }

  lemma {:induction false} CarriersMembers(lab: seq<nat>, k: nat, r: nat)
    requires k <= |lab|
    ensures forall y: nat :: y in Carriers(lab, k, r) <==> y < k && lab[y] == r
  {
    if k > 0 {
      CarriersMembers(lab, k - 1, r);
    }
  }

  lemma {:induction false} TallyCounts(lab: seq<nat>, k: nat, r: nat)
    requires k <= |lab|
    ensures r in Tally(lab, k) <==> Carriers(lab, k, r) != {}
    ensures r in Tally(lab, k) ==> Tally(lab, k)[r] == |Carriers(lab, k, r)|
  {
    if k > 0 {
      TallyCounts(lab, k - 1, r);
      CarriersMembers(lab, k - 1, r);
    }
  }

  lemma TallyIsComponent(es: seq<Edge>, lab: seq<nat>, x: nat)
    requires Labels(es, lab) && x < |lab|
    ensures lab[x] in Tally(lab, |lab|) && Tally(lab, |lab|)[lab[x]] == |Component(es, |lab|, x)|
  {
    TallyCounts(lab, |lab|, lab[x]);
    CarriersMembers(lab, |lab|, lab[x]);
    assert Carriers(lab, |lab|, lab[x]) == Component(es, |lab|, x);
  }

  lemma ComponentsAgree(es: seq<Edge>, lab: seq<nat>, x: nat, y: nat)
    requires Labels(es, lab) && x < |lab| && y < |lab|
    ensures lab[x] == lab[y] <==> Component(es, |lab|, x) == Component(es, |lab|, y)
  {
    if lab[x] == lab[y] {
      forall z: nat | z < |lab|
        ensures Connected(es, x, z) <==> Connected(es, y, z)
      {
        assert lab[x] == lab[z] <==> Connected(es, x, z);
      }
    }
    ConnectedRefl(es, y);
    assert y in Component(es, |lab|, y);
  }

  lemma TallyStep(lab: seq<nat>, k: nat)
    requires k < |lab|
    ensures |Tally(lab, k + 1)| == |Tally(lab, k)| + (if lab[k] in Tally(lab, k) then 0 else 1)
  {
    assert Tally(lab, k + 1).Keys == Tally(lab, k).Keys + {lab[k]};
  }

  lemma ComponentsStep(es: seq<Edge>, n: nat, k: nat)
    ensures |Components(es, n, k + 1)| == |Components(es, n, k)| + (if Component(es, n, k) in Components(es, n, k) then 0 else 1)
  {
    var before, c := Components(es, n, k), Component(es, n, k);
    assert Components(es, n, k + 1) == before + {c};
    if c in before {
      assert before + {c} == before;
    }
  }

  // One tally entry for each component.
  lemma {:induction false} TallySize(es: seq<Edge>, lab: seq<nat>, k: nat)
    requires Labels(es, lab) && k <= |lab|
    ensures |Tally(lab, k)| == |Components(es, |lab|, k)|
  {
    if k > 0 {
      TallySize(es, lab, k - 1);
      TallySizeStep(es, lab, k - 1);
    }
  }

  lemma TallySizeStep(es: seq<Edge>, lab: seq<nat>, k: nat)
    requires Labels(es, lab) && k < |lab|
    requires |Tally(lab, k)| == |Components(es, |lab|, k)|
    ensures |Tally(lab, k + 1)| == |Components(es, |lab|, k + 1)|
  {
    TallyStep(lab, k);
    ComponentsStep(es, |lab|, k);
    NewComponent(es, lab, k);
  }

  lemma NewComponent(es: seq<Edge>, lab: seq<nat>, k: nat)
    requires Labels(es, lab) && k < |lab|
    ensures lab[k] in Tally(lab, k) <==> Component(es, |lab|, k) in Components(es, |lab|, k)
  {
    TallyCounts(lab, k, lab[k]);
    CarriersMembers(lab, k, lab[k]);
    if lab[k] in Tally(lab, k) {
      var y :| y in Carriers(lab, k, lab[k]);
      ComponentsAgree(es, lab, y, k);
    }
    if Component(es, |lab|, k) in Components(es, |lab|, k) {
      var x: nat :| x < k && Component(es, |lab|, x) == Component(es, |lab|, k);
      ComponentsAgree(es, lab, x, k);
      assert x in Carriers(lab, k, lab[k]);
    }
  }

  // ---------------------------------------------------------------- reading the inputs

  function CountIf(n: nat, f: nat -> bool): nat {
    if n == 0 then 0 else CountIf(n - 1, f) + (if f(n - 1) then 1 else 0)
  }

  // Identifiers in the order of their first occurrence.
  function Distinct(ids: seq<string>): (r: seq<string>)
    ensures NoDup(r) && |r| <= |ids|
    ensures forall x :: x in r <==> x in ids
  {
    if ids == [] then []
    else
      var front, last := Distinct(ids[..|ids| - 1]), ids[|ids| - 1];
      assert ids == ids[..|ids| - 1] + [last];
      if last in front then front else front + [last]
  }

  ghost predicate Indexes(index: map<string, nat>, names: seq<string>) {
    && (forall x :: x in index <==> x in names)
    && (forall i :: 0 <= i < |names| ==> index[names[i]] == i)
  }

  // The rows among the first `k` whose endpoints are both known, as edges.
  function ValidEdges(index: map<string, nat>, rows: seq<Row>, k: nat): seq<Edge>
    requires k <= |rows|
  {
    if k == 0 then []
    else
      var row := rows[k - 1];
      ValidEdges(index, rows, k - 1)
      + if row.source in index && row.target in index then [Edge(index[row.source], index[row.target])] else []
  }

  method IndexEntities(entityIds: seq<string>) returns (r: Result<map<string, nat>, Error>, names: seq<string>, duplicates: nat)
    ensures r.Err? <==> "" in entityIds
    ensures r.Ok? ==> names == Distinct(entityIds) && Indexes(r.value, names) && |names| + duplicates == |entityIds|
  {
    var index: map<string, nat> := map[];
    names, duplicates := [], 0;
    for i := 0 to |entityIds|
      invariant "" !in entityIds[..i]
      invariant names == Distinct(entityIds[..i]) && Indexes(index, names)
      invariant |names| + duplicates == i
    {
      assert entityIds[..i + 1] == entityIds[..i] + [entityIds[i]];
      assert entityIds[..i + 1][..i] == entityIds[..i];
      var id := entityIds[i];
      if id == "" {
        return Err(EntityWithoutId), names, duplicates;
      }
      if id in index {
        duplicates := duplicates + 1;
      } else {
        index := index[id := |names|];
        names := names + [id];
      }
    }
    assert entityIds[..|entityIds|] == entityIds;
    r := Ok(index);
  }

  ghost function Reps(ds: DisjointSet): seq<nat>
    requires ds.Valid()
    reads ds.parent, ds.size
  {
    seq(ds.parent.Length, x requires 0 <= x < ds.parent.Length && ds.Valid() reads ds.parent, ds.size => ds.Rep(x))
  }

  // One valid row: an edge for the accounting and, unless a self-loop, a union.
  method AddRow(ds: DisjointSet, ghost es: seq<Edge>, edge: Edge)
    requires ds.Valid() && InRange(es + [edge], ds.parent.Length) && Labels(es, Reps(ds))
    requires edge.source < ds.parent.Length && edge.target < ds.parent.Length
    modifies ds.parent, ds.size
    ensures ds.Valid() && Labels(es + [edge], Reps(ds))
  {
    ghost var lab := Reps(ds);
    assert edge == (es + [edge])[|es|];
    if edge.source == edge.target {
      MergeLabels(es, edge, lab, lab, lab[edge.source]);
    } else {
      ghost var r := ds.Union(edge.source, edge.target);
      MergeLabels(es, edge, lab, Reps(ds), r);
    }
  }

  // Counter(find(i) for every node): one entry for each class with its size.
  method ComponentSizes(ds: DisjointSet, n: nat) returns (sizes: map<nat, nat>)
    requires ds.Valid() && n == ds.parent.Length
    modifies ds.parent
    ensures ds.Valid() && Reps(ds) == old(Reps(ds)) && sizes == Tally(old(Reps(ds)), n)
  {
    sizes := map[];
    ghost var lab := Reps(ds);
    for i: nat := 0 to n
      invariant ds.Valid() && Reps(ds) == lab
      invariant sizes == Tally(lab, i)
    {
      ghost var before := Reps(ds);
      var root := ds.Find(i);
      assert Reps(ds) == before;
      sizes := sizes[root := (if root in sizes then sizes[root] else 0) + 1];
    }
  }

  ghost predicate IsLargest(es: seq<Edge>, n: nat, m: nat) {
    && (forall x: nat :: x < n ==> |Component(es, n, x)| <= m)
    && (n > 0 ==> exists x: nat :: x < n && |Component(es, n, x)| == m)
    && (n == 0 ==> m == 0)
  }

  ghost predicate IsIndex(index: map<string, nat>, n: nat) {
    forall x :: x in index ==> index[x] < n
  }

  lemma {:induction false} ValidInRange(index: map<string, nat>, rows: seq<Row>, k: nat, n: nat)
    requires IsIndex(index, n) && k <= |rows|
    ensures InRange(ValidEdges(index, rows, k), n)
  {
    if k > 0 {
      ValidInRange(index, rows, k - 1, n);
    }
  }

  lemma DegreeOfPrefix(es: seq<Edge>, more: seq<Edge>, v: nat, k: nat)
    requires k <= |es|
    ensures Degree(es + more, v, k) == Degree(es, v, k)
  {
    if k > 0 {
      DegreeOfPrefix(es, more, v, k - 1);
      assert (es + more)[k - 1] == es[k - 1];
    }
  }

  lemma DegreeOfAppend(es: seq<Edge>, edge: Edge, v: nat)
    ensures Degree(es + [edge], v, |es| + 1) == Degree(es, v, |es|) + Meets(edge, v)
  {
    DegreeOfPrefix(es, [edge], v, |es|);
    assert (es + [edge])[|es|] == edge;
  }

  // The row accounting of the audit, before components are read off.
  ghost predicate Accounts(index: map<string, nat>, rows: seq<Row>, k: nat, n: nat, es: seq<Edge>, report: Report)
    requires k <= |rows|
  {
    && es == ValidEdges(index, rows, k)
    && report.nodes == n
    && report.directedEdges == k == |es| + report.missingEndpointRows
    && report.uniquePairs == |Elements(rows[..k])|
    && report.uniquePairs + report.duplicateDirectedEdges == k
    && report.selfLoops == CountIf(|es|, Loops(es))
    && report.missingSourceEndpoints == CountIf(k, i => 0 <= i < |rows| && rows[i].source !in index)
    && report.missingTargetEndpoints == CountIf(k, i => 0 <= i < |rows| && rows[i].target !in index)
  }

  ghost predicate DegreesOf(es: seq<Edge>, degrees: seq<nat>) {
    forall v :: 0 <= v < |degrees| ==> degrees[v] == Degree(es, v, |es|)
  }

  // What one row adds to the counters.
  function CountRow(index: map<string, nat>, seen: set<Row>, row: Row, report: Report): Report {
    var known := row.source in index && row.target in index;
    report.(
    directedEdges := report.directedEdges + 1,
    duplicateDirectedEdges := report.duplicateDirectedEdges + (if row in seen then 1 else 0),
    uniquePairs := report.uniquePairs + (if row in seen then 0 else 1),
    missingEndpointRows := report.missingEndpointRows + (if known then 0 else 1),
    missingSourceEndpoints := report.missingSourceEndpoints + (if row.source !in index then 1 else 0),
    missingTargetEndpoints := report.missingTargetEndpoints + (if row.target !in index then 1 else 0),
    selfLoops := report.selfLoops + (if known && index[row.source] == index[row.target] then 1 else 0))
  }

  lemma RowStep(index: map<string, nat>, rows: seq<Row>, k: nat, n: nat, es: seq<Edge>, report: Report)
    requires k < |rows| && Accounts(index, rows, k, n, es, report)
    ensures Accounts(index, rows, k + 1, n, ValidEdges(index, rows, k + 1), CountRow(index, Elements(rows[..k]), rows[k], report))
    ensures Elements(rows[..k + 1]) == Elements(rows[..k]) + {rows[k]}
  {
    var row := rows[k];
    assert Elements(rows[..k + 1]) == Elements(rows[..k]) + {row};
    if row.source in index && row.target in index {
      LoopsOfAppend(es, Edge(index[row.source], index[row.target]));
    } else {
      assert ValidEdges(index, rows, k + 1) == es;
    }
  }

  method AddDegrees(degrees: array<nat>, ghost es: seq<Edge>, edge: Edge)
    requires edge.source < degrees.Length && edge.target < degrees.Length && DegreesOf(es, degrees[..])
    modifies degrees
    ensures DegreesOf(es + [edge], degrees[..])
  {
    degrees[edge.source] := degrees[edge.source] + 1;
    degrees[edge.target] := degrees[edge.target] + 1;
    forall v: nat | v < degrees.Length
      ensures degrees[v] == Degree(es + [edge], v, |es + [edge]|)
    {
      DegreeOfAppend(es, edge, v);
      assert old(degrees[..])[v] == Degree(es, v, |es|);
    }
  }

  // Counters, degrees and classes after the first `k` rows.
  ghost predicate Counted(index: map<string, nat>, rows: seq<Row>, k: nat, n: nat, report: Report, degrees: seq<nat>, lab: seq<nat>) {
    && k <= |rows| && |degrees| == n
    && Accounts(index, rows, k, n, ValidEdges(index, rows, k), report)
    && DegreesOf(ValidEdges(index, rows, k), degrees) && Labels(ValidEdges(index, rows, k), lab)
  }

  // One row of the loop: counted and, if both endpoints are known, an edge.
  method CountOne(index: map<string, nat>, rows: seq<Row>, k: nat, n: nat, seen: set<Row>, before: Report, degrees: array<nat>, ds: DisjointSet)
    returns (report: Report)
    requires IsIndex(index, n) && k < |rows| && seen == Elements(rows[..k])
    requires ds.Valid() && ds.parent.Length == n && degrees != ds.parent && degrees != ds.size
    requires Counted(index, rows, k, n, before, degrees[..], Reps(ds))
    modifies degrees, ds.parent, ds.size
    ensures ds.Valid() && Counted(index, rows, k + 1, n, report, degrees[..], Reps(ds))
    ensures report == CountRow(index, seen, rows[k], before) && Elements(rows[..k + 1]) == seen + {rows[k]}
  {
    var row := rows[k];
    ghost var es := ValidEdges(index, rows, k);
    RowStep(index, rows, k, n, es, before);
    report := CountRow(index, seen, row, before);
    if row.source in index && row.target in index {
      var edge := Edge(index[row.source], index[row.target]);
      ValidInRange(index, rows, k + 1, n);
      AddDegrees(degrees, es, edge);
      AddRow(ds, es, edge);
    } else {
      assert ValidEdges(index, rows, k + 1) == es;
    }
  }

  method CountRows(index: map<string, nat>, n: nat, rows: seq<Row>) returns (report: Report, ds: DisjointSet)
    requires IsIndex(index, n)
    ensures Accounts(index, rows, |rows|, n, ValidEdges(index, rows, |rows|), report)
    ensures |report.degrees| == n && DegreesOf(ValidEdges(index, rows, |rows|), report.degrees)
    ensures fresh(ds) && fresh(ds.parent) && fresh(ds.size) && ds.Valid() && ds.parent.Length == n
    ensures Labels(ValidEdges(index, rows, |rows|), Reps(ds))
  {
    var degrees := new nat[n](_ => 0);
    ds := new DisjointSet(n);
    NoEdges(Reps(ds));
    var seen: set<Row> := {};
    report := Report(n, 0, 0, 0, 0, 0, 0, 0, 0, 0, 0, 0, []);
    for k: nat := 0 to |rows|
      invariant fresh(ds.parent) && fresh(ds.size) && ds.Valid() && ds.parent.Length == n
      invariant degrees != ds.parent && degrees != ds.size && seen == Elements(rows[..k])
      invariant Counted(index, rows, k, n, report, degrees[..], Reps(ds))
    {
      report := CountOne(index, rows, k, n, seen, report, degrees, ds);
      seen := seen + {rows[k]};
    }
    report := report.(degrees := degrees[..]);
  }

  function Loops(es: seq<Edge>): nat -> bool {
    e => 0 <= e < |es| && es[e].source == es[e].target
  }

  lemma {:induction false} CountIfSame(n: nat, f: nat -> bool, g: nat -> bool)
    requires forall i :: 0 <= i < n ==> f(i) == g(i)
    ensures CountIf(n, f) == CountIf(n, g)
  {
    if n > 0 {
      CountIfSame(n - 1, f, g);
    }
  }

  lemma LoopsOfAppend(es: seq<Edge>, edge: Edge)
    ensures CountIf(|es| + 1, Loops(es + [edge])) == CountIf(|es|, Loops(es)) + (if edge.source == edge.target then 1 else 0)
  {
    CountIfSame(|es|, Loops(es), Loops(es + [edge]));
  }

  lemma NoEdges(lab: seq<nat>)
    requires forall x :: 0 <= x < |lab| ==> lab[x] == x
    ensures Labels([], lab)
  {
    forall x: nat, y: nat | x < |lab| && y < |lab|
      ensures lab[x] == lab[y] <==> Connected([], x, y)
    {
      ConnectedRefl([], x);
      if Connected([], x, y) {
        var p :| Walk([], p) && p[0] == x && p[|p| - 1] == y;
        var i := 0;
        assert |p| > 1 ==> Adjacent([], p[i], p[i + 1]);
      }
    }
  }

  lemma LargestOfTally(es: seq<Edge>, lab: seq<nat>, m: nat)
    requires Labels(es, lab)
    requires forall r :: r in Tally(lab, |lab|) ==> Tally(lab, |lab|)[r] <= m
    requires if Tally(lab, |lab|) == map[] then m == 0 else exists r :: r in Tally(lab, |lab|) && Tally(lab, |lab|)[r] == m
    ensures IsLargest(es, |lab|, m)
  {
    forall x: nat | x < |lab|
      ensures |Component(es, |lab|, x)| <= m
    {
      TallyIsComponent(es, lab, x);
    }
    if |lab| > 0 {
      TallyIsComponent(es, lab, 0);
      var r :| r in Tally(lab, |lab|) && Tally(lab, |lab|)[r] == m;
      TallyCounts(lab, |lab|, r);
      CarriersMembers(lab, |lab|, r);
      var x :| x in Carriers(lab, |lab|, r);
      TallyIsComponent(es, lab, x);
    }
  }

  method LargestValue(sizes: map<nat, nat>) returns (m: nat)
    ensures forall r :: r in sizes ==> sizes[r] <= m
    ensures if sizes == map[] then m == 0 else exists r :: r in sizes && sizes[r] == m
  {
    m := 0;
    var rest := sizes.Keys;
    while rest != {}
      invariant rest <= sizes.Keys
      invariant forall r :: r in sizes && r !in rest ==> sizes[r] <= m
      invariant (exists r :: r in sizes && r !in rest && sizes[r] == m) || (m == 0 && rest == sizes.Keys)
    {
      var r :| r in rest;
      rest := rest - {r};
      if sizes[r] > m || rest == sizes.Keys - {r} {
        m := sizes[r];
      }
    }
  }

  method AuditGraph(entityIds: seq<string>, rows: seq<Row>) returns (r: Result<Report, Error>, ghost index: map<string, nat>)
    ensures r.Err? <==> "" in entityIds
    ensures r.Ok? ==>
              var n, es := |Distinct(entityIds)|, ValidEdges(index, rows, |rows|);
              && Indexes(index, Distinct(entityIds))
              && Accounts(index, rows, |rows|, n, es, r.value)
              && |r.value.degrees| == n && DegreesOf(es, r.value.degrees)
              && r.value.duplicateEntityIds == |entityIds| - n
              && r.value.components == |Components(es, n, n)|
              && IsLargest(es, n, r.value.largestComponent)
              && r.value.isolatedNodes == CountIf(n, v => 0 <= v < |r.value.degrees| && r.value.degrees[v] == 0)
  {
    var indexed, names, duplicateIds := IndexEntities(entityIds);
    if indexed.Err? {
      return Err(indexed.error), map[];
    }
    index := indexed.value;
    var n := |names|;
    forall x | x in index
      ensures index[x] < n
    {
      var i :| 0 <= i < n && names[i] == x;
      assert index[names[i]] == i;
    }
    var counts, ds := CountRows(indexed.value, n, rows);
    ghost var es, lab := ValidEdges(index, rows, |rows|), Reps(ds);
    var sizes := ComponentSizes(ds, n);
    TallySize(es, lab, n);
    var largest := LargestValue(sizes);
    LargestOfTally(es, lab, largest);
    var degrees := counts.degrees;
    var isolated := CountIf(n, v => 0 <= v < |degrees| && degrees[v] == 0);
    var report := counts.(duplicateEntityIds := duplicateIds, components := |sizes|, largestComponent := largest, isolatedNodes := isolated);
    r := Ok(report);
  }

  // The published total degree is twice the number of valid rows.
  lemma TotalDegree(index: map<string, nat>, rows: seq<Row>, n: nat)
    requires IsIndex(index, n)
    ensures var es := ValidEdges(index, rows, |rows|); Offset(es, n, |es|) == 2 * |es|
  {
    ValidInRange(index, rows, |rows|, n);
    var es := ValidEdges(index, rows, |rows|);
    Handshake(es, n, |es|);
  }
}
