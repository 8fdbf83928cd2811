// What the audit reports, told over the relationship rows and the names of the entities: which
// entities are linked, which belong together, and how often each is an endpoint.

module AuditRows {
  import opened Common
  import opened LayoutIndex
  import opened Neighborhood
  import opened GraphAudit

  // The entity at this position of the list of distinct names.
  predicate Names(names: seq<string>, x: nat, name: string) {
    x < |names| && names[x] == name
  }

  // Some row has the two entities as its endpoints, in either direction.
  ghost predicate RowLinks(names: seq<string>, rows: seq<Row>, x: nat, y: nat) {
    exists k :: 0 <= k < |rows| &&
      ((Names(names, x, rows[k].source) && Names(names, y, rows[k].target)) || (Names(names, x, rows[k].target) && Names(names, y, rows[k].source)))
  }

  // Entities linked through rows, one after the other.
  ghost predicate RowPath(names: seq<string>, rows: seq<Row>, p: seq<nat>) {
    p != [] && forall i :: 0 <= i < |p| - 1 ==> RowLinks(names, rows, p[i], p[i + 1])
  }

  ghost predicate Together(names: seq<string>, rows: seq<Row>, x: nat, y: nat) {
    exists p :: RowPath(names, rows, p) && p[0] == x && p[|p| - 1] == y
  }

  lemma IndexedNames(index: map<string, nat>, names: seq<string>, name: string, x: nat)
    requires Indexes(index, names)
    ensures Names(names, x, name) <==> name in index && index[name] == x
  {
    if name in index {
      var i :| 0 <= i < |names| && names[i] == name;
      assert index[names[i]] == i;
    }
    if x < |names| {
      assert names[x] in names && index[names[x]] == x;
    }
  }

  // The valid rows are the edges: each leads from its source to its target.
  lemma {:induction false} EdgesAreRows(index: map<string, nat>, names: seq<string>, rows: seq<Row>, k: nat, x: nat, y: nat)
    requires Indexes(index, names) && k <= |rows|
    ensures Edge(x, y) in ValidEdges(index, rows, k) <==>
            exists j :: 0 <= j < k && Names(names, x, rows[j].source) && Names(names, y, rows[j].target)
  {
    if k > 0 {
      EdgesAreRows(index, names, rows, k - 1, x, y);
      IndexedNames(index, names, rows[k - 1].source, x);
      IndexedNames(index, names, rows[k - 1].target, y);
      var last := k - 1;
      assert Names(names, x, rows[last].source) && Names(names, y, rows[last].target) <==>
             rows[last].source in index && rows[last].target in index && Edge(index[rows[last].source], index[rows[last].target]) == Edge(x, y);
    }
  }

  lemma AdjacentIff(index: map<string, nat>, names: seq<string>, rows: seq<Row>, x: nat, y: nat)
    requires Indexes(index, names)
    ensures Adjacent(ValidEdges(index, rows, |rows|), x, y) <==> RowLinks(names, rows, x, y)
  {
    var es := ValidEdges(index, rows, |rows|);
    EdgesAreRows(index, names, rows, |rows|, x, y);
    EdgesAreRows(index, names, rows, |rows|, y, x);
    assert Adjacent(es, x, y) <==> Edge(x, y) in es || Edge(y, x) in es by {
      AdjacentMember(es, x, y);
    }
  }

  lemma AdjacentMember(es: seq<Edge>, x: nat, y: nat)
    ensures Adjacent(es, x, y) <==> Edge(x, y) in es || Edge(y, x) in es
  {
    if Edge(x, y) in es {
      var e :| 0 <= e < |es| && es[e] == Edge(x, y);
      assert Joins(es[e], x, y);
    }
    if Edge(y, x) in es {
      var e :| 0 <= e < |es| && es[e] == Edge(y, x);
      assert Joins(es[e], x, y);
    }
  }

  // Components are the entities that belong together by the rows.
  lemma ConnectedIff(index: map<string, nat>, names: seq<string>, rows: seq<Row>, x: nat, y: nat)
    requires Indexes(index, names)
    ensures Connected(ValidEdges(index, rows, |rows|), x, y) <==> Together(names, rows, x, y)
  {
    var es := ValidEdges(index, rows, |rows|);
    forall p: seq<nat>
      ensures Walk(es, p) <==> RowPath(names, rows, p)
    {
      forall i | 0 <= i < |p| - 1
        ensures Adjacent(es, p[i], p[i + 1]) <==> RowLinks(names, rows, p[i], p[i + 1])
      {
        AdjacentIff(index, names, rows, p[i], p[i + 1]);
      }
    }
  }

  // How often an entity is an endpoint of a row whose other endpoint is known too.
  function RowDegree(names: seq<string>, rows: seq<Row>, x: nat): nat {
    if rows == [] then 0
    else
      var row := rows[|rows| - 1];
      RowDegree(names, rows[..|rows| - 1], x)
      + if row.source in names && row.target in names then One(Names(names, x, row.source)) + One(Names(names, x, row.target)) else 0
  }

  lemma {:induction false} DegreeIs(index: map<string, nat>, names: seq<string>, rows: seq<Row>, k: nat, x: nat)
    requires Indexes(index, names) && k <= |rows|
    ensures var es := ValidEdges(index, rows, k); Degree(es, x, |es|) == RowDegree(names, rows[..k], x)
  {
    if k > 0 {
      var row := rows[k - 1];
      DegreeIs(index, names, rows, k - 1, x);
      assert rows[..k][..k - 1] == rows[..k - 1];
      IndexedNames(index, names, row.source, x);
      IndexedNames(index, names, row.target, x);
      if row.source in index && row.target in index {
        DegreeOfAppend(ValidEdges(index, rows, k - 1), Edge(index[row.source], index[row.target]), x);
      } else {
        assert ValidEdges(index, rows, k) == ValidEdges(index, rows, k - 1);
      }
    }
  }

  ghost function TogetherWith(names: seq<string>, rows: seq<Row>, x: nat): set<nat> {
    set y | y in Below(|names|) && Together(names, rows, x, y)
  }

  lemma ComponentIs(index: map<string, nat>, names: seq<string>, rows: seq<Row>, x: nat)
    requires Indexes(index, names)
    ensures Component(ValidEdges(index, rows, |rows|), |names|, x) == TogetherWith(names, rows, x)
  {
    forall y: nat
      ensures Connected(ValidEdges(index, rows, |rows|), x, y) <==> Together(names, rows, x, y)
    {
      ConnectedIff(index, names, rows, x, y);
    }
  }

  // The groups of entities that belong together.
  ghost function Groups(names: seq<string>, rows: seq<Row>): set<set<nat>> {
    set x | x in Below(|names|) :: TogetherWith(names, rows, x)
  }

  lemma DegreesMean(index: map<string, nat>, names: seq<string>, rows: seq<Row>, degrees: seq<nat>, x: nat)
    requires Indexes(index, names) && x < |degrees| && DegreesOf(ValidEdges(index, rows, |rows|), degrees)
    ensures degrees[x] == RowDegree(names, rows, x)
  {
    DegreeIs(index, names, rows, |rows|, x);
    assert rows[..|rows|] == rows;
  }

  lemma ComponentsMean(index: map<string, nat>, names: seq<string>, rows: seq<Row>)
    requires Indexes(index, names)
    ensures Components(ValidEdges(index, rows, |rows|), |names|, |names|) == Groups(names, rows)
  {
    var es, n := ValidEdges(index, rows, |rows|), |names|;
    forall c
      ensures c in Components(es, n, n) <==> c in Groups(names, rows)
    {
      if x: nat :| x < n && Component(es, n, x) == c {
        ComponentIs(index, names, rows, x);
      }
      if x :| x in Below(n) && TogetherWith(names, rows, x) == c {
        ComponentIs(index, names, rows, x);
      }
    }
  }

  lemma LargestMeans(index: map<string, nat>, names: seq<string>, rows: seq<Row>, largest: nat)
    requires Indexes(index, names) && IsLargest(ValidEdges(index, rows, |rows|), |names|, largest)
    ensures forall c :: c in Groups(names, rows) ==> |c| <= largest
    ensures names != [] ==> exists c :: c in Groups(names, rows) && |c| == largest
  {
    var es, n := ValidEdges(index, rows, |rows|), |names|;
    forall c | c in Groups(names, rows)
      ensures |c| <= largest
    {
      var x :| x in Below(n) && TogetherWith(names, rows, x) == c;
      ComponentIs(index, names, rows, x);
    }
    if names != [] {
      var x: nat :| x < n && |Component(es, n, x)| == largest;
      ComponentIs(index, names, rows, x);
      assert x in Below(n) && TogetherWith(names, rows, x) in Groups(names, rows);
    }
  }

  // The report, by names and rows: degrees, the number of groups of entities that belong
  // together, and the size of the largest.
  lemma ReportMeans(index: map<string, nat>, names: seq<string>, rows: seq<Row>, r: Report)
    requires Indexes(index, names) && |r.degrees| == |names| && DegreesOf(ValidEdges(index, rows, |rows|), r.degrees)
    requires r.components == |Components(ValidEdges(index, rows, |rows|), |names|, |names|)|
    requires IsLargest(ValidEdges(index, rows, |rows|), |names|, r.largestComponent)
    ensures forall x :: 0 <= x < |names| ==> r.degrees[x] == RowDegree(names, rows, x)
    ensures r.components == |Groups(names, rows)|
    ensures forall c :: c in Groups(names, rows) ==> |c| <= r.largestComponent
    ensures names != [] ==> exists c :: c in Groups(names, rows) && |c| == r.largestComponent
  {
    forall x: nat | x < |names|
      ensures r.degrees[x] == RowDegree(names, rows, x)
    {
      DegreesMean(index, names, rows, r.degrees, x);
    }
    ComponentsMean(index, names, rows);
    LargestMeans(index, names, rows, r.largestComponent);
  }
}
