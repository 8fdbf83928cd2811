// Union-find with path halving and union by size, over two arrays.  `Root` follows
// parent pointers; sizes at least double along every pointer, which is what makes
// following them terminate, and terminate within log2 of the node count.

module DisjointSets {
  import opened Common

  predicate Linked(p: seq<nat>, sz: seq<nat>, x: nat)
    requires x < |p| == |sz|
  {
    && p[x] < |p|
    && 1 <= sz[x] <= |p|
    && (p[x] != x ==> 2 * sz[x] <= sz[p[x]])
  }

  predicate Forest(p: seq<nat>, sz: seq<nat>) {
    |p| == |sz| && forall x :: 0 <= x < |p| ==> Linked(p, sz, x)
  }

  function Root(p: seq<nat>, sz: seq<nat>, x: nat): (r: nat)
    requires Forest(p, sz) && x < |p|
    ensures r < |p| && p[r] == r
    decreases |p| - sz[x]
  {
    assert Linked(p, sz, x);
    if p[x] == x then x
    else
      assert Linked(p, sz, p[x]);
      Root(p, sz, p[x])
  }

  // Number of pointers between `x` and its root.
  function Depth(p: seq<nat>, sz: seq<nat>, x: nat): nat
    requires Forest(p, sz) && x < |p|
    decreases |p| - sz[x]
  {
    assert Linked(p, sz, x);
    if p[x] == x then 0
    else
      assert Linked(p, sz, p[x]);
      1 + Depth(p, sz, p[x])
  }

  function Pow2(k: nat): nat {
    if k == 0 then 1 else 2 * Pow2(k - 1)
  }

  function Class(p: seq<nat>, sz: seq<nat>, r: nat): set<nat>
    requires Forest(p, sz)
  {
    set y: nat | y < |p| && Root(p, sz, y) == r
  }

  // At a root the recorded size is the size of its class.
  ghost predicate Counted(p: seq<nat>, sz: seq<nat>)
    requires Forest(p, sz)
  {
    forall r :: 0 <= r < |p| && p[r] == r ==> sz[r] == |Class(p, sz, r)|
  }

  lemma {:induction false} SizesDouble(p: seq<nat>, sz: seq<nat>, x: nat)
    requires Forest(p, sz) && x < |p|
    ensures Pow2(Depth(p, sz, x)) * sz[x] <= sz[Root(p, sz, x)]
    decreases |p| - sz[x]
  {
    assert Linked(p, sz, x);
    if p[x] != x {
      assert Linked(p, sz, p[x]);
      SizesDouble(p, sz, p[x]);
      DoubleStep(Pow2(Depth(p, sz, p[x])), sz[x], sz[p[x]]);
    }
  }

  lemma DoubleStep(k: nat, a: nat, b: nat)
    requires 2 * a <= b
    ensures (2 * k) * a <= k * b
  {
    MulMonotone(k, 2 * a, b);
    assert (2 * k) * a == k * (2 * a);
  }

  // No chain of pointers is longer than the binary logarithm of the node count.
  lemma DepthIsLogarithmic(p: seq<nat>, sz: seq<nat>, x: nat)
    requires Forest(p, sz) && x < |p|
    ensures Pow2(Depth(p, sz, x)) <= |p|
  {
    SizesDouble(p, sz, x);
    assert Linked(p, sz, x);
    assert Linked(p, sz, Root(p, sz, x));
    MulMonotone(Pow2(Depth(p, sz, x)), 1, sz[x]);
  }

  // ---------------------------------------------------------------- path halving

  // Pointing a node at its grandparent keeps every root.
  lemma HalvingLinks(p: seq<nat>, sz: seq<nat>, x: nat)
    requires Forest(p, sz) && x < |p|
    ensures p[x] < |p| && p[p[x]] < |p| && Forest(p[x := p[p[x]]], sz)
  {
    assert Linked(p, sz, x) && Linked(p, sz, p[x]) && Linked(p, sz, p[p[x]]);
    var q := p[x := p[p[x]]];
    forall y | 0 <= y < |q|
      ensures Linked(q, sz, y)
    {
      assert Linked(p, sz, y);
    }
  }

  lemma {:induction false} HalvingKeepsRoot(p: seq<nat>, sz: seq<nat>, x: nat, y: nat)
    requires Forest(p, sz) && x < |p| && y < |p| && p[x] < |p| && p[p[x]] < |p|
    requires Forest(p[x := p[p[x]]], sz)
    ensures Root(p[x := p[p[x]]], sz, y) == Root(p, sz, y)
    decreases |p| - sz[y]
  {
    assert Linked(p, sz, y);
    if p[y] != y {
      assert Linked(p, sz, p[y]);
      HalvingKeepsRoot(p, sz, x, p[y]);
      if y == x && p[p[x]] != p[x] {
        assert Linked(p, sz, p[p[x]]);
        HalvingKeepsRoot(p, sz, x, p[p[x]]);
      }
    }
  }

  lemma SameRoots(p: seq<nat>, q: seq<nat>, sz: seq<nat>)
    requires Forest(p, sz) && Forest(q, sz) && Counted(p, sz)
    requires forall y :: 0 <= y < |p| ==> Root(q, sz, y) == Root(p, sz, y)
    ensures Counted(q, sz)
  {
    forall r | 0 <= r < |q| && q[r] == r
      ensures sz[r] == |Class(q, sz, r)|
    {
      assert Root(q, sz, r) == r;
      assert Root(p, sz, r) == r;
      assert Class(q, sz, r) == Class(p, sz, r);
    }
  }

  // ---------------------------------------------------------------- union by size

  // Hanging root `b` under root `a`.
  ghost predicate CanLink(p: seq<nat>, sz: seq<nat>, a: nat, b: nat) {
    && Forest(p, sz) && Counted(p, sz)
    && a < |p| && b < |p| && a != b && p[a] == a && p[b] == b && sz[a] >= sz[b]
  }

  lemma LinkFits(p: seq<nat>, sz: seq<nat>, a: nat, b: nat)
    requires CanLink(p, sz, a, b)
    ensures sz[a] + sz[b] == |Class(p, sz, a) + Class(p, sz, b)| <= |p|
  {
    var both := Class(p, sz, a) + Class(p, sz, b);
    assert Class(p, sz, a) !! Class(p, sz, b);
    SubsetCardinality(both, Below(|p|));
  }

  lemma LinkKeepsForest(p: seq<nat>, sz: seq<nat>, a: nat, b: nat)
    requires CanLink(p, sz, a, b)
    ensures Forest(p[b := a], sz[a := sz[a] + sz[b]])
  {
    LinkFits(p, sz, a, b);
    var q, tz := p[b := a], sz[a := sz[a] + sz[b]];
    forall y | 0 <= y < |q|
      ensures Linked(q, tz, y)
    {
      assert Linked(p, sz, y);
      assert Linked(p, sz, a) && Linked(p, sz, b);
    }
  }

  lemma {:induction false} LinkRoots(p: seq<nat>, sz: seq<nat>, a: nat, b: nat, y: nat)
    requires CanLink(p, sz, a, b) && y < |p|
    requires Forest(p[b := a], sz[a := sz[a] + sz[b]])
    ensures Root(p[b := a], sz[a := sz[a] + sz[b]], y) == if Root(p, sz, y) == b then a else Root(p, sz, y)
    decreases |p| - sz[y]
  {
    assert Linked(p, sz, y);
    if p[y] != y {
      assert Linked(p, sz, p[y]);
      LinkRoots(p, sz, a, b, p[y]);
    }
  }

  lemma LinkKeepsCounts(p: seq<nat>, sz: seq<nat>, a: nat, b: nat)
    requires CanLink(p, sz, a, b)
    requires Forest(p[b := a], sz[a := sz[a] + sz[b]])
    ensures Counted(p[b := a], sz[a := sz[a] + sz[b]])
  {
    var q, tz := p[b := a], sz[a := sz[a] + sz[b]];
    forall r | 0 <= r < |q| && q[r] == r
      ensures tz[r] == |Class(q, tz, r)|
    {
      forall y | 0 <= y < |p|
        ensures Root(q, tz, y) == if Root(p, sz, y) == b then a else Root(p, sz, y)
      {
        LinkRoots(p, sz, a, b, y);
      }
      if r == a {
        LinkFits(p, sz, a, b);
        assert Class(q, tz, a) == Class(p, sz, a) + Class(p, sz, b);
      } else {
        assert Class(q, tz, r) == Class(p, sz, r);
      }
    }
  }

  // ---------------------------------------------------------------- the structure

  class DisjointSet {
    const parent: array<nat>
    const size: array<nat>

    ghost predicate Valid()
      reads parent, size
    {
      && parent != size
      && Forest(parent[..], size[..])
      && Counted(parent[..], size[..])
    }

    // The representative of `x`'s class.
    ghost function Rep(x: nat): nat
      requires Valid() && x < parent.Length
      reads parent, size
    {
      Root(parent[..], size[..], x)
    }

    constructor (count: nat)
      ensures Valid() && fresh(parent) && fresh(size) && parent.Length == count
      ensures forall x :: 0 <= x < count ==> Rep(x) == x
    {
      parent := new nat[count](i => i);
      size := new nat[count](_ => 1);
      new;
      assert Forest(parent[..], size[..]);
      forall r | 0 <= r < count
        ensures 1 == |Class(parent[..], size[..], r)|
      {
        assert Class(parent[..], size[..], r) == {r};
      }
    }

    method Find(item: nat) returns (root: nat)
      requires Valid() && item < parent.Length
      modifies parent
      ensures Valid() && root == old(Rep(item)) && root < parent.Length
      ensures forall x :: 0 <= x < parent.Length ==> Rep(x) == old(Rep(x))
    {
      root := item;
      assert Linked(parent[..], size[..], root);
      while parent[root] != root
        invariant Valid() && root < parent.Length
        invariant Linked(parent[..], size[..], root)
        invariant Rep(root) == old(Rep(item))
        invariant forall x :: 0 <= x < parent.Length ==> Rep(x) == old(Rep(x))
        decreases parent.Length - size[root]
      {
        Halve(root);
        root := parent[root];
        assert Linked(parent[..], size[..], root);
      }
    }

    method Halve(item: nat)
      requires Valid() && item < parent.Length && parent[item] != item
      modifies parent
      ensures Valid()
      ensures parent[item] < parent.Length && size[item] < size[parent[item]] <= parent.Length
      ensures Rep(parent[item]) == old(Rep(item))
      ensures forall x :: 0 <= x < parent.Length ==> Rep(x) == old(Rep(x))
    {
      ghost var p, sz := parent[..], size[..];
      HalvingLinks(p, sz, item);
      assert Linked(p, sz, item) && Linked(p, sz, p[item]);
      parent[item] := parent[parent[item]];
      ghost var q := parent[..];
      assert q == p[item := p[p[item]]];
      forall x | 0 <= x < |p|
        ensures Root(q, sz, x) == Root(p, sz, x)
      {
        HalvingKeepsRoot(p, sz, item, x);
      }
      SameRoots(p, q, sz);
      assert Linked(q, sz, item) && Linked(q, sz, q[item]);
    }

    // `r` is the class that survives.
    method Union(left: nat, right: nat) returns (ghost r: nat)
      requires Valid() && left < parent.Length && right < parent.Length
      modifies parent, size
      ensures Valid()
      ensures r == old(Rep(left)) || r == old(Rep(right))
      ensures forall x :: 0 <= x < parent.Length ==>
                Rep(x) == if old(Rep(x)) == old(Rep(left)) || old(Rep(x)) == old(Rep(right)) then r else old(Rep(x))
    {
      var leftRoot: nat := Find(left);
      var rightRoot: nat := Find(right);
      r := leftRoot;
      if leftRoot == rightRoot {
        return;
      }
      if size[leftRoot] < size[rightRoot] {
        leftRoot, rightRoot := rightRoot, leftRoot;
      }
      r := leftRoot;
      ghost var p, sz := parent[..], size[..];
      LinkKeepsForest(p, sz, leftRoot, rightRoot);
      LinkKeepsCounts(p, sz, leftRoot, rightRoot);
      parent[rightRoot] := leftRoot;
      size[leftRoot] := size[leftRoot] + size[rightRoot];
      assert parent[..] == p[rightRoot := leftRoot];
      ghost var total: nat := sz[leftRoot] + sz[rightRoot];
      assert size[..] == sz[leftRoot := total];
      forall x | 0 <= x < |p|
        ensures Rep(x) == if Root(p, sz, x) == rightRoot then leftRoot else Root(p, sz, x)
      {
        LinkRoots(p, sz, leftRoot, rightRoot, x);
      }
    }
  }
}
