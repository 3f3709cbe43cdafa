/** Paths and reachability over adjacency lists. A graph value is the sequence of
    its adjacency lists; vertex `u` is position `u`. */
module Paths {

  type Adjacency = seq<seq<int>>

  predicate WellFormed(adj: Adjacency) {
    forall u, k | 0 <= u < |adj| && 0 <= k < |adj[u]| :: 0 <= adj[u][k] < |adj|
  }

  predicate Vertex(adj: Adjacency, v: int) { 0 <= v < |adj| }

  /** `w` stands in a list before the first `v`. */
  predicate Precedes(list: seq<int>, w: int, v: int) {
    v in list && exists i | 0 <= i < |list| :: list[i] == w && forall j | 0 <= j <= i :: list[j] != v
  }

  lemma FirstPlace(list: seq<int>, v: int) returns (i: nat)
    requires v in list
    ensures i < |list| && list[i] == v && forall k | 0 <= k < i :: list[k] != v
  {
    i := 0;
    while list[i] != v
      invariant i < |list| && v in list && forall k | 0 <= k < i :: list[k] != v
      decreases |list| - i
    {
      i := i + 1;
    }
  }

  lemma PrecedesTotal(list: seq<int>, v: int, w: int)
    requires v in list && w in list && v != w
    ensures Precedes(list, v, w) || Precedes(list, w, v)
  {
    var i := FirstPlace(list, v);
    var j := FirstPlace(list, w);
    if i < j {
      assert forall k | 0 <= k <= i :: list[k] != w;
    } else {
      assert forall k | 0 <= k <= j :: list[k] != v;
    }
  }

  lemma PrecedesOneWay(list: seq<int>, v: int, w: int)
    requires Precedes(list, v, w)
    ensures v != w && !Precedes(list, w, v)
  {
    var i :| 0 <= i < |list| && list[i] == v && forall j | 0 <= j <= i :: list[j] != w;
  }

  predicate Edge(adj: Adjacency, u: int, v: int) {
    0 <= u < |adj| && v in adj[u]
  }

  /** A walk along edges; a single vertex is a walk of no edges. */
  predicate IsPath(adj: Adjacency, p: seq<int>) {
    && |p| > 0
    && (forall i | 0 <= i < |p| :: Vertex(adj, p[i]))
    && (forall i | 0 <= i < |p| - 1 :: Edge(adj, p[i], p[i + 1]))
  }

  ghost predicate PathFromTo(adj: Adjacency, p: seq<int>, u: int, v: int) {
    IsPath(adj, p) && p[0] == u && p[|p| - 1] == v
  }

  ghost predicate Reachable(adj: Adjacency, u: int, v: int) {
    exists p :: PathFromTo(adj, p, u, v)
  }

  /** `n` is the least number of edges on a path from `u` to `v`. */
  ghost predicate Distance(adj: Adjacency, u: int, v: int, n: int) {
    && (exists p :: PathFromTo(adj, p, u, v) && |p| - 1 == n)
    && (forall p | PathFromTo(adj, p, u, v) :: |p| - 1 >= n)
  }

  lemma EdgeTarget(adj: Adjacency, u: int, v: int)
    requires WellFormed(adj) && Edge(adj, u, v)
    ensures Vertex(adj, v)
  {
  }

  lemma ExtendPath(adj: Adjacency, p: seq<int>, u: int, v: int, w: int)
    requires WellFormed(adj)
    requires PathFromTo(adj, p, u, v) && Edge(adj, v, w)
    ensures PathFromTo(adj, p + [w], u, w)
  {
    EdgeTarget(adj, v, w);
    var q := p + [w];
    forall i | 0 <= i < |q| - 1
      ensures Edge(adj, q[i], q[i + 1])
    {
      if i < |p| - 1 {
        assert q[i] == p[i] && q[i + 1] == p[i + 1];
      }
    }
  }

  lemma JoinPaths(adj: Adjacency, p: seq<int>, q: seq<int>, u: int, v: int, w: int)
    requires PathFromTo(adj, p, u, v) && PathFromTo(adj, q, v, w)
    ensures PathFromTo(adj, p + q[1..], u, w)
  {
    var r := p + q[1..];
    forall i | 0 <= i < |r|
      ensures Vertex(adj, r[i])
    {
      if i >= |p| {
        assert r[i] == q[i - |p| + 1];
      }
    }
    forall i | 0 <= i < |r| - 1
      ensures Edge(adj, r[i], r[i + 1])
    {
      if i < |p| - 1 {
        assert r[i] == p[i] && r[i + 1] == p[i + 1];
      } else {
        assert r[i] == q[i - |p| + 1] && r[i + 1] == q[i - |p| + 2];
      }
    }
    assert r[|r| - 1] == w;
  }
}

/** Counting in finite sets of vertices. */
module Counting {

  ghost function Below(n: nat): (s: set<int>)
    ensures |s| == n
    ensures forall x :: x in s <==> 0 <= x < n
  {
    if n == 0 then {} else Below(n - 1) + {n - 1}
  }

  lemma {:induction false} SubsetSize<T>(a: set<T>, b: set<T>)
    requires a <= b
    ensures |a| <= |b|
  {
    if a != {} {
      var x :| x in a;
      SubsetSize(a - {x}, b - {x});
    }
  }

  lemma DistinctBound(p: seq<int>, n: nat)
    requires forall i | 0 <= i < |p| :: 0 <= p[i] < n
    requires forall i, j | 0 <= i < j < |p| :: p[i] != p[j]
    ensures |p| <= n
  {
    var seen: set<int> := {};
    for k := 0 to |p|
      invariant forall x :: x in seen <==> x in p[..k]
      invariant |seen| == k
    {
      assert p[..k + 1] == p[..k] + [p[k]];
      seen := seen + {p[k]};
    }
    SubsetSize(seen, Below(n));
  }
}

/** The graph object: adjacency lists that grow edge by edge, and their transpose. */
module Graphs {
  import opened Paths

  predicate NoDuplicates(s: seq<int>) {
    forall i, j | 0 <= i < j < |s| :: s[i] != s[j]
  }

  lemma PrecedesByPlace(list: seq<int>, i: nat, j: nat)
    requires NoDuplicates(list) && i < |list| && j < |list|
    ensures Precedes(list, list[i], list[j]) <==> i < j
  {
    assert list[j] in list;
    if i < j {
      assert forall k | 0 <= k <= i :: list[k] != list[j];
    }
  }

  /** Every entry is a vertex and no list repeats one. */
  predicate Simple(adj: Adjacency) {
    WellFormed(adj) && forall u | 0 <= u < |adj| :: NoDuplicates(adj[u])
  }

  predicate Ascending(s: seq<int>) {
    forall i, j | 0 <= i < j < |s| :: s[i] < s[j]
  }

  ghost predicate SameEdges(a: Adjacency, b: Adjacency) {
    |a| == |b| && forall u, v :: Edge(a, u, v) <==> Edge(b, u, v)
  }

  ghost predicate Symmetric(adj: Adjacency) {
    forall u, v :: Edge(adj, u, v) ==> Edge(adj, v, u)
  }

  function EmptyLists(n: nat): (adj: Adjacency)
    ensures |adj| == n && Simple(adj) && forall u | 0 <= u < n :: adj[u] == []
  {
    seq(n, _ => [])
  }

  /** The lists after one directed edge is added at the end of its list, unless present. */
  function Added(adj: Adjacency, u: int, v: int): Adjacency
    requires Vertex(adj, u)
  {
    if v in adj[u] then adj else adj[u := adj[u] + [v]]
  }

  lemma AddedEdges(adj: Adjacency, u: int, v: int)
    requires Vertex(adj, u)
    ensures forall x, y :: Edge(Added(adj, u, v), x, y) <==> Edge(adj, x, y) || (x == u && y == v)
  {
  }

  // ---------------------------------------------------------------------------
  // The transpose as a function of the lists
  // ---------------------------------------------------------------------------

  /** The vertices below `n` with an edge to `v`, in ascending order. */
  function Sources(adj: Adjacency, v: int, n: nat): (s: seq<int>)
    requires n <= |adj|
    ensures Ascending(s)
    ensures forall u :: u in s <==> 0 <= u < n && v in adj[u]
  {
    if n == 0 then []
    else
      var before := Sources(adj, v, n - 1);
      assert forall i | 0 <= i < |before| :: before[i] in before;
      before + if v in adj[n - 1] then [n - 1] else []
  }

  function Reversed(adj: Adjacency): (r: Adjacency)
    ensures |r| == |adj|
  {
    seq(|adj|, v requires 0 <= v < |adj| => Sources(adj, v, |adj|))
  }

  /** Midway through the edges of `x`: list `v` of the growing transpose. */
  function PartialSources(adj: Adjacency, v: int, x: nat, k: nat): seq<int>
    requires x < |adj| && k <= |adj[x]|
  {
    Sources(adj, v, x) + if v in adj[x][..k] then [x] else []
  }

  ghost predicate PartlyReversed(t: Adjacency, adj: Adjacency, x: nat, k: nat)
    requires x < |adj| && k <= |adj[x]|
  {
    |t| == |adj| && forall v | 0 <= v < |adj| :: t[v] == PartialSources(adj, v, x, k)
  }

  lemma ReverseEdge(t: Adjacency, adj: Adjacency, x: nat, k: nat)
    requires Simple(adj) && x < |adj| && k < |adj[x]|
    requires PartlyReversed(t, adj, x, k)
    ensures 0 <= adj[x][k] < |adj| && |t| == |adj|
    ensures PartlyReversed(Added(t, adj[x][k], x), adj, x, k + 1)
  {
    hide Sources;
    assert adj[x][..k + 1] == adj[x][..k] + [adj[x][k]];
    assert x !in Sources(adj, adj[x][k], x);
  }

  /** The vertices below `x` have all their edges reversed. */
  ghost predicate ReversedBelow(t: Adjacency, adj: Adjacency, x: nat)
    requires x <= |adj|
  {
    |t| == |adj| && forall v | 0 <= v < |adj| :: t[v] == Sources(adj, v, x)
  }

  lemma ReverseDone(t: Adjacency, adj: Adjacency, x: nat)
    requires x < |adj|
    ensures ReversedBelow(t, adj, x) ==> PartlyReversed(t, adj, x, 0)
    ensures PartlyReversed(t, adj, x, |adj[x]|) ==> ReversedBelow(t, adj, x + 1)
  {
    assert adj[x][..|adj[x]|] == adj[x];
  }

  lemma NoneReversed(adj: Adjacency)
    ensures ReversedBelow(EmptyLists(|adj|), adj, 0)
  {
  }

  lemma AllReversed(t: Adjacency, adj: Adjacency)
    requires ReversedBelow(t, adj, |adj|)
    ensures t == Reversed(adj)
  {
  }

  /** The transpose holds exactly the reversed edges, every list strictly ascending. */
  lemma ReversedEdges(adj: Adjacency)
    requires WellFormed(adj)
    ensures WellFormed(Reversed(adj))
    ensures forall u, v :: Edge(Reversed(adj), v, u) <==> Edge(adj, u, v)
    ensures forall v | Vertex(adj, v) :: Ascending(Reversed(adj)[v])
  {
    var r := Reversed(adj);
    forall v, k | 0 <= v < |r| && 0 <= k < |r[v]|
      ensures 0 <= r[v][k] < |r|
    {
      assert r[v][k] in Sources(adj, v, |adj|);
    }
    forall u, v | Edge(adj, u, v)
      ensures Edge(r, v, u)
    {
      EdgeTarget(adj, u, v);
    }
  }

  lemma {:induction false} SourcesOfEdges(a: Adjacency, b: Adjacency, v: int, n: nat)
    requires SameEdges(a, b) && n <= |a|
    ensures Sources(a, v, n) == Sources(b, v, n)
  {
    if n > 0 {
      SourcesOfEdges(a, b, v, n - 1);
      assert Edge(a, n - 1, v) <==> Edge(b, n - 1, v);
    }
  }

  /** The transpose depends on the edges only, not on the order of the lists. */
  lemma ReversedOfEdges(a: Adjacency, b: Adjacency)
    requires SameEdges(a, b)
    ensures Reversed(a) == Reversed(b)
  {
    forall v | 0 <= v < |a|
      ensures Reversed(a)[v] == Reversed(b)[v]
    {
      SourcesOfEdges(a, b, v, |a|);
    }
  }

  /** Transposing twice restores the edges, with sorted lists. */
  lemma ReversedTwice(adj: Adjacency)
    requires WellFormed(adj)
    ensures SameEdges(Reversed(Reversed(adj)), adj)
    ensures forall v | Vertex(adj, v) :: Ascending(Reversed(Reversed(adj))[v])
  {
    ReversedEdges(adj);
    ReversedEdges(Reversed(adj));
  }

  function Backwards(p: seq<int>): (q: seq<int>)
    ensures |q| == |p| && forall i | 0 <= i < |p| :: q[i] == p[|p| - 1 - i]
  {
    seq(|p|, i requires 0 <= i < |p| => p[|p| - 1 - i])
  }

  lemma PathBackwards(adj: Adjacency, p: seq<int>, u: int, v: int)
    requires WellFormed(adj) && PathFromTo(adj, p, u, v)
    ensures PathFromTo(Reversed(adj), Backwards(p), v, u)
  {
    ReversedEdges(adj);
    var q := Backwards(p);
    forall i | 0 <= i < |q| - 1 ensures Edge(Reversed(adj), q[i], q[i + 1]) {
      assert Edge(adj, p[|p| - 2 - i], p[|p| - 2 - i + 1]);
    }
  }

  /** In the transpose, `v` reaches `u` exactly when `u` reaches `v`. */
  lemma ReversedReach(adj: Adjacency, u: int, v: int)
    requires WellFormed(adj)
    ensures Reachable(Reversed(adj), v, u) <==> Reachable(adj, u, v)
  {
    ReversedEdges(adj);
    ReversedTwice(adj);
    if p :| PathFromTo(adj, p, u, v) {
      PathBackwards(adj, p, u, v);
    }
    if p :| PathFromTo(Reversed(adj), p, v, u) {
      PathBackwards(Reversed(adj), p, v, u);
      assert forall i | 0 <= i < |p| - 1 :: Edge(Reversed(Reversed(adj)), Backwards(p)[i], Backwards(p)[i + 1]);
      assert PathFromTo(adj, Backwards(p), u, v);
    }
  }

  /** Transposing three times is exactly transposing once. */
  lemma ReversedThrice(adj: Adjacency)
    requires WellFormed(adj)
    ensures Reversed(Reversed(Reversed(adj))) == Reversed(adj)
  {
    ReversedTwice(adj);
    ReversedOfEdges(Reversed(Reversed(adj)), adj);
  }

  // ---------------------------------------------------------------------------
  // The object
  // ---------------------------------------------------------------------------

  class Graph {
    const V: nat
    const directed: bool
    var adj: Adjacency

    ghost predicate Valid()
      reads this
    {
      |adj| == V && Simple(adj)
    }

    constructor (numVertices: nat, directed: bool)
      ensures Valid() && V == numVertices && this.directed == directed
      ensures forall u | 0 <= u < V :: adj[u] == []
    {
      V := numVertices;
      this.directed := directed;
      adj := EmptyLists(numVertices);
    }

    method AddDirectedEdge(u: int, v: int)
      requires Valid() && 0 <= u < V && 0 <= v < V
      modifies this
      ensures Valid() && adj == Added(old(adj), u, v)
    {
      if v !in adj[u] {
        adj := adj[u := adj[u] + [v]];
      }
    }

    /** An undirected graph built with this method alone stays symmetric. */
    method AddEdge(u: int, v: int)
      requires Valid() && 0 <= u < V && 0 <= v < V
      modifies this
      ensures Valid()
      ensures adj == if directed then Added(old(adj), u, v) else Added(Added(old(adj), u, v), v, u)
      ensures !directed && Symmetric(old(adj)) ==> Symmetric(adj)
    {
      AddDirectedEdge(u, v);
      AddedEdges(old(adj), u, v);
      ghost var mid := adj;
      if !directed {
        AddDirectedEdge(v, u);
        AddedEdges(mid, v, u);
      }
    }

    /** A copy adds the edges again one by one and ends with the same lists. */
    constructor Copy(rhs: Graph)
      requires rhs.Valid()
      ensures Valid() && fresh(this) && V == rhs.V && directed == rhs.directed && adj == rhs.adj
    {
      V := rhs.V;
      directed := rhs.directed;
      adj := EmptyLists(rhs.V);
      new;
      for x := 0 to V
        invariant Valid() && this != rhs && rhs.adj == old(rhs.adj)
        invariant forall w | 0 <= w < V :: adj[w] == if w < x then rhs.adj[w] else []
      {
        for k := 0 to |rhs.adj[x]|
          invariant Valid() && this != rhs && rhs.adj == old(rhs.adj)
          invariant forall w | 0 <= w < V :: adj[w] == if w < x then rhs.adj[w] else if w == x then rhs.adj[x][..k] else []
        {
          AddDirectedEdge(x, rhs.adj[x][k]);
          assert rhs.adj[x][..k + 1] == rhs.adj[x][..k] + [rhs.adj[x][k]];
        }
      }
    }

    /** Adds the reverse of every edge out of `x`. */
    method AddReversed(lists: Adjacency, x: int)
      requires Valid() && Simple(lists) && |lists| == V && 0 <= x < V
      requires ReversedBelow(adj, lists, x)
      modifies this
      ensures Valid() && ReversedBelow(adj, lists, x + 1)
    {
      ReverseDone(adj, lists, x);
      hide *;
      for k := 0 to |lists[x]|
        invariant Valid() && PartlyReversed(adj, lists, x, k)
      {
        ReverseEdge(adj, lists, x, k);
        AddDirectedEdge(lists[x][k], x);
      }
      ReverseDone(adj, lists, x);
    }

    /** A directed graph's transpose; an undirected graph is merely copied. */
    method Transpose() returns (temp: Graph)
      requires Valid()
      ensures temp.Valid() && fresh(temp) && temp.V == V && temp.directed == directed
      ensures temp.adj == if directed then Reversed(adj) else adj
    {
      temp := new Graph.Copy(this);
      if !directed {
        return;
      }
      var lists := adj;
      temp.adj := EmptyLists(V);
      NoneReversed(lists);
      hide Simple, ReversedBelow, Reversed;
      for x := 0 to V
        invariant temp.Valid() && ReversedBelow(temp.adj, lists, x)
      {
        temp.AddReversed(lists, x);
      }
      AllReversed(temp.adj, lists);
    }
  }
}
