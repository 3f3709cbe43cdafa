/** The marks a depth-first search leaves, their invariant step by step, and what
    the marks of a finished search mean. */
module DfsTheory {
  import opened Paths
  import opened Counting

  datatype Color = White | Gray | Black

  /** The clock and the vectors of a search, as one value. */
  datatype Marks = Marks(time: int, pi: seq<int>, color: seq<Color>, d: seq<int>, f: seq<int>)

  predicate Sized(adj: Adjacency, m: Marks) {
    |m.pi| == |m.color| == |m.d| == |m.f| == |adj|
  }

  // ---------------------------------------------------------------------------
  // The invariant, part by part
  // ---------------------------------------------------------------------------

  predicate Found(m: Marks, v: int) { 0 <= v < |m.color| && m.color[v] != White }

  predicate IsGray(m: Marks, v: int) { 0 <= v < |m.color| && m.color[v] == Gray }

  predicate IsBlack(m: Marks, v: int) { 0 <= v < |m.color| && m.color[v] == Black }

  /** Stamps agree with colors and lie before the clock. */
  ghost predicate StampsOk(adj: Adjacency, m: Marks)
    requires Sized(adj, m)
  {
    && m.time >= 0
    && (forall v | 0 <= v < |adj| && m.color[v] == White :: m.d[v] == -1 && m.f[v] == -1)
    && (forall v | 0 <= v < |adj| && m.color[v] == Gray :: 0 <= m.d[v] < m.time && m.f[v] == -1)
    && (forall v | 0 <= v < |adj| && m.color[v] == Black :: 0 <= m.d[v] < m.f[v] < m.time)
  }

  /** No stamp is used twice. */
  ghost predicate DistinctOk(adj: Adjacency, m: Marks)
    requires Sized(adj, m)
  {
    && (forall u, v | Found(m, u) && Found(m, v) && u != v :: m.d[u] != m.d[v])
    && (forall u, v | IsBlack(m, u) && IsBlack(m, v) && u != v :: m.f[u] != m.f[v])
    && (forall u, v | Found(m, u) && IsBlack(m, v) :: m.d[u] != m.f[v])
  }

  ghost predicate Stamped(adj: Adjacency, m: Marks, t: int)
    requires Sized(adj, m)
  {
    exists v :: 0 <= v < |adj| && (m.d[v] == t || m.f[v] == t)
  }

  /** Every moment so far is somebody's stamp. */
  ghost predicate CoverOk(adj: Adjacency, m: Marks)
    requires Sized(adj, m)
  {
    forall t | 0 <= t < m.time :: Stamped(adj, m, t)
  }

  ghost function FoundSet(m: Marks): set<int> { set v | 0 <= v < |m.color| && m.color[v] != White }

  ghost function BlackSet(m: Marks): set<int> { set v | 0 <= v < |m.color| && m.color[v] == Black }

  /** The clock counts discoveries and finishes. */
  ghost predicate ClockOk(m: Marks) {
    m.time == |FoundSet(m)| + |BlackSet(m)|
  }

  /** A finished interval and a later one are disjoint or properly nested. */
  ghost predicate NestOk(adj: Adjacency, m: Marks)
    requires Sized(adj, m)
  {
    forall u, v | IsBlack(m, u) && Found(m, v) && m.d[u] < m.d[v] ::
      m.f[u] < m.d[v] || (m.color[v] == Black && m.f[v] < m.f[u])
  }

  /** A parent has an edge to its child and is open for as long as the child is. */
  ghost predicate ParentOk(adj: Adjacency, m: Marks)
    requires Sized(adj, m)
  {
    forall v | Found(m, v) && m.pi[v] != -1 ::
      && Found(m, m.pi[v]) && Edge(adj, m.pi[v], v)
      && m.d[m.pi[v]] < m.d[v]
      && (m.color[m.pi[v]] == Gray || (m.color[v] == Black && m.f[v] < m.f[m.pi[v]]))
  }

  /** Whatever was open when `v` was discovered was discovered no later than its parent. */
  ghost predicate InnermostOk(adj: Adjacency, m: Marks)
    requires Sized(adj, m)
  {
    forall v, w | Found(m, v) && Found(m, w) && m.d[w] < m.d[v] && (m.color[w] == Gray || m.d[v] < m.f[w]) ::
      Found(m, m.pi[v]) && m.d[w] <= m.d[m.pi[v]]
  }

  /** The targets of a finished vertex were discovered before it finished. */
  ghost predicate EdgesOk(adj: Adjacency, m: Marks)
    requires Sized(adj, m) && WellFormed(adj)
  {
    forall u, k | IsBlack(m, u) && 0 <= k < |adj[u]| ::
      m.color[adj[u][k]] != White && m.d[adj[u][k]] < m.f[u]
  }

  /** Children are discovered in the order of the list: what it holds before a child was discovered before it. */
  ghost predicate ChildrenOk(adj: Adjacency, m: Marks)
    requires Sized(adj, m)
  {
    forall v, w | Found(m, v) && Vertex(adj, m.pi[v]) && Precedes(adj[m.pi[v]], w, v) :: Found(m, w) && m.d[w] < m.d[v]
  }

  ghost predicate Ok(adj: Adjacency, m: Marks) {
    && WellFormed(adj) && Sized(adj, m)
    && StampsOk(adj, m) && DistinctOk(adj, m) && CoverOk(adj, m) && ClockOk(m)
    && NestOk(adj, m) && ParentOk(adj, m) && InnermostOk(adj, m) && EdgesOk(adj, m)
    && ChildrenOk(adj, m)
  }

  /** The order in which roots are taken: `s` first, then ascending. */
  predicate Earlier(s: int, w: int, u: int) { w != u && (w == s || (u != s && w < u)) }

  /** A vertex becomes a root only when all earlier ones have been discovered. */
  ghost predicate Rooted(m: Marks, s: int)
    requires |m.pi| == |m.color| == |m.d|
  {
    forall u, w | Found(m, u) && m.pi[u] == -1 && 0 <= w < |m.color| && Earlier(s, w, u) :: Found(m, w) && m.d[w] < m.d[u]
  }

  // ---------------------------------------------------------------------------
  // The two steps
  // ---------------------------------------------------------------------------

  /** `u` is the gray vertex discovered last. */
  ghost predicate Innermost(m: Marks, u: int)
  {
    |m.d| == |m.color| && IsGray(m, u) && forall w | IsGray(m, w) :: m.d[w] <= m.d[u]
  }

  /** `u` may be visited: as a root while nothing is open, or below the innermost open vertex once all
      it holds before `u` has been found. */
  ghost predicate Enterable(adj: Adjacency, m: Marks, u: int) {
    && Sized(adj, m) && Vertex(adj, u) && m.color[u] == White
    && if m.pi[u] == -1 then forall w | Vertex(adj, w) :: m.color[w] != Gray
       else Innermost(m, m.pi[u]) && Edge(adj, m.pi[u], u) && forall w | Precedes(adj[m.pi[u]], w, u) :: Found(m, w)
  }

  function Discover(m: Marks, u: int): Marks
    requires 0 <= u < |m.color| == |m.d|
  {
    Marks(m.time + 1, m.pi, m.color[u := Gray], m.d[u := m.time], m.f)
  }

  function Finish(m: Marks, u: int): Marks
    requires 0 <= u < |m.color| == |m.f|
  {
    Marks(m.time + 1, m.pi, m.color[u := Black], m.d, m.f[u := m.time])
  }

  lemma DiscoverKeepsStamps(adj: Adjacency, m: Marks, u: int)
    requires Sized(adj, m) && Vertex(adj, u) && m.color[u] == White
    requires StampsOk(adj, m) && DistinctOk(adj, m)
    ensures StampsOk(adj, Discover(m, u)) && DistinctOk(adj, Discover(m, u))
  {
    var n := Discover(m, u);
    forall v, w | Found(n, v) && Found(n, w) && v != w
      ensures n.d[v] != n.d[w]
    {
      assert v == u || Found(m, v);
      assert w == u || Found(m, w);
    }
    forall v, w | Found(n, v) && IsBlack(n, w)
      ensures n.d[v] != n.f[w]
    {
      assert v == u || Found(m, v);
      assert IsBlack(m, w);
    }
    forall v, w | IsBlack(n, v) && IsBlack(n, w) && v != w
      ensures n.f[v] != n.f[w]
    {
      assert IsBlack(m, v) && IsBlack(m, w);
    }
  }

  lemma DiscoverKeepsClock(adj: Adjacency, m: Marks, u: int)
    requires Sized(adj, m) && Vertex(adj, u) && m.color[u] == White
    requires StampsOk(adj, m) && CoverOk(adj, m) && ClockOk(m)
    ensures CoverOk(adj, Discover(m, u)) && ClockOk(Discover(m, u))
  {
    var n := Discover(m, u);
    forall t | 0 <= t < n.time
      ensures Stamped(adj, n, t)
    {
      if t == m.time {
        assert n.d[u] == t;
      } else {
        assert Stamped(adj, m, t);
        var v :| 0 <= v < |adj| && (m.d[v] == t || m.f[v] == t);
        assert v != u && n.d[v] == m.d[v];
      }
    }
    assert FoundSet(n) == FoundSet(m) + {u};
    assert BlackSet(n) == BlackSet(m);
  }

  lemma DiscoverKeepsNest(adj: Adjacency, m: Marks, u: int)
    requires Sized(adj, m) && Vertex(adj, u) && m.color[u] == White && StampsOk(adj, m) && NestOk(adj, m)
    ensures NestOk(adj, Discover(m, u))
  {
    var n := Discover(m, u);
    forall v, w | IsBlack(n, v) && Found(n, w) && n.d[v] < n.d[w]
      ensures n.f[v] < n.d[w] || (n.color[w] == Black && n.f[w] < n.f[v])
    {
      assert IsBlack(m, v);
      assert w == u || Found(m, w);
    }
  }

  lemma DiscoverKeepsParents(adj: Adjacency, m: Marks, u: int)
    requires Enterable(adj, m, u) && StampsOk(adj, m) && ParentOk(adj, m)
    ensures ParentOk(adj, Discover(m, u))
  {
    var n := Discover(m, u);
    forall v | Found(n, v) && n.pi[v] != -1
      ensures Found(n, n.pi[v]) && Edge(adj, n.pi[v], v) && n.d[n.pi[v]] < n.d[v]
      ensures n.color[n.pi[v]] == Gray || (n.color[v] == Black && n.f[v] < n.f[n.pi[v]])
    {
      assert v == u || Found(m, v);
      assert n.pi[v] != u;
    }
  }

  lemma DiscoverKeepsInnermost(adj: Adjacency, m: Marks, u: int)
    requires Enterable(adj, m, u) && StampsOk(adj, m) && InnermostOk(adj, m)
    ensures InnermostOk(adj, Discover(m, u))
  {
    hide Precedes;
    var n := Discover(m, u);
    forall v, w | Found(n, v) && Found(n, w) && n.d[w] < n.d[v] && (n.color[w] == Gray || n.d[v] < n.f[w])
      ensures Found(n, n.pi[v]) && n.d[w] <= n.d[n.pi[v]]
    {
      if v == u {
        assert IsGray(m, w);
      } else {
        assert Found(m, v) && Found(m, w);
      }
    }
  }

  lemma DiscoverKeepsEdges(adj: Adjacency, m: Marks, u: int)
    requires WellFormed(adj) && Sized(adj, m) && Vertex(adj, u) && m.color[u] == White && EdgesOk(adj, m)
    ensures EdgesOk(adj, Discover(m, u))
  {
    var n := Discover(m, u);
    forall v, k | IsBlack(n, v) && 0 <= k < |adj[v]|
      ensures n.color[adj[v][k]] != White && n.d[adj[v][k]] < n.f[v]
    {
      assert IsBlack(m, v);
    }
  }

  lemma DiscoverKeepsChildren(adj: Adjacency, m: Marks, u: int)
    requires Enterable(adj, m, u) && StampsOk(adj, m) && ChildrenOk(adj, m)
    ensures ChildrenOk(adj, Discover(m, u))
  {
    hide Precedes;
    var n := Discover(m, u);
    forall v, w | Found(n, v) && Vertex(adj, n.pi[v]) && Precedes(adj[n.pi[v]], w, v)
      ensures Found(n, w) && n.d[w] < n.d[v]
    {
      assert v == u || Found(m, v);
      assert Found(m, w);
    }
  }

  /** Discovering keeps the invariant and makes `u` innermost. */
  lemma DiscoverStep(adj: Adjacency, m: Marks, u: int)
    requires Ok(adj, m) && Enterable(adj, m, u)
    ensures Ok(adj, Discover(m, u)) && Innermost(Discover(m, u), u)
  {
    forall w | IsGray(Discover(m, u), w)
      ensures Discover(m, u).d[w] <= m.time
    {
      assert w == u || IsGray(m, w);
    }
    hide StampsOk, DistinctOk, CoverOk, ClockOk, NestOk, ParentOk, InnermostOk, EdgesOk, ChildrenOk;
    DiscoverKeepsStamps(adj, m, u);
    DiscoverKeepsClock(adj, m, u);
    DiscoverKeepsNest(adj, m, u);
    DiscoverKeepsParents(adj, m, u);
    DiscoverKeepsInnermost(adj, m, u);
    DiscoverKeepsEdges(adj, m, u);
    DiscoverKeepsChildren(adj, m, u);
  }

  lemma FinishKeepsStamps(adj: Adjacency, m: Marks, u: int)
    requires Sized(adj, m) && Vertex(adj, u) && m.color[u] == Gray
    requires StampsOk(adj, m) && DistinctOk(adj, m)
    ensures StampsOk(adj, Finish(m, u)) && DistinctOk(adj, Finish(m, u))
  {
    var n := Finish(m, u);
    forall v, w | Found(n, v) && Found(n, w) && v != w
      ensures n.d[v] != n.d[w]
    {
      assert Found(m, v) && Found(m, w);
    }
    forall v, w | Found(n, v) && IsBlack(n, w)
      ensures n.d[v] != n.f[w]
    {
      assert Found(m, v);
      assert w == u || IsBlack(m, w);
    }
    forall v, w | IsBlack(n, v) && IsBlack(n, w) && v != w
      ensures n.f[v] != n.f[w]
    {
      assert v == u || IsBlack(m, v);
      assert w == u || IsBlack(m, w);
    }
  }

  lemma FinishKeepsClock(adj: Adjacency, m: Marks, u: int)
    requires Sized(adj, m) && Vertex(adj, u) && m.color[u] == Gray
    requires StampsOk(adj, m) && CoverOk(adj, m) && ClockOk(m)
    ensures CoverOk(adj, Finish(m, u)) && ClockOk(Finish(m, u))
  {
    var n := Finish(m, u);
    forall t | 0 <= t < n.time
      ensures Stamped(adj, n, t)
    {
      if t == m.time {
        assert n.f[u] == t;
      } else {
        assert Stamped(adj, m, t);
        var v :| 0 <= v < |adj| && (m.d[v] == t || m.f[v] == t);
        assert n.d[v] == t || n.f[v] == t;
      }
    }
    assert FoundSet(n) == FoundSet(m);
    assert BlackSet(n) == BlackSet(m) + {u};
  }

  lemma FinishKeepsNest(adj: Adjacency, m: Marks, u: int)
    requires Sized(adj, m) && Innermost(m, u) && StampsOk(adj, m) && NestOk(adj, m)
    ensures NestOk(adj, Finish(m, u))
  {
    var n := Finish(m, u);
    forall v, w | IsBlack(n, v) && Found(n, w) && n.d[v] < n.d[w]
      ensures n.f[v] < n.d[w] || (n.color[w] == Black && n.f[w] < n.f[v])
    {
      assert Found(m, w);
      if v == u {
        assert !IsGray(m, w);
      } else {
        assert IsBlack(m, v);
      }
    }
  }

  lemma FinishKeepsParents(adj: Adjacency, m: Marks, u: int)
    requires Sized(adj, m) && Innermost(m, u) && StampsOk(adj, m) && ParentOk(adj, m)
    ensures ParentOk(adj, Finish(m, u))
  {
    var n := Finish(m, u);
    forall v | Found(n, v) && n.pi[v] != -1
      ensures Found(n, n.pi[v]) && Edge(adj, n.pi[v], v) && n.d[n.pi[v]] < n.d[v]
      ensures n.color[n.pi[v]] == Gray || (n.color[v] == Black && n.f[v] < n.f[n.pi[v]])
    {
      assert Found(m, v);
      if n.pi[v] == u {
        assert !IsGray(m, v);
      }
    }
  }

  lemma FinishKeepsInnermost(adj: Adjacency, m: Marks, u: int)
    requires Sized(adj, m) && IsGray(m, u) && StampsOk(adj, m) && InnermostOk(adj, m)
    ensures InnermostOk(adj, Finish(m, u))
  {
    var n := Finish(m, u);
    forall v, w | Found(n, v) && Found(n, w) && n.d[w] < n.d[v] && (n.color[w] == Gray || n.d[v] < n.f[w])
      ensures Found(n, n.pi[v]) && n.d[w] <= n.d[n.pi[v]]
    {
      assert Found(m, v) && Found(m, w);
    }
  }

  lemma FinishKeepsEdges(adj: Adjacency, m: Marks, u: int)
    requires WellFormed(adj) && Sized(adj, m) && IsGray(m, u) && StampsOk(adj, m) && EdgesOk(adj, m)
    requires forall k | 0 <= k < |adj[u]| :: Found(m, adj[u][k])
    ensures EdgesOk(adj, Finish(m, u))
  {
    var n := Finish(m, u);
    forall v, k | IsBlack(n, v) && 0 <= k < |adj[v]|
      ensures n.color[adj[v][k]] != White && n.d[adj[v][k]] < n.f[v]
    {
      assert v == u || IsBlack(m, v);
    }
  }

  lemma FinishKeepsChildren(adj: Adjacency, m: Marks, u: int)
    requires Sized(adj, m) && IsGray(m, u) && ChildrenOk(adj, m)
    ensures ChildrenOk(adj, Finish(m, u))
  {
    hide Precedes;
    assert forall v :: Found(Finish(m, u), v) <==> Found(m, v);
  }

  /** Finishing the innermost vertex, all its targets found, keeps the invariant. */
  lemma FinishStep(adj: Adjacency, m: Marks, u: int)
    requires Ok(adj, m) && Innermost(m, u)
    requires forall k | 0 <= k < |adj[u]| :: Found(m, adj[u][k])
    ensures Ok(adj, Finish(m, u))
  {
    hide StampsOk, DistinctOk, CoverOk, ClockOk, NestOk, ParentOk, InnermostOk, EdgesOk, ChildrenOk;
    FinishKeepsStamps(adj, m, u);
    FinishKeepsClock(adj, m, u);
    FinishKeepsNest(adj, m, u);
    FinishKeepsParents(adj, m, u);
    FinishKeepsInnermost(adj, m, u);
    FinishKeepsEdges(adj, m, u);
    FinishKeepsChildren(adj, m, u);
  }

  // ---------------------------------------------------------------------------
  // What the marks of a finished search mean
  // ---------------------------------------------------------------------------

  ghost predicate Finished(adj: Adjacency, m: Marks) {
    Ok(adj, m) && forall v | Vertex(adj, v) :: m.color[v] == Black
  }

  lemma FinishedFacts(adj: Adjacency, m: Marks)
    requires Finished(adj, m)
    ensures Sized(adj, m) && forall v | 0 <= v < |adj| :: IsBlack(m, v) && Found(m, v)
  {
    hide StampsOk, DistinctOk, CoverOk, ClockOk, NestOk, ParentOk, InnermostOk, EdgesOk, ChildrenOk;
    assert forall v | 0 <= v < |adj| :: Vertex(adj, v);
  }

  lemma FinishedClock(adj: Adjacency, m: Marks)
    requires Finished(adj, m)
    ensures ClockOk(m)
  {
  }

  lemma FinishedTime(adj: Adjacency, m: Marks)
    requires Finished(adj, m)
    ensures m.time == 2 * |adj|
  {
    FinishedFacts(adj, m);
    hide ChildrenOk, StampsOk, DistinctOk, CoverOk, NestOk, ParentOk, InnermostOk, EdgesOk, Finished;
    assert ClockOk(m) by { FinishedClock(adj, m); }
    assert FoundSet(m) == Below(|adj|);
    assert BlackSet(m) == Below(|adj|);
  }

  /** The 2V stamps are exactly 0 to 2V-1, each used once. */
  lemma TimestampsExact(adj: Adjacency, m: Marks)
    requires Finished(adj, m)
    ensures m.time == 2 * |adj|
    ensures forall v | Vertex(adj, v) :: 0 <= m.d[v] < m.f[v] < 2 * |adj|
    ensures forall t | 0 <= t < 2 * |adj| :: Stamped(adj, m, t)
    ensures forall u, v | Vertex(adj, u) && Vertex(adj, v) :: m.d[u] != m.f[v]
    ensures forall u, v | Vertex(adj, u) && Vertex(adj, v) && u != v :: m.d[u] != m.d[v] && m.f[u] != m.f[v]
  {
    hide ChildrenOk, ClockOk, NestOk, ParentOk, InnermostOk, EdgesOk;
    FinishedTime(adj, m);
    FinishedFacts(adj, m);
  }

  predicate Contains(adj: Adjacency, m: Marks, u: int, v: int) {
    Sized(adj, m) && Vertex(adj, u) && Vertex(adj, v) && m.d[u] <= m.d[v] && m.f[v] <= m.f[u]
  }

  predicate Disjoint(adj: Adjacency, m: Marks, u: int, v: int) {
    Sized(adj, m) && Vertex(adj, u) && Vertex(adj, v) && (m.f[u] < m.d[v] || m.f[v] < m.d[u])
  }

  /** Two intervals are disjoint, or one properly contains the other, and only one of these. */
  lemma Parenthesis(adj: Adjacency, m: Marks, u: int, v: int)
    requires Finished(adj, m) && Vertex(adj, u) && Vertex(adj, v) && u != v
    ensures Contains(adj, m, u, v) ==> m.d[u] < m.d[v] < m.f[v] < m.f[u]
    ensures Disjoint(adj, m, u, v) <==> !Contains(adj, m, u, v) && !Contains(adj, m, v, u)
    ensures !(Contains(adj, m, u, v) && Contains(adj, m, v, u))
  {
    assert IsBlack(m, u) && IsBlack(m, v) && Found(m, u) && Found(m, v);
    TimestampsExact(adj, m);
  }

  lemma ParentBefore(adj: Adjacency, m: Marks, v: int)
    requires Finished(adj, m) && Vertex(adj, v)
    ensures WellFormed(adj) && 0 <= m.d[v]
    ensures m.pi[v] != -1 ==>
              Vertex(adj, m.pi[v]) && Edge(adj, m.pi[v], v) && 0 <= m.d[m.pi[v]] < m.d[v] && m.f[v] < m.f[m.pi[v]]
  {
    hide ChildrenOk, DistinctOk, CoverOk, ClockOk, NestOk, InnermostOk, EdgesOk;
    assert Found(m, v);
  }

  /** `u` is `v` or an ancestor of `v` along parents. */
  ghost predicate Ancestor(adj: Adjacency, m: Marks, u: int, v: int)
    requires Finished(adj, m) && Vertex(adj, v)
    decreases m.d[v]
  {
    u == v || (ParentBefore(adj, m, v); m.pi[v] != -1 && Ancestor(adj, m, u, m.pi[v]))
  }

  lemma ContainerOfParent(adj: Adjacency, m: Marks, u: int, v: int)
    requires Finished(adj, m) && Contains(adj, m, u, v) && u != v
    ensures m.pi[v] != -1 && Vertex(adj, m.pi[v]) && m.d[u] <= m.d[m.pi[v]]
  {
    Parenthesis(adj, m, u, v);
    assert Found(m, v) && Found(m, u);
    hide ChildrenOk, StampsOk, DistinctOk, CoverOk, ClockOk, NestOk, EdgesOk;
  }

  /** Intervals nest exactly along the forest of parents. */
  lemma {:induction false} NestingIsAncestry(adj: Adjacency, m: Marks, u: int, v: int)
    requires Finished(adj, m) && Vertex(adj, u) && Vertex(adj, v)
    ensures Contains(adj, m, u, v) <==> Ancestor(adj, m, u, v)
    decreases m.d[v]
  {
    ParentBefore(adj, m, v);
    if u != v {
      Parenthesis(adj, m, u, v);
      if m.pi[v] != -1 {
        var p := m.pi[v];
        NestingIsAncestry(adj, m, u, p);
        if Contains(adj, m, u, v) && u != p {
          ContainerOfParent(adj, m, u, v);
          Parenthesis(adj, m, u, p);
        }
      } else if Contains(adj, m, u, v) {
        ContainerOfParent(adj, m, u, v);
      }
    }
  }

  /** Not yet discovered at time `t`, or discovered just then. */
  predicate WhiteAt(m: Marks, v: int, t: int)
    requires 0 <= v < |m.d|
  {
    m.d[v] >= t
  }

  /** For every vertex discovered so far, the colors the search found at that moment. */
  type Seen = map<int, seq<Color>>

  /** What was white when `u` was discovered is what is stamped from then on, or not yet at all. */
  ghost predicate SeenOk(adj: Adjacency, m: Marks, seen: Seen) {
    && Sized(adj, m)
    && forall u | Found(m, u) :: u in seen && |seen[u]| == |adj|
         && forall v | 0 <= v < |adj| :: seen[u][v] == White <==> !Found(m, v) || m.d[v] >= m.d[u]
  }

  lemma DiscoverKeepsSeen(adj: Adjacency, m: Marks, seen: Seen, u: int)
    requires Sized(adj, m) && StampsOk(adj, m) && SeenOk(adj, m, seen) && Vertex(adj, u) && m.color[u] == White
    ensures SeenOk(adj, Discover(m, u), seen[u := m.color])
  {
    var n, later := Discover(m, u), seen[u := m.color];
    assert forall v | Found(m, v) :: m.d[v] < m.time;
    forall w | Found(n, w)
      ensures w in later && |later[w]| == |adj|
      ensures forall v | 0 <= v < |adj| :: later[w][v] == White <==> !Found(n, v) || n.d[v] >= n.d[w]
    {
      assert w != u ==> Found(m, w);
    }
  }

  lemma FinishKeepsSeen(adj: Adjacency, m: Marks, seen: Seen, u: int)
    requires SeenOk(adj, m, seen) && IsGray(m, u) && |m.f| == |m.color|
    ensures SeenOk(adj, Finish(m, u), seen)
  {
    assert forall v :: Found(Finish(m, u), v) <==> Found(m, v);
  }

  /** Once everything is found, the stamps tell the colors of every moment of discovery. */
  lemma ColorsFromStamps(adj: Adjacency, m: Marks, seen: Seen, u: int, v: int)
    requires Finished(adj, m) && SeenOk(adj, m, seen) && Vertex(adj, u) && Vertex(adj, v)
    ensures Sized(adj, m) && u in seen && |seen[u]| == |adj|
    ensures seen[u][v] == White <==> WhiteAt(m, v, m.d[u])
  {
    FinishedFacts(adj, m);
    hide Ok;
    assert Found(m, u) && Found(m, v);
  }

  /** A path from `u` to `v` all of whose vertices were white when `u` was discovered. */
  ghost predicate SeenWhitePath(adj: Adjacency, seen: Seen, p: seq<int>, u: int, v: int) {
    && PathFromTo(adj, p, u, v) && u in seen && |seen[u]| == |adj|
    && forall i | 0 <= i < |p| :: seen[u][p[i]] == White
  }

  /** The same read off the stamps. */
  ghost predicate WhitePath(adj: Adjacency, m: Marks, p: seq<int>, u: int, v: int) {
    && Sized(adj, m) && PathFromTo(adj, p, u, v)
    && forall i | 0 <= i < |p| :: WhiteAt(m, p[i], m.d[u])
  }

  /** An edge from inside the interval of `u` to a vertex white at its start stays inside. */
  lemma EdgeStaysInside(adj: Adjacency, m: Marks, u: int, v: int, w: int)
    requires Finished(adj, m) && Contains(adj, m, u, v) && Edge(adj, v, w) && Vertex(adj, w)
    requires m.d[u] <= m.d[w]
    ensures Contains(adj, m, u, w)
  {
    var k :| 0 <= k < |adj[v]| && adj[v][k] == w;
    assert IsBlack(m, v);
    assert m.d[w] < m.f[v];
    if u != w {
      Parenthesis(adj, m, u, w);
    }
  }

  lemma {:induction false} WhitePathInside(adj: Adjacency, m: Marks, p: seq<int>, u: int, v: int)
    requires Finished(adj, m) && WhitePath(adj, m, p, u, v)
    ensures Contains(adj, m, u, v)
    decreases |p|
  {
    hide Finished;
    if |p| > 1 {
      var q := p[..|p| - 1];
      var w := q[|q| - 1];
      assert Edge(adj, p[|p| - 2], p[|p| - 1]);
      WhitePathInside(adj, m, q, u, w);
      EdgeStaysInside(adj, m, u, w, v);
    }
  }

  lemma {:induction false} AncestorPath(adj: Adjacency, m: Marks, u: int, v: int) returns (p: seq<int>)
    requires Finished(adj, m) && Vertex(adj, u) && Vertex(adj, v) && Ancestor(adj, m, u, v)
    ensures WhitePath(adj, m, p, u, v)
    decreases m.d[v]
  {
    hide Ok;
    NestingIsAncestry(adj, m, u, v);
    if u == v {
      p := [u];
    } else {
      ParentBefore(adj, m, v);
      p := AncestorPath(adj, m, u, m.pi[v]);
      ExtendPath(adj, p, u, m.pi[v], v);
      p := p + [v];
    }
  }

  /** White-path theorem. */
  lemma WhitePathTheorem(adj: Adjacency, m: Marks, u: int, v: int)
    requires Finished(adj, m) && Vertex(adj, u) && Vertex(adj, v)
    ensures Ancestor(adj, m, u, v) <==> exists p :: WhitePath(adj, m, p, u, v)
  {
    if Ancestor(adj, m, u, v) {
      var p := AncestorPath(adj, m, u, v);
    }
    if p :| WhitePath(adj, m, p, u, v) {
      WhitePathInside(adj, m, p, u, v);
      NestingIsAncestry(adj, m, u, v);
    }
  }

  /** White-path theorem for the colors the search saw. */
  lemma SeenWhitePathTheorem(adj: Adjacency, m: Marks, seen: Seen, u: int, v: int)
    requires Finished(adj, m) && SeenOk(adj, m, seen) && Vertex(adj, u) && Vertex(adj, v)
    ensures Ancestor(adj, m, u, v) <==> exists p :: SeenWhitePath(adj, seen, p, u, v)
  {
    hide ChildrenOk, Finished, SeenOk, Ancestor;
    WhitePathTheorem(adj, m, u, v);
    ColorsFromStamps(adj, m, seen, u, v);
    if p :| WhitePath(adj, m, p, u, v) {
      forall i | 0 <= i < |p| ensures seen[u][p[i]] == White { ColorsFromStamps(adj, m, seen, u, p[i]); }
      assert SeenWhitePath(adj, seen, p, u, v);
    }
    if p :| SeenWhitePath(adj, seen, p, u, v) {
      forall i | 0 <= i < |p| ensures WhiteAt(m, p[i], m.d[u]) { ColorsFromStamps(adj, m, seen, u, p[i]); }
      assert WhitePath(adj, m, p, u, v);
    }
  }

  /** The tree of the vertex discovered first holds exactly what that vertex reaches. */
  lemma FirstTreeIsReach(adj: Adjacency, m: Marks, s: int, v: int)
    requires Finished(adj, m) && Vertex(adj, s) && Vertex(adj, v) && m.d[s] == 0
    ensures Reachable(adj, s, v) <==> Ancestor(adj, m, s, v)
  {
    WhitePathTheorem(adj, m, s, v);
    if p :| PathFromTo(adj, p, s, v) {
      assert forall i | 0 <= i < |p| :: WhiteAt(m, p[i], m.d[s]) by {
        TimestampsExact(adj, m);
      }
      assert WhitePath(adj, m, p, s, v);
    }
  }

  lemma ReachSelf(adj: Adjacency, v: int)
    requires Vertex(adj, v)
    ensures Reachable(adj, v, v)
  {
    assert PathFromTo(adj, [v], v, v);
  }

  lemma ReachFurther(adj: Adjacency, r: int, u: int, v: int)
    requires WellFormed(adj) && Reachable(adj, r, u) && Edge(adj, u, v)
    ensures Reachable(adj, r, v)
  {
    var p :| PathFromTo(adj, p, r, u);
    ExtendPath(adj, p, r, u, v);
  }

  lemma {:induction false} RootOf(adj: Adjacency, m: Marks, v: int) returns (r: int)
    requires Finished(adj, m) && Vertex(adj, v)
    ensures Sized(adj, m) && Vertex(adj, r) && m.pi[r] == -1
    ensures Ancestor(adj, m, r, v) && m.d[r] <= m.d[v] && Reachable(adj, r, v)
    decreases m.d[v]
  {
    FinishedFacts(adj, m);
    ParentBefore(adj, m, v);
    hide Ok, IsPath, WellFormed;
    if m.pi[v] == -1 {
      r := v;
      ReachSelf(adj, v);
    } else {
      hide Reachable;
      r := RootOf(adj, m, m.pi[v]);
      ReachFurther(adj, r, m.pi[v], v);
    }
  }

  lemma ReachTransitive(adj: Adjacency, u: int, v: int, w: int)
    requires Reachable(adj, u, v) && Reachable(adj, v, w)
    ensures Reachable(adj, u, w)
  {
    var p :| PathFromTo(adj, p, u, v);
    var q :| PathFromTo(adj, q, v, w);
    JoinPaths(adj, p, q, u, v, w);
  }

  /** `r` is the first vertex, in the order roots are taken, that reaches `v`. */
  ghost predicate FirstToReach(adj: Adjacency, s: int, r: int, v: int) {
    Reachable(adj, r, v) && forall w | Vertex(adj, w) && Earlier(s, w, r) :: !Reachable(adj, w, v)
  }

  lemma EarlierTotal(s: int, u: int, v: int)
    ensures u == v || Earlier(s, u, v) || Earlier(s, v, u)
  {
  }

  lemma EarlierRoot(adj: Adjacency, m: Marks, s: int, r: int, x: int, v: int)
    requires Finished(adj, m) && Sized(adj, m) && Rooted(m, s) && Vertex(adj, r) && Vertex(adj, x)
    requires FirstToReach(adj, s, r, v) && Reachable(adj, x, v) && m.d[x] <= m.d[r]
    ensures x == r && m.pi[r] == -1
  {
    FinishedFacts(adj, m);
    var y := RootOf(adj, m, x);
    hide Finished, Ancestor;
    ReachTransitive(adj, y, x, v);
    EarlierTotal(s, r, y);
  }

  lemma FirstIsRoot(adj: Adjacency, m: Marks, s: int, r: int, v: int)
    requires Finished(adj, m) && Sized(adj, m) && Rooted(m, s) && Vertex(adj, r) && Vertex(adj, v)
    requires FirstToReach(adj, s, r, v)
    ensures m.pi[r] == -1 && Ancestor(adj, m, r, v)
  {
    hide Finished, Ancestor, Rooted;
    EarlierRoot(adj, m, s, r, r, v);
    var p :| PathFromTo(adj, p, r, v);
    forall i | 0 <= i < |p|
      ensures m.d[p[i]] >= m.d[r]
    {
      assert PathFromTo(adj, p[i..], p[i], v);
      if m.d[p[i]] < m.d[r] { EarlierRoot(adj, m, s, r, p[i], v); }
    }
    assert WhitePath(adj, m, p, r, v);
    WhitePathTheorem(adj, m, r, v);
  }

  lemma OneRoot(adj: Adjacency, m: Marks, q: int, r: int, v: int)
    requires Finished(adj, m) && Sized(adj, m) && Vertex(adj, q) && Vertex(adj, r) && Vertex(adj, v)
    requires m.pi[q] == -1 && m.pi[r] == -1 && Ancestor(adj, m, q, v) && Ancestor(adj, m, r, v)
    ensures q == r
    decreases m.d[v]
  {
    ParentBefore(adj, m, v);
    if q != v && r != v {
      OneRoot(adj, m, q, r, m.pi[v]);
    }
  }

  lemma {:induction false} FirstReacher(adj: Adjacency, s: int, r: int, v: int) returns (w: int)
    requires Vertex(adj, s) && Vertex(adj, r) && Reachable(adj, r, v)
    ensures Vertex(adj, w) && FirstToReach(adj, s, w, v) && (w == r || Earlier(s, w, r))
    decreases if r == s then -1 else r
  {
    if x :| Vertex(adj, x) && Earlier(s, x, r) && Reachable(adj, x, v) {
      w := FirstReacher(adj, s, x, v);
    } else {
      w := r;
    }
  }

  /** Which tree a vertex belongs to: the root above `v` is exactly the first vertex, in the
      order roots are taken, that reaches `v`. */
  lemma TreeOfFirstReacher(adj: Adjacency, m: Marks, s: int, r: int, v: int)
    requires Finished(adj, m) && Sized(adj, m) && Rooted(m, s)
    requires Vertex(adj, s) && Vertex(adj, r) && Vertex(adj, v)
    ensures m.pi[r] == -1 && Ancestor(adj, m, r, v) <==> FirstToReach(adj, s, r, v)
  {
    hide Finished, Ancestor, Rooted, FirstToReach;
    if FirstToReach(adj, s, r, v) {
      FirstIsRoot(adj, m, s, r, v);
    }
    if m.pi[r] == -1 && Ancestor(adj, m, r, v) {
      var p := AncestorPath(adj, m, r, v);
      var w := FirstReacher(adj, s, r, v);
      FirstIsRoot(adj, m, s, w, v);
      OneRoot(adj, m, w, r, v);
    }
  }

  /** A walk of at least one edge that returns to its start. */
  ghost predicate Cycle(adj: Adjacency, p: seq<int>) {
    IsPath(adj, p) && |p| >= 2 && p[0] == p[|p| - 1]
  }

  ghost predicate Cyclic(adj: Adjacency) { exists p :: Cycle(adj, p) }

  /** An edge to an ancestor or to the vertex itself, read off the stamps. */
  ghost predicate BackEdge(adj: Adjacency, m: Marks, u: int, v: int) {
    Sized(adj, m) && Edge(adj, u, v) && Contains(adj, m, v, u)
  }

  /** From the earliest vertex of a cycle, the walk around it never leaves its interval. */
  lemma {:induction false} CycleInside(adj: Adjacency, m: Marks, p: seq<int>, lo: nat, hi: nat, u: int)
    requires Finished(adj, m) && IsPath(adj, p) && lo <= hi < |p|
    requires Contains(adj, m, u, p[lo])
    requires forall i | 0 <= i < |p| :: m.d[u] <= m.d[p[i]]
    ensures Contains(adj, m, u, p[hi])
    decreases hi
  {
    hide Finished;
    if lo < hi {
      CycleInside(adj, m, p, lo, hi - 1, u);
      assert Edge(adj, p[hi - 1], p[hi - 1 + 1]);
      EdgeStaysInside(adj, m, u, p[hi - 1], p[hi]);
    }
  }

  lemma {:induction false} Earliest(m: Marks, p: seq<int>, n: nat) returns (j: nat)
    requires 0 < n <= |p| && forall i | 0 <= i < |p| :: 0 <= p[i] < |m.d|
    ensures j < n && forall i | 0 <= i < n :: m.d[p[j]] <= m.d[p[i]]
  {
    j := 0;
    for k := 1 to n
      invariant j < n && forall i | 0 <= i < k :: m.d[p[j]] <= m.d[p[i]]
    {
      if m.d[p[k]] < m.d[p[j]] { j := k; }
    }
  }

  lemma CycleHasBackEdge(adj: Adjacency, m: Marks, p: seq<int>)
    requires Finished(adj, m) && Cycle(adj, p)
    ensures exists u, v :: BackEdge(adj, m, u, v)
  {
    var j := Earliest(m, p, |p|);
    var v := p[j];
    CycleInside(adj, m, p, j, |p| - 1, v);
    var before := if j == 0 then |p| - 2 else j - 1;
    CycleInside(adj, m, p, 0, before, v);
    if j == 0 {
      assert Edge(adj, p[|p| - 2], p[|p| - 2 + 1]);
    } else {
      assert Edge(adj, p[j - 1], p[j - 1 + 1]);
    }
    assert BackEdge(adj, m, p[before], v);
  }

  lemma BackEdgeMakesCycle(adj: Adjacency, m: Marks, u: int, v: int)
    requires Finished(adj, m) && BackEdge(adj, m, u, v)
    ensures Cyclic(adj)
  {
    NestingIsAncestry(adj, m, v, u);
    var p := AncestorPath(adj, m, v, u);
    ExtendPath(adj, p, v, u, v);
    assert Cycle(adj, p + [v]);
  }

  /** The graph has a cycle exactly when the marks show a back edge. */
  lemma CycleIffBackEdge(adj: Adjacency, m: Marks)
    requires Finished(adj, m)
    ensures Cyclic(adj) <==> exists u, v :: BackEdge(adj, m, u, v)
  {
    if p :| Cycle(adj, p) {
      CycleHasBackEdge(adj, m, p);
    }
    if u, v :| BackEdge(adj, m, u, v) {
      BackEdgeMakesCycle(adj, m, u, v);
    }
  }

  lemma ForwardEdge(adj: Adjacency, m: Marks, u: int, v: int)
    requires Finished(adj, m) && Edge(adj, u, v)
    ensures Vertex(adj, v)
    ensures BackEdge(adj, m, u, v) <==> m.f[u] <= m.f[v]
  {
    EdgeTarget(adj, u, v);
    var k :| 0 <= k < |adj[u]| && adj[u][k] == v;
    assert IsBlack(m, u);
    assert m.d[v] < m.f[u];
    if u != v {
      Parenthesis(adj, m, u, v);
    }
  }

  /** Without cycles, and only then, descending finishing times order the graph topologically. */
  lemma TopologicalOrder(adj: Adjacency, m: Marks)
    requires Finished(adj, m)
    ensures !Cyclic(adj) <==> forall u, v | Edge(adj, u, v) :: Vertex(adj, v) && m.f[u] > m.f[v]
  {
    CycleIffBackEdge(adj, m);
    forall u, v | Edge(adj, u, v)
      ensures Vertex(adj, v)
      ensures BackEdge(adj, m, u, v) <==> m.f[u] <= m.f[v]
    {
      ForwardEdge(adj, m, u, v);
    }
  }

  // ---------------------------------------------------------------------------
  // The marks are determined by the graph and the start
  // ---------------------------------------------------------------------------

  /** What a list holds before a child was discovered before it. */
  lemma ChildrenInOrder(adj: Adjacency, m: Marks, u: int, i: nat, j: nat)
    requires Finished(adj, m) && Vertex(adj, u) && i < j < |adj[u]| && adj[u][j] !in adj[u][..j]
    ensures WellFormed(adj) && Sized(adj, m)
    ensures m.pi[adj[u][j]] == u ==> m.d[adj[u][i]] < m.d[adj[u][j]]
  {
    var v := adj[u][j];
    FinishedFacts(adj, m);
    hide StampsOk, DistinctOk, CoverOk, ClockOk, NestOk, ParentOk, InnermostOk, EdgesOk;
    assert forall k | 0 <= k <= i :: adj[u][k] == adj[u][..j][k] != v;
    assert Precedes(adj[u], adj[u][i], v);
    assert Found(m, v);
  }

  /** `u` has been discovered before `t` and is not finished before `t`. */
  predicate Open(adj: Adjacency, m: Marks, u: int, t: int) {
    Sized(adj, m) && Vertex(adj, u) && m.d[u] < t <= m.f[u]
  }

  /** `u` is the open vertex discovered last. */
  ghost predicate Deepest(adj: Adjacency, m: Marks, u: int, t: int) {
    Open(adj, m, u, t) && forall x | Open(adj, m, x, t) :: m.d[x] <= m.d[u]
  }

  /** What happens at `t`: `v` is discovered or finished. */
  predicate Happens(adj: Adjacency, m: Marks, v: int, finish: bool, t: int) {
    Sized(adj, m) && Vertex(adj, v) && (if finish then m.f[v] else m.d[v]) == t
  }

  /** Two finished searches have done the same before `t`. */
  ghost predicate Alike(adj: Adjacency, m: Marks, n: Marks, t: int) {
    && Sized(adj, m) && Sized(adj, n)
    && forall v | Vertex(adj, v) ::
        && (m.d[v] < t || n.d[v] < t ==> m.d[v] == n.d[v] && m.pi[v] == n.pi[v])
        && (m.f[v] < t || n.f[v] < t ==> m.f[v] == n.f[v])
  }

  /** A vertex finishes as the deepest open one, all its targets discovered. */
  lemma FinishEvent(adj: Adjacency, m: Marks, u: int, t: int)
    requires Finished(adj, m) && Happens(adj, m, u, true, t)
    ensures Deepest(adj, m, u, t)
    ensures forall w | Edge(adj, u, w) :: Vertex(adj, w) && m.d[w] < t
  {
    FinishedFacts(adj, m);
    hide CoverOk, ClockOk, ParentOk, InnermostOk, ChildrenOk;
    forall x | Open(adj, m, x, t)
      ensures m.d[x] <= m.d[u]
    {
      assert IsBlack(m, u) && Found(m, x);
    }
    forall w | Edge(adj, u, w)
      ensures Vertex(adj, w) && m.d[w] < t
    {
      var k :| 0 <= k < |adj[u]| && adj[u][k] == w;
      assert IsBlack(m, u);
    }
  }

  /** A child is discovered below the deepest open vertex, as the first target not yet discovered. */
  lemma ChildEvent(adj: Adjacency, m: Marks, v: int, t: int)
    requires Finished(adj, m) && Happens(adj, m, v, false, t) && m.pi[v] != -1
    ensures Deepest(adj, m, m.pi[v], t) && Edge(adj, m.pi[v], v)
    ensures forall w | Precedes(adj[m.pi[v]], w, v) :: Vertex(adj, w) && m.d[w] < t
  {
    FinishedFacts(adj, m);
    ParentBefore(adj, m, v);
    hide CoverOk, ClockOk, NestOk, EdgesOk, ParentOk, Precedes;
    assert Found(m, v);
    forall x | Open(adj, m, x, t)
      ensures m.d[x] <= m.d[m.pi[v]]
    {
      assert Found(m, x) && IsBlack(m, x);
    }
  }

  /** A root is discovered while nothing is open, after all earlier vertices. */
  lemma RootEvent(adj: Adjacency, m: Marks, s: int, v: int, t: int)
    requires Finished(adj, m) && Happens(adj, m, v, false, t) && m.pi[v] == -1
    requires |m.pi| == |m.color| == |m.d| && Rooted(m, s)
    ensures forall x :: !Open(adj, m, x, t)
    ensures forall w | Vertex(adj, w) && Earlier(s, w, v) :: m.d[w] < t
  {
    FinishedFacts(adj, m);
    hide CoverOk, ClockOk, NestOk, EdgesOk, ParentOk, ChildrenOk, Earlier;
    assert Found(m, v) && !Found(m, -1);
    assert forall x | Open(adj, m, x, t) :: Found(m, x) && IsBlack(m, x);
  }

  lemma OpenAlike(adj: Adjacency, m: Marks, n: Marks, t: int, u: int)
    requires Alike(adj, m, n, t)
    ensures Open(adj, m, u, t) <==> Open(adj, n, u, t)
    ensures Open(adj, m, u, t) ==> m.d[u] == n.d[u]
  {
  }

  lemma SameDeepest(adj: Adjacency, m: Marks, n: Marks, t: int, u: int, x: int)
    requires Finished(adj, m) && Alike(adj, m, n, t) && Deepest(adj, m, u, t) && Deepest(adj, n, x, t)
    ensures u == x
  {
    OpenAlike(adj, m, n, t, u);
    OpenAlike(adj, m, n, t, x);
    TimestampsExact(adj, m);
    hide Finished;
  }

  /** A finish in one search and a discovery in the other cannot follow the same past. */
  lemma FinishNotDiscovery(adj: Adjacency, m: Marks, n: Marks, s: int, t: int, u: int, v: int)
    requires Finished(adj, m) && Finished(adj, n) && Alike(adj, m, n, t)
    requires |n.pi| == |n.color| == |n.d| && Rooted(n, s)
    ensures !(Happens(adj, m, u, true, t) && Happens(adj, n, v, false, t))
  {
    if Happens(adj, m, u, true, t) && Happens(adj, n, v, false, t) {
      hide Finished, Rooted, Earlier, Precedes;
      FinishEvent(adj, m, u, t);
      OpenAlike(adj, m, n, t, u);
      if n.pi[v] == -1 {
        RootEvent(adj, n, s, v, t);
      } else {
        ChildEvent(adj, n, v, t);
        SameDeepest(adj, m, n, t, u, n.pi[v]);
      }
    }
  }

  lemma SameDiscovery(adj: Adjacency, m: Marks, n: Marks, s: int, t: int, v: int, w: int)
    requires Finished(adj, m) && Finished(adj, n) && Alike(adj, m, n, t)
    requires |m.pi| == |m.color| == |m.d| && |n.pi| == |n.color| == |n.d| && Rooted(m, s) && Rooted(n, s)
    requires Happens(adj, m, v, false, t) && Happens(adj, n, w, false, t)
    ensures v == w && m.pi[v] == n.pi[v]
  {
    hide Finished, Rooted, Precedes;
    if m.pi[v] == -1 { RootEvent(adj, m, s, v, t); } else { ChildEvent(adj, m, v, t); }
    if n.pi[w] == -1 { RootEvent(adj, n, s, w, t); } else { ChildEvent(adj, n, w, t); }
    if m.pi[v] != -1 { OpenAlike(adj, m, n, t, m.pi[v]); }
    if n.pi[w] != -1 { OpenAlike(adj, m, n, t, n.pi[w]); }
    if m.pi[v] != -1 {
      SameDeepest(adj, m, n, t, m.pi[v], n.pi[w]);
      if v != w { PrecedesTotal(adj[m.pi[v]], v, w); }
    }
  }

  /** No other vertex is stamped at the same time. */
  lemma OnlyEvent(adj: Adjacency, m: Marks, v: int, finish: bool, t: int)
    requires Finished(adj, m) && Happens(adj, m, v, finish, t)
    ensures forall x | Vertex(adj, x) :: (m.d[x] == t <==> x == v && !finish) && (m.f[x] == t <==> x == v && finish)
  {
    hide Finished;
    TimestampsExact(adj, m);
  }

  lemma Advance(adj: Adjacency, m: Marks, n: Marks, t: int, v: int, finish: bool)
    requires Finished(adj, m) && Finished(adj, n) && Alike(adj, m, n, t)
    requires Happens(adj, m, v, finish, t) && Happens(adj, n, v, finish, t) && (!finish ==> m.pi[v] == n.pi[v])
    ensures Alike(adj, m, n, t + 1)
  {
    hide Finished;
    OnlyEvent(adj, m, v, finish, t);
    OnlyEvent(adj, n, v, finish, t);
  }

  lemma SomeEvent(adj: Adjacency, m: Marks, t: int) returns (v: int, finish: bool)
    requires Finished(adj, m) && 0 <= t < 2 * |adj|
    ensures Happens(adj, m, v, finish, t)
  {
    TimestampsExact(adj, m);
    FinishedFacts(adj, m);
    hide Finished;
    assert Stamped(adj, m, t);
    v :| 0 <= v < |adj| && (m.d[v] == t || m.f[v] == t);
    finish := m.f[v] == t;
  }

  lemma AlikeTurned(adj: Adjacency, m: Marks, n: Marks, t: int)
    requires Alike(adj, m, n, t)
    ensures Alike(adj, n, m, t)
  {
  }

  lemma AlikeNext(adj: Adjacency, m: Marks, n: Marks, s: int, t: int)
    requires Finished(adj, m) && Finished(adj, n) && Alike(adj, m, n, t) && 0 <= t < 2 * |adj|
    requires |m.pi| == |m.color| == |m.d| && |n.pi| == |n.color| == |n.d| && Rooted(m, s) && Rooted(n, s)
    ensures Alike(adj, m, n, t + 1)
  {
    hide *;
    var v, finish := SomeEvent(adj, m, t);
    var w, finishes := SomeEvent(adj, n, t);
    AlikeTurned(adj, m, n, t);
    FinishNotDiscovery(adj, m, n, s, t, v, w);
    FinishNotDiscovery(adj, n, m, s, t, w, v);
    if finish {
      FinishEvent(adj, m, v, t);
      FinishEvent(adj, n, w, t);
      SameDeepest(adj, m, n, t, v, w);
    } else {
      SameDiscovery(adj, m, n, s, t, v, w);
    }
    Advance(adj, m, n, t, v, finish);
  }

  lemma AlikeFirst(adj: Adjacency, m: Marks, n: Marks)
    requires Finished(adj, m) && Finished(adj, n)
    ensures Alike(adj, m, n, 0)
  {
    hide Finished;
    TimestampsExact(adj, m);
    TimestampsExact(adj, n);
    FinishedFacts(adj, m);
    FinishedFacts(adj, n);
  }

  lemma {:induction false} AlikeUpTo(adj: Adjacency, m: Marks, n: Marks, s: int, t: nat)
    requires Finished(adj, m) && Finished(adj, n) && t <= 2 * |adj|
    requires |m.pi| == |m.color| == |m.d| && |n.pi| == |n.color| == |n.d| && Rooted(m, s) && Rooted(n, s)
    ensures Alike(adj, m, n, t)
  {
    hide *;
    if t == 0 {
      AlikeFirst(adj, m, n);
    } else {
      AlikeUpTo(adj, m, n, s, t - 1);
      AlikeNext(adj, m, n, s, t - 1);
    }
  }

  lemma AlikeThroughout(adj: Adjacency, m: Marks, n: Marks)
    requires Finished(adj, m) && Finished(adj, n) && Alike(adj, m, n, 2 * |adj|)
    ensures m == n
  {
    hide Finished;
    TimestampsExact(adj, m);
    TimestampsExact(adj, n);
    FinishedFacts(adj, m);
    FinishedFacts(adj, n);
    assert forall v | 0 <= v < |adj| :: Vertex(adj, v);
    forall v | 0 <= v < |adj| ensures m.color[v] == n.color[v] {
      assert IsBlack(m, v) && IsBlack(n, v);
    }
    assert m.d == n.d && m.f == n.f && m.pi == n.pi;
  }

  /** Two finished searches of one graph that take their roots in the same order leave the same marks: the
      order of the lists and of the vertices leaves nothing open. */
  lemma SearchDetermined(adj: Adjacency, m: Marks, n: Marks, s: int)
    requires Finished(adj, m) && Finished(adj, n)
    requires |m.pi| == |m.color| == |m.d| && |n.pi| == |n.color| == |n.d| && Rooted(m, s) && Rooted(n, s)
    ensures m == n
  {
    hide *;
    AlikeUpTo(adj, m, n, s, 2 * |adj|);
    AlikeThroughout(adj, m, n);
  }
}

/** Depth-first search over the adjacency lists of a graph. */
module Dfs {
  import opened Paths
  import opened Graphs
  import opened DfsTheory
  import opened Results

  /** Everything found before stays as it was, nothing else is open, and whatever is new was discovered since. */
  ghost predicate Settled(adj: Adjacency, before: Marks, after: Marks) {
    && Sized(adj, before) && Sized(adj, after) && before.time <= after.time
    && (forall v | Found(before, v) ::
          after.color[v] == before.color[v] && after.d[v] == before.d[v]
          && after.f[v] == before.f[v] && after.pi[v] == before.pi[v])
    && (forall v | IsGray(after, v) :: IsGray(before, v))
    && (forall v | Found(after, v) && !Found(before, v) :: after.d[v] >= before.time)
  }

  /** Undiscovered vertices other than `u` have no parent. */
  ghost predicate Orphans(m: Marks, u: int) {
    |m.pi| == |m.color| && forall v | 0 <= v < |m.color| && m.color[v] == White && v != u :: m.pi[v] == -1
  }

  ghost function WhiteSet(m: Marks): set<int> { set v | 0 <= v < |m.color| && m.color[v] == White }

  function Adopt(m: Marks, u: int, v: int): Marks
    requires 0 <= v < |m.pi|
  {
    Marks(m.time, m.pi[v := u], m.color, m.d, m.f)
  }

  /** What has been found since has a parent, except `u`, whose parent stays. */
  ghost predicate OneTree(before: Marks, after: Marks, u: int) {
    && |before.pi| == |before.color| == |after.pi| == |after.color|
    && (0 <= u < |after.pi| ==> after.pi[u] == before.pi[u])
    && forall v | Found(after, v) && !Found(before, v) && v != u :: after.pi[v] != -1
  }

  lemma AdoptKeepsStamps(adj: Adjacency, m: Marks, u: int, v: int)
    requires Sized(adj, m) && Vertex(adj, v) && StampsOk(adj, m) && DistinctOk(adj, m) && ClockOk(m)
    ensures
      var n := Adopt(m, u, v);
      StampsOk(adj, n) && DistinctOk(adj, n) && ClockOk(n)
  {
    var n := Adopt(m, u, v);
    assert FoundSet(n) == FoundSet(m) && BlackSet(n) == BlackSet(m);
    assert forall w :: (Found(n, w) <==> Found(m, w)) && (IsBlack(n, w) <==> IsBlack(m, w));
  }

  lemma AdoptKeepsCover(adj: Adjacency, m: Marks, u: int, v: int)
    requires Sized(adj, m) && Vertex(adj, v) && CoverOk(adj, m)
    ensures CoverOk(adj, Adopt(m, u, v))
  {
    var n := Adopt(m, u, v);
    forall t | 0 <= t < n.time
      ensures Stamped(adj, n, t)
    {
      assert Stamped(adj, m, t);
      var w :| 0 <= w < |adj| && (m.d[w] == t || m.f[w] == t);
      assert n.d[w] == t || n.f[w] == t;
    }
  }

  lemma AdoptKeepsNest(adj: Adjacency, m: Marks, u: int, v: int)
    requires WellFormed(adj) && Sized(adj, m) && Vertex(adj, v) && NestOk(adj, m) && EdgesOk(adj, m)
    ensures NestOk(adj, Adopt(m, u, v)) && EdgesOk(adj, Adopt(m, u, v))
  {
    var n := Adopt(m, u, v);
    assert forall w :: (Found(n, w) <==> Found(m, w)) && (IsBlack(n, w) <==> IsBlack(m, w));
  }

  lemma AdoptKeepsParents(adj: Adjacency, m: Marks, u: int, v: int)
    requires Sized(adj, m) && Vertex(adj, v) && m.color[v] == White && ParentOk(adj, m)
    ensures ParentOk(adj, Adopt(m, u, v))
  {
    var n := Adopt(m, u, v);
    forall w | Found(n, w) && n.pi[w] != -1
      ensures Found(n, n.pi[w]) && Edge(adj, n.pi[w], w) && n.d[n.pi[w]] < n.d[w]
      ensures n.color[n.pi[w]] == Gray || (n.color[w] == Black && n.f[w] < n.f[n.pi[w]])
    {
      assert Found(m, w) && w != v;
    }
  }

  lemma AdoptKeepsInnermost(adj: Adjacency, m: Marks, u: int, v: int)
    requires Sized(adj, m) && Vertex(adj, v) && m.color[v] == White && InnermostOk(adj, m)
    ensures InnermostOk(adj, Adopt(m, u, v))
  {
    var n := Adopt(m, u, v);
    forall x, w | Found(n, x) && Found(n, w) && n.d[w] < n.d[x] && (n.color[w] == Gray || n.d[x] < n.f[w])
      ensures Found(n, n.pi[x]) && n.d[w] <= n.d[n.pi[x]]
    {
      assert Found(m, x) && Found(m, w) && x != v;
    }
  }

  lemma AdoptKeepsChildren(adj: Adjacency, m: Marks, u: int, v: int)
    requires Sized(adj, m) && Vertex(adj, v) && m.color[v] == White && ChildrenOk(adj, m)
    ensures ChildrenOk(adj, Adopt(m, u, v))
  {
    hide Precedes;
    var n := Adopt(m, u, v);
    forall x, w | Found(n, x) && Vertex(adj, n.pi[x]) && Precedes(adj[n.pi[x]], w, x)
      ensures Found(n, w) && n.d[w] < n.d[x]
    {
      assert Found(m, x) && x != v;
      assert Found(m, w) && m.d[w] < m.d[x];
    }
  }

  /** Giving a white vertex its parent makes it enterable. */
  lemma AdoptStep(adj: Adjacency, m: Marks, u: int, v: int)
    requires Ok(adj, m) && Innermost(m, u) && Orphans(m, -1)
    requires Vertex(adj, v) && m.color[v] == White && Edge(adj, u, v) && forall w | Precedes(adj[u], w, v) :: Found(m, w)
    ensures |m.pi| == |m.color| == |adj|
    ensures Ok(adj, Adopt(m, u, v)) && Enterable(adj, Adopt(m, u, v), v) && Orphans(Adopt(m, u, v), v)
    ensures Settled(adj, m, Adopt(m, u, v)) && WhiteSet(Adopt(m, u, v)) == WhiteSet(m)
  {
    hide StampsOk, DistinctOk, CoverOk, ClockOk, NestOk, ParentOk, InnermostOk, EdgesOk, ChildrenOk;
    var n := Adopt(m, u, v);
    AdoptKeepsStamps(adj, m, u, v);
    AdoptKeepsCover(adj, m, u, v);
    AdoptKeepsNest(adj, m, u, v);
    AdoptKeepsParents(adj, m, u, v);
    AdoptKeepsInnermost(adj, m, u, v);
    AdoptKeepsChildren(adj, m, u, v);
    hide Precedes;
    assert forall w :: (IsGray(n, w) <==> IsGray(m, w)) && (Found(n, w) <==> Found(m, w));
  }

  lemma AdoptKeepsSeen(adj: Adjacency, m: Marks, seen: Seen, u: int, v: int)
    requires SeenOk(adj, m, seen) && Vertex(adj, v)
    ensures SeenOk(adj, Adopt(m, u, v), seen)
  {
    assert forall w :: Found(Adopt(m, u, v), w) <==> Found(m, w);
  }

  /** While `u` is being visited: the invariant holds, `u` is innermost and white vertices have no parent. */
  ghost predicate Inside(adj: Adjacency, m: Marks, seen: Seen, u: int) {
    Ok(adj, m) && Vertex(adj, u) && Innermost(m, u) && Orphans(m, -1) && SeenOk(adj, m, seen)
  }

  lemma InsideAgain(adj: Adjacency, m: Marks, seen: Seen, u: int)
    requires Ok(adj, m) && Vertex(adj, u) && Innermost(m, u) && Orphans(m, -1) && SeenOk(adj, m, seen)
    ensures Inside(adj, m, seen, u)
  {
  }

  lemma InsideSizes(adj: Adjacency, m: Marks, seen: Seen, u: int)
    requires Inside(adj, m, seen, u)
    ensures Ok(adj, m) && Innermost(m, u) && Orphans(m, -1) && SeenOk(adj, m, seen)
    ensures |m.pi| == |m.color| == |m.d| == |m.f| == |adj| && 0 <= u < |adj|
    ensures forall k | 0 <= k < |adj[u]| :: Vertex(adj, adj[u][k]) && Edge(adj, u, adj[u][k])
  {
    hide StampsOk, DistinctOk, CoverOk, ClockOk, NestOk, ParentOk, InnermostOk, EdgesOk, ChildrenOk, SeenOk;
  }

  lemma SettledTransitive(adj: Adjacency, m: Marks, n: Marks, o: Marks)
    requires Settled(adj, m, n) && Settled(adj, n, o)
    ensures Settled(adj, m, o)
  {
    forall v | Found(m, v)
      ensures Found(n, v)
    {
    }
  }

  /** From one moment inside a visit to a later one. */
  ghost predicate Progress(adj: Adjacency, before: Marks, after: Marks) {
    Settled(adj, before, after) && OneTree(before, after, -1) && WhiteSet(after) <= WhiteSet(before)
  }

  lemma NoProgress(adj: Adjacency, m: Marks, seen: Seen, u: int)
    requires Inside(adj, m, seen, u)
    ensures Progress(adj, m, m)
  {
    hide ChildrenOk, DistinctOk, CoverOk, ClockOk, NestOk, ParentOk, InnermostOk, EdgesOk, SeenOk;
  }

  /** A visit below `u` adds a subtree. */
  lemma Grown(adj: Adjacency, m: Marks, n: Marks, u: int, v: int)
    requires Vertex(adj, u) && Vertex(adj, v) && Sized(adj, m) && Settled(adj, m, Adopt(m, u, v)) && WhiteSet(Adopt(m, u, v)) == WhiteSet(m)
    requires Settled(adj, Adopt(m, u, v), n) && OneTree(Adopt(m, u, v), n, v) && WhiteSet(n) < WhiteSet(Adopt(m, u, v))
    requires IsBlack(n, v)
    ensures Progress(adj, m, n) && Found(n, v) && Settled(adj, m, n)
  {
    var p := Adopt(m, u, v);
    SettledTransitive(adj, m, p, n);
    forall w | Found(n, w) && !Found(m, w)
      ensures n.pi[w] != -1
    {
      assert Found(p, w) <==> Found(m, w);
    }
  }

  lemma ProgressShrinks(adj: Adjacency, m: Marks, n: Marks)
    requires Progress(adj, m, n)
    ensures WhiteSet(n) <= WhiteSet(m)
  {
  }

  lemma ProgressTransitive(adj: Adjacency, m: Marks, n: Marks, o: Marks)
    requires Progress(adj, m, n) && Progress(adj, n, o)
    ensures Progress(adj, m, o)
  {
    SettledTransitive(adj, m, n, o);
    forall w | Found(o, w) && !Found(m, w)
      ensures o.pi[w] != -1
    {
      if Found(n, w) { assert o.pi[w] == n.pi[w]; }
    }
  }

  lemma StillFound(adj: Adjacency, m: Marks, n: Marks, targets: seq<int>, k: nat)
    requires Progress(adj, m, n) && k <= |targets|
    requires forall j | 0 <= j < k :: Found(m, targets[j])
    ensures forall j | 0 <= j < k :: Found(n, targets[j])
  {
  }

  /** What a list holds before the target at `k` is found once the earlier targets are. */
  lemma EarlierTargets(m: Marks, targets: seq<int>, k: nat)
    requires k < |targets| && forall j | 0 <= j < k :: Found(m, targets[j])
    ensures forall w | Precedes(targets, w, targets[k]) :: Found(m, w)
  {
    forall w | Precedes(targets, w, targets[k])
      ensures Found(m, w)
    {
      var i :| 0 <= i < |targets| && targets[i] == w && forall j | 0 <= j <= i :: targets[j] != targets[k];
      assert i < k;
    }
  }

  lemma StillInnermost(adj: Adjacency, m: Marks, n: Marks, u: int)
    requires Settled(adj, m, n) && Innermost(m, u)
    ensures Innermost(n, u)
  {
    assert Found(m, u);
    forall w | IsGray(n, w)
      ensures n.d[w] <= n.d[u]
    {
      assert IsGray(m, w) && Found(m, w);
    }
  }

  lemma StartBelow(adj: Adjacency, m: Marks, u: int)
    requires Ok(adj, m) && Enterable(adj, m, u) && Orphans(m, u)
    ensures Vertex(adj, u) && Sized(adj, m) && m.color[u] == White
    ensures Orphans(Discover(m, u), -1) && Settled(adj, Discover(m, u), Discover(m, u))
    ensures WhiteSet(Discover(m, u)) < WhiteSet(m)
  {
    hide StampsOk, DistinctOk, CoverOk, ClockOk, NestOk, ParentOk, InnermostOk, EdgesOk, ChildrenOk;
    assert u in WhiteSet(m) && u !in WhiteSet(Discover(m, u));
  }

  /** Discovery, the visits below, and the finish of `u`, seen from before. */
  lemma VisitMeaning(adj: Adjacency, m: Marks, u: int, n: Marks)
    requires Sized(adj, m) && Vertex(adj, u) && m.color[u] == White
    requires Progress(adj, Discover(m, u), n) && Orphans(n, -1)
    ensures 0 <= u < |n.color| == |n.f| && |n.color| == |n.d|
    ensures Settled(adj, m, Finish(n, u)) && Orphans(Finish(n, u), -1)
    ensures IsBlack(Finish(n, u), u) && Finish(n, u).d[u] == m.time
    ensures WhiteSet(Finish(n, u)) < WhiteSet(m) && OneTree(m, Finish(n, u), u)
  {
    var p, q := Discover(m, u), Finish(n, u);
    assert Found(p, u);
    forall v | Found(m, v)
      ensures q.color[v] == m.color[v] && q.d[v] == m.d[v] && q.f[v] == m.f[v] && q.pi[v] == m.pi[v]
    {
      assert Found(p, v) && v != u;
    }
    forall v | IsGray(q, v)
      ensures IsGray(m, v)
    {
      assert IsGray(n, v) && IsGray(p, v);
    }
    forall v | Found(q, v) && !Found(m, v)
      ensures q.d[v] >= m.time && (v != u ==> q.pi[v] != -1)
    {
      assert Found(n, v);
    }
    assert u in WhiteSet(m) && u !in WhiteSet(q);
    assert WhiteSet(q) <= WhiteSet(n) && WhiteSet(p) <= WhiteSet(m);
  }

  lemma InnermostIsGray(adj: Adjacency, m: Marks, u: int)
    requires Ok(adj, m) && Innermost(m, u)
    ensures IsGray(m, u) && |m.f| == |m.color|
  {
    hide StampsOk, DistinctOk, CoverOk, ClockOk, NestOk, ParentOk, InnermostOk, EdgesOk, ChildrenOk;
  }

  /** Nothing is discovered yet. */
  ghost predicate AllWhite(m: Marks, n: nat) {
    && m.time == 0 && |m.pi| == |m.color| == |m.d| == |m.f| == n
    && forall v | 0 <= v < n :: m.color[v] == White && m.pi[v] == -1 && m.d[v] == -1 && m.f[v] == -1
  }

  /** Between visits: nothing is open, no white vertex has a parent, and roots were taken in order. */
  ghost predicate Between(adj: Adjacency, m: Marks, seen: Seen, s: int) {
    Ok(adj, m) && Orphans(m, -1) && (forall v :: !IsGray(m, v)) && SeenOk(adj, m, seen) && Rooted(m, s)
  }

  lemma StartStamps(adj: Adjacency, m: Marks)
    requires AllWhite(m, |adj|)
    ensures Sized(adj, m) && Orphans(m, -1) && m.time == 0 && StampsOk(adj, m)
  {
  }

  lemma StartsBetween(adj: Adjacency, m: Marks, seen: Seen, s: int)
    requires WellFormed(adj) && AllWhite(m, |adj|)
    ensures Between(adj, m, seen, s)
  {
    assert forall v :: !Found(m, v) && !IsBlack(m, v) && !IsGray(m, v);
    assert FoundSet(m) == {} && BlackSet(m) == {};
    hide AllWhite;
    assert StampsOk(adj, m) by { StartStamps(adj, m); }
    hide ChildrenOk, StampsOk;
  }

  lemma RootEnterable(adj: Adjacency, m: Marks, seen: Seen, s: int, u: int)
    requires Between(adj, m, seen, s) && Vertex(adj, u) && |m.color| == |adj| && m.color[u] == White
    ensures Ok(adj, m) && Enterable(adj, m, u) && Orphans(m, u) && SeenOk(adj, m, seen)
  {
    hide StampsOk, DistinctOk, CoverOk, ClockOk, NestOk, ParentOk, InnermostOk, EdgesOk, ChildrenOk, SeenOk, Rooted;
    assert forall w | Vertex(adj, w) :: !IsGray(m, w);
  }

  lemma BetweenSizes(adj: Adjacency, m: Marks, seen: Seen, s: int)
    requires Between(adj, m, seen, s)
    ensures |m.pi| == |m.color| == |m.d| == |m.f| == |adj|
  {
    hide StampsOk, DistinctOk, CoverOk, ClockOk, NestOk, ParentOk, InnermostOk, EdgesOk, ChildrenOk, SeenOk, Rooted;
  }

  /** Taking `u` as the next root keeps roots in order. */
  lemma RootedAgain(adj: Adjacency, m: Marks, n: Marks, s: int, u: int)
    requires Sized(adj, m) && StampsOk(adj, m) && Settled(adj, m, n) && OneTree(m, n, u) && Vertex(adj, u)
    requires Rooted(m, s) && n.d[u] == m.time
    requires forall w | Vertex(adj, w) && Earlier(s, w, u) :: Found(m, w)
    ensures |n.pi| == |n.color| == |n.d| && Rooted(n, s)
  {
    hide Earlier;
    forall x, w | Found(n, x) && n.pi[x] == -1 && 0 <= w < |n.color| && Earlier(s, w, x)
      ensures Found(n, w) && n.d[w] < n.d[x]
    {
      if Found(m, x) {
        assert Found(m, w);
      } else {
        assert x == u && Found(m, w) && m.d[w] < m.time;
      }
    }
  }

  /** Finished vertices stay finished, with their discovery time. */
  ghost predicate BlacksKept(adj: Adjacency, m: Marks, n: Marks) {
    && |m.color| == |n.color| == |m.d| == |n.d| == |adj|
    && forall v | IsBlack(m, v) :: IsBlack(n, v) && n.d[v] == m.d[v]
  }

  lemma BetweenAgain(adj: Adjacency, m: Marks, n: Marks, seen: Seen, s: int, u: int)
    requires Ok(adj, m) && (exists before :: Between(adj, m, before, s)) && Vertex(adj, u)
    requires Ok(adj, n) && Orphans(n, -1) && SeenOk(adj, n, seen) && Settled(adj, m, n) && OneTree(m, n, u) && n.d[u] == m.time
    requires forall w | Vertex(adj, w) && Earlier(s, w, u) :: Found(m, w)
    ensures Between(adj, n, seen, s) && BlacksKept(adj, m, n)
  {
    hide ChildrenOk, DistinctOk, CoverOk, ClockOk, NestOk, ParentOk, InnermostOk, EdgesOk, SeenOk;
    var before :| Between(adj, m, before, s);
    RootedAgain(adj, m, n, s, u);
    assert forall v | IsBlack(m, v) :: Found(m, v);
  }

  lemma AlreadyBlack(adj: Adjacency, m: Marks, seen: Seen, s: int, u: int)
    requires Between(adj, m, seen, s) && Vertex(adj, u) && |m.color| == |adj| && m.color[u] != White
    ensures IsBlack(m, u) && BlacksKept(adj, m, m)
  {
    hide StampsOk, DistinctOk, CoverOk, ClockOk, NestOk, ParentOk, InnermostOk, EdgesOk, ChildrenOk, SeenOk, Rooted;
    assert !IsGray(m, u);
  }

  ghost predicate IsBlackAt(m: Marks, v: int, t: int) {
    |m.d| == |m.color| && IsBlack(m, v) && m.d[v] == t
  }

  lemma StartFacts(adj: Adjacency, m: Marks, s: int)
    requires AllWhite(m, |adj|) && Vertex(adj, s)
    ensures 0 <= s < |m.color| == |adj| && m.color[s] == White && m.time == 0
    ensures forall w :: !Earlier(s, w, s)
  {
  }

  lemma FirstDone(adj: Adjacency, m: Marks, seen: Seen, s: int)
    requires Between(adj, m, seen, s) && IsBlack(m, s)
    ensures 0 <= s < |m.d| && IsBlackAt(m, s, m.d[s])
    ensures forall w | 0 <= w < |adj| :: Vertex(adj, w)
  {
    hide StampsOk, DistinctOk, CoverOk, ClockOk, NestOk, ParentOk, InnermostOk, EdgesOk, ChildrenOk, SeenOk, Rooted;
  }

  lemma BlackMeans(m: Marks, v: int, t: int)
    requires IsBlackAt(m, v, t)
    ensures 0 <= v < |m.d| && IsBlack(m, v) && m.d[v] == t
  {
  }

  lemma EarlierFound(adj: Adjacency, m: Marks, s: int, u: int)
    requires IsBlackAt(m, s, 0) && Vertex(adj, u) && forall w | 0 <= w < u :: IsBlack(m, w)
    ensures forall w | Vertex(adj, w) && Earlier(s, w, u) :: Found(m, w)
  {
    assert forall w | IsBlack(m, w) :: Found(m, w);
  }

  lemma StillBlack(adj: Adjacency, m: Marks, n: Marks, s: int, u: int)
    requires BlacksKept(adj, m, n) && IsBlackAt(m, s, 0) && IsBlack(n, u)
    requires forall w | 0 <= w < u :: IsBlack(m, w)
    ensures IsBlackAt(n, s, 0)
    ensures forall w | 0 <= w <= u :: IsBlack(n, w)
  {
  }

  lemma AllBlackIsFinished(adj: Adjacency, m: Marks, seen: Seen, s: int)
    requires Between(adj, m, seen, s) && forall v | 0 <= v < |adj| :: IsBlack(m, v)
    ensures Finished(adj, m) && SeenOk(adj, m, seen) && Sized(adj, m) && Rooted(m, s)
  {
    hide StampsOk, DistinctOk, CoverOk, ClockOk, NestOk, ParentOk, InnermostOk, EdgesOk, ChildrenOk, SeenOk, Rooted;
    assert forall v | Vertex(adj, v) :: IsBlack(m, v);
  }

  class Search {
    var time: int
    var pi: seq<int>
    var color: seq<Color>
    var d: seq<int>
    var f: seq<int>
    /** The colors found at each discovery. */
    ghost var seen: Seen

    ghost function State(): Marks
      reads this
    {
      Marks(time, pi, color, d, f)
    }

    lemma Fields()
      ensures State() == Marks(time, pi, color, d, f)
    {
    }

    constructor (V: nat)
      ensures AllWhite(State(), V)
    {
      seen := map[];
      time := 0;
      pi, d, f := seq(V, _ => 0), seq(V, _ => 0), seq(V, _ => 0);
      color := seq(V, _ => White);
      new;
      for u := 0 to V
        invariant time == 0 && |pi| == |color| == |d| == |f| == V
        invariant forall w | 0 <= w < u :: color[w] == White && pi[w] == -1 && d[w] == -1 && f[w] == -1
      {
        color := color[u := White];
        pi := pi[u := -1];
        d := d[u := -1];
        f := f[u := -1];
      }
    }

    method MarkDiscovered(u: int)
      requires 0 <= u < |color| == |d|
      modifies this
      ensures State() == Discover(old(State()), u) && seen == old(seen)[u := old(color)]
    {
      seen := seen[u := color];
      color := color[u := Gray];
      d := d[u := time];
      time := time + 1;
    }

    method MarkFinished(u: int)
      requires 0 <= u < |color| == |f|
      modifies this
      ensures State() == Finish(old(State()), u) && seen == old(seen)
    {
      color := color[u := Black];
      f := f[u := time];
      time := time + 1;
    }

    /** Visits `u` and everything white it leads to: the invariant is kept, `u` is
        finished, discovered at the present time, and nothing found earlier changes. */
    method Visit(adj: Adjacency, u: int)
      requires Ok(adj, State()) && Enterable(adj, State(), u) && Orphans(State(), u) && SeenOk(adj, State(), seen)
      modifies this
      ensures Ok(adj, State()) && Orphans(State(), -1) && SeenOk(adj, State(), seen)
      ensures OneTree(old(State()), State(), u)
      ensures Settled(adj, old(State()), State())
      ensures IsBlack(State(), u) && State().d[u] == old(State()).time
      ensures WhiteSet(State()) < WhiteSet(old(State()))
      decreases WhiteSet(State()), 0
    {
      ghost var m0 := State();
      DiscoverStep(adj, m0, u);
      StartBelow(adj, m0, u);
      DiscoverKeepsSeen(adj, m0, seen, u);
      Fields();
      hide *;
      MarkDiscovered(u);
      InsideAgain(adj, State(), seen, u);
      VisitTargets(adj, u);
      InsideSizes(adj, State(), seen, u);
      VisitMeaning(adj, m0, u, State());
      FinishStep(adj, State(), u);
      InnermostIsGray(adj, State(), u);
      FinishKeepsSeen(adj, State(), seen, u);
      MarkFinished(u);
    }

    /** The loop of a visit: afterwards every target of `u` is found and `u` is innermost again. */
    method VisitTargets(adj: Adjacency, u: int)
      requires Inside(adj, State(), seen, u)
      modifies this
      ensures Inside(adj, State(), seen, u) && Progress(adj, old(State()), State())
      ensures forall k | 0 <= k < |adj[u]| :: Found(State(), adj[u][k])
      decreases WhiteSet(State()), 2
    {
      hide *;
      InsideSizes(adj, State(), seen, u);
      NoProgress(adj, State(), seen, u);
      for k := 0 to |adj[u]|
        invariant Inside(adj, State(), seen, u) && Progress(adj, old(State()), State())
        invariant forall j | 0 <= j < k :: Found(State(), adj[u][j])
      {
        ghost var m := State();
        InsideSizes(adj, m, seen, u);
        ProgressShrinks(adj, old(State()), m);
        EarlierTargets(m, adj[u], k);
        VisitTarget(adj, u, adj[u][k]);
        ProgressTransitive(adj, old(State()), m, State());
        StillFound(adj, m, State(), adj[u], k);
      }
    }

    /** Visits the target of an edge if it is white. */
    method VisitTarget(adj: Adjacency, u: int, v: int)
      requires Inside(adj, State(), seen, u) && Vertex(adj, v) && Edge(adj, u, v)
      requires forall w | Precedes(adj[u], w, v) :: Found(State(), w)
      modifies this
      ensures Inside(adj, State(), seen, u) && Progress(adj, old(State()), State()) && Found(State(), v)
      decreases WhiteSet(State()), 1
    {
      ghost var m := State();
      InsideSizes(adj, m, seen, u);
      NoProgress(adj, m, seen, u);
      if color[v] == White {
        AdoptStep(adj, m, u, v);
        AdoptKeepsSeen(adj, m, seen, u, v);
        hide *;
        pi := pi[v := u];
        Fields();
        Visit(adj, v);
        Grown(adj, m, State(), u, v);
        StillInnermost(adj, m, State(), u);
        InsideAgain(adj, State(), seen, u);
      }
    }

    /** Makes `u` the root of a new tree unless it is already in one. */
    method VisitIfWhite(adj: Adjacency, s: int, u: int)
      requires Between(adj, State(), seen, s) && Vertex(adj, u)
      requires forall w | Vertex(adj, w) && Earlier(s, w, u) :: Found(State(), w)
      modifies this
      ensures Between(adj, State(), seen, s) && BlacksKept(adj, old(State()), State()) && IsBlack(State(), u)
      ensures |old(color)| == |adj| && (old(color[u]) == White ==> State().d[u] == old(time))
    {
      ghost var m := State();
      BetweenSizes(adj, m, seen, s);
      if color[u] == White {
        RootEnterable(adj, m, seen, s, u);
        Fields();
        hide *;
        Visit(adj, u);
        BetweenAgain(adj, m, State(), seen, s, u);
        Fields();
      } else {
        AlreadyBlack(adj, m, seen, s, u);
      }
    }

    /** Afterwards all is finished; the recorded colors and the order of the roots are those of this search. */
    method Run(adj: Adjacency, s: int)
      requires WellFormed(adj) && Vertex(adj, s) && AllWhite(State(), |adj|)
      modifies this
      ensures Finished(adj, State()) && State().d[s] == 0
      ensures SeenOk(adj, State(), seen) && Sized(adj, State()) && Rooted(State(), s)
    {
      hide *;
      ghost var m := State();
      StartsBetween(adj, m, seen, s);
      StartFacts(adj, m, s);
      Fields();
      VisitIfWhite(adj, s, s);
      FirstDone(adj, State(), seen, s);
      for u := 0 to |adj|
        invariant Between(adj, State(), seen, s) && IsBlackAt(State(), s, 0)
        invariant forall w | 0 <= w < u :: IsBlack(State(), w)
      {
        if u == s {
          BlackMeans(State(), s, 0);
          continue;
        }
        m := State();
        EarlierFound(adj, m, s, u);
        VisitIfWhite(adj, s, u);
        StillBlack(adj, m, State(), s, u);
      }
      AllBlackIsFinished(adj, State(), seen, s);
      BlackMeans(State(), s, 0);
    }
  }

  /** A graph has no repeated targets, so children are discovered in the order of the list. */
  lemma ListOrder(adj: Adjacency, m: Marks)
    requires Simple(adj) && Finished(adj, m)
    ensures Sized(adj, m)
    ensures forall u, i, j | Vertex(adj, u) && 0 <= i < j < |adj[u]| && m.pi[adj[u][j]] == u :: m.d[adj[u][i]] < m.d[adj[u][j]]
  {
    hide Finished;
    FinishedFacts(adj, m);
    forall u, i, j | Vertex(adj, u) && 0 <= i < j < |adj[u]| && m.pi[adj[u][j]] == u
      ensures m.d[adj[u][i]] < m.d[adj[u][j]]
    {
      ChildrenInOrder(adj, m, u, i, j);
    }
  }

  /** Every root but `s` is discovered after all smaller vertices. */
  lemma RootsAscend(adj: Adjacency, m: Marks, s: int)
    requires Finished(adj, m) && |m.pi| == |m.color| == |m.d| && Rooted(m, s)
    ensures |m.pi| == |m.d| == |adj| && forall u, w | 0 <= w < u < |adj| && u != s && m.pi[u] == -1 :: m.d[w] < m.d[u]
  {
    FinishedFacts(adj, m);
    hide Finished;
    forall u, w | 0 <= w < u < |adj| && u != s && m.pi[u] == -1 ensures m.d[w] < m.d[u] {
      assert Found(m, u) && Earlier(s, w, u);
    }
  }

  /** Visits `s` first and then every vertex still white, in ascending order. Beside the marks it
      yields, for the record, the colors found at each discovery. */
  method DepthFirstSearch(graph: Graph?, s: int) returns (r: Result<Marks>, ghost seen: Seen)
    requires graph != null ==> graph.Valid() && 0 <= s < graph.V
    ensures r.Failure? <==> graph == null
    ensures r.Success? ==> Finished(graph.adj, r.value) && r.value.d[s] == 0
    ensures r.Success? ==> SeenOk(graph.adj, r.value, seen) && Sized(graph.adj, r.value) && Rooted(r.value, s)
    ensures r.Success? ==> forall u, i, j | Vertex(graph.adj, u) && 0 <= i < j < |graph.adj[u]| && r.value.pi[graph.adj[u][j]] == u ::
      r.value.d[graph.adj[u][i]] < r.value.d[graph.adj[u][j]]
    ensures r.Success? ==> forall u, w | 0 <= w < u < graph.V && u != s && r.value.pi[u] == -1 :: r.value.d[w] < r.value.d[u]
  {
    if graph == null {
      return Failure("graph is null"), map[];
    }
    var search := new Search(graph.V);
    search.Run(graph.adj, s);
    ListOrder(graph.adj, search.State());
    RootsAscend(graph.adj, search.State(), s);
    hide Finished, SeenOk, Rooted;
    return Success(Marks(search.time, search.pi, search.color, search.d, search.f)), search.seen;
  }
}
