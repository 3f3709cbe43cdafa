/** Breadth-first search over adjacency lists, and the printing of the paths it finds. */
module Bfs {
  import opened Paths
  import opened Counting
  import opened Graphs
  import opened Results

  const INT_MAX: int := 0x7FFF_FFFF
  const INVALID_VERTEX: int := -1

  datatype Color = White | Gray | Black

  /** The vectors of a search, as one value. */
  datatype Marks = Marks(color: seq<Color>, d: seq<int>, pi: seq<int>)

  predicate Sized(adj: Adjacency, m: Marks) {
    |m.color| == |m.d| == |m.pi| == |adj|
  }

  // ---------------------------------------------------------------------------
  // The invariant of the search
  // ---------------------------------------------------------------------------

  /** The queue holds the gray vertices, once each, with `d` ascending and spread at most 1. */
  ghost predicate QueueOk(adj: Adjacency, m: Marks, queue: seq<int>)
    requires Sized(adj, m)
  {
    && (forall i | 0 <= i < |queue| :: Vertex(adj, queue[i]) && m.color[queue[i]] == Gray)
    && (forall i, j | 0 <= i < j < |queue| :: queue[i] != queue[j] && m.d[queue[i]] <= m.d[queue[j]])
    && (forall i | 0 <= i < |queue| :: m.d[queue[i]] <= m.d[queue[0]] + 1)
    && (forall v | Vertex(adj, v) && m.color[v] == Gray :: v in queue)
  }

  /** Undiscovered vertices are untouched; `s` is the root; every other discovered
      vertex hangs by an edge from a discovered parent one step nearer. */
  ghost predicate TreeOk(adj: Adjacency, s: int, m: Marks)
    requires Sized(adj, m) && Vertex(adj, s)
  {
    && m.color[s] != White && m.d[s] == 0 && m.pi[s] == INVALID_VERTEX
    && (forall v | Vertex(adj, v) && m.color[v] == White :: m.d[v] == INT_MAX && m.pi[v] == INVALID_VERTEX)
    && (forall v | Vertex(adj, v) && m.color[v] != White && v != s ::
          Vertex(adj, m.pi[v]) && m.color[m.pi[v]] != White && Edge(adj, m.pi[v], v) && m.d[v] == m.d[m.pi[v]] + 1)
    && (forall v | Vertex(adj, v) && m.color[v] != White :: m.d[v] >= 0)
  }

  /** Every edge out of a finished vertex leads to a discovered vertex at most one step further. */
  ghost predicate EdgesDone(adj: Adjacency, m: Marks, u: int, count: int)
    requires Sized(adj, m) && Vertex(adj, u) && 0 <= count <= |adj[u]| && WellFormed(adj)
  {
    forall k | 0 <= k < count :: m.color[adj[u][k]] != White && m.d[adj[u][k]] <= m.d[u] + 1
  }

  ghost predicate BlackDone(adj: Adjacency, m: Marks)
    requires Sized(adj, m) && WellFormed(adj)
  {
    forall u | Vertex(adj, u) && m.color[u] == Black :: EdgesDone(adj, m, u, |adj[u]|)
  }

  /** No discovered vertex is further than one step beyond the front of the queue,
      and finished vertices are no further than the front. */
  ghost predicate Frontier(adj: Adjacency, m: Marks, front: int)
    requires Sized(adj, m) && Vertex(adj, front)
  {
    forall v | Vertex(adj, v) ::
      (m.color[v] == Gray ==> m.d[front] <= m.d[v] <= m.d[front] + 1)
      && (m.color[v] == Black ==> m.d[v] <= m.d[front])
  }

  ghost predicate Inv(adj: Adjacency, s: int, m: Marks, queue: seq<int>) {
    && WellFormed(adj) && Vertex(adj, s) && Sized(adj, m)
    && QueueOk(adj, m, queue)
    && TreeOk(adj, s, m)
    && BlackDone(adj, m)
    && (queue != [] ==> Frontier(adj, m, queue[0]))
  }

  /** Mid-iteration: the front is being scanned and `count` of its edges are done. */
  ghost predicate Scanning(adj: Adjacency, s: int, m: Marks, queue: seq<int>, count: int) {
    && Inv(adj, s, m, queue)
    && queue != [] && 0 <= count <= |adj[queue[0]]|
    && EdgesDone(adj, m, queue[0], count)
  }

  function Discover(m: Marks, u: int, v: int): Marks
    requires |m.color| == |m.d| == |m.pi| && 0 <= u < |m.d| && 0 <= v < |m.d|
  {
    Marks(m.color[v := Gray], m.d[v := m.d[u] + 1], m.pi[v := u])
  }

  lemma DiscoverKeepsQueue(adj: Adjacency, m: Marks, queue: seq<int>, v: int)
    requires WellFormed(adj) && Sized(adj, m) && queue != [] && QueueOk(adj, m, queue)
    requires Vertex(adj, v) && m.color[v] == White
    ensures QueueOk(adj, Discover(m, queue[0], v), queue + [v])
  {
    var n, q := Discover(m, queue[0], v), queue + [v];
    assert q[0] == queue[0] && m.color[queue[0]] == Gray;
    forall i | 0 <= i < |q|
      ensures Vertex(adj, q[i]) && n.color[q[i]] == Gray && n.d[q[i]] <= n.d[q[0]] + 1
    {
      assert i < |queue| ==> q[i] == queue[i];
    }
    forall i, j | 0 <= i < j < |q|
      ensures q[i] != q[j] && n.d[q[i]] <= n.d[q[j]]
    {
      assert q[i] == queue[i] && m.color[queue[i]] == Gray;
      assert j < |queue| ==> q[j] == queue[j];
    }
    forall w | Vertex(adj, w) && n.color[w] == Gray
      ensures w in q
    {
      assert w == q[|queue|] || w in queue;
    }
  }

  lemma DiscoverKeepsTree(adj: Adjacency, s: int, m: Marks, u: int, v: int)
    requires Sized(adj, m) && Vertex(adj, s) && Vertex(adj, u) && Vertex(adj, v)
    requires TreeOk(adj, s, m) && m.color[u] != White && m.color[v] == White && Edge(adj, u, v)
    ensures TreeOk(adj, s, Discover(m, u, v))
  {
  }

  lemma DiscoverKeepsEdges(adj: Adjacency, m: Marks, u: int, v: int)
    requires WellFormed(adj) && Sized(adj, m) && Vertex(adj, u) && Vertex(adj, v)
    requires m.color[u] == Gray && m.color[v] == White && BlackDone(adj, m) && Frontier(adj, m, u)
    ensures BlackDone(adj, Discover(m, u, v)) && Frontier(adj, Discover(m, u, v), u)
  {
    var n := Discover(m, u, v);
    forall b | Vertex(adj, b) && n.color[b] == Black
      ensures EdgesDone(adj, n, b, |adj[b]|)
    {
      assert EdgesDone(adj, m, b, |adj[b]|);
    }
  }

  lemma FrontIsGray(adj: Adjacency, s: int, m: Marks, queue: seq<int>)
    requires queue != [] && Inv(adj, s, m, queue)
    ensures WellFormed(adj) && Sized(adj, m) && Vertex(adj, queue[0]) && m.color[queue[0]] == Gray
    ensures |m.color| == |m.d| == |m.pi| == |adj| && 0 <= queue[0] < |adj|
    ensures Scanning(adj, s, m, queue, 0)
  {
    hide TreeOk, BlackDone, Frontier;
  }

  lemma FrontTarget(adj: Adjacency, s: int, m: Marks, queue: seq<int>, k: int)
    requires Scanning(adj, s, m, queue, k)
    ensures queue != [] && 0 <= k
    ensures |m.color| == |m.d| == |m.pi| == |adj| && 0 <= queue[0] < |adj|
    ensures k < |adj[queue[0]]| ==> 0 <= adj[queue[0]][k] < |adj|
  {
    hide TreeOk, BlackDone, Frontier;
    assert Vertex(adj, queue[0]);
  }

  lemma ScanNew(adj: Adjacency, s: int, m: Marks, queue: seq<int>, k: int)
    requires Scanning(adj, s, m, queue, k) && k < |adj[queue[0]]|
    requires m.color[adj[queue[0]][k]] == White
    ensures Scanning(adj, s, Discover(m, queue[0], adj[queue[0]][k]), queue + [adj[queue[0]][k]], k + 1)
  {
    hide QueueOk, TreeOk, BlackDone, Frontier;
    FrontIsGray(adj, s, m, queue);
    FrontTarget(adj, s, m, queue, k);
    var u, v := queue[0], adj[queue[0]][k];
    DiscoverKeepsQueue(adj, m, queue, v);
    DiscoverKeepsTree(adj, s, m, u, v);
    DiscoverKeepsEdges(adj, m, u, v);
    assert (queue + [v])[0] == u;
  }

  lemma ScanSeen(adj: Adjacency, s: int, m: Marks, queue: seq<int>, k: int)
    requires Scanning(adj, s, m, queue, k) && k < |adj[queue[0]]|
    requires m.color[adj[queue[0]][k]] != White
    ensures Scanning(adj, s, m, queue, k + 1)
  {
    hide QueueOk, TreeOk, BlackDone;
    FrontTarget(adj, s, m, queue, k);
    assert Vertex(adj, adj[queue[0]][k]);
  }

  /** One edge of the front: its target is discovered, unless it already was. */
  lemma ScanStep(adj: Adjacency, s: int, m: Marks, queue: seq<int>, k: int)
    requires Scanning(adj, s, m, queue, k) && k < |adj[queue[0]]|
    ensures
      var u, v := queue[0], adj[queue[0]][k];
      if m.color[v] == White then Scanning(adj, s, Discover(m, u, v), queue + [v], k + 1)
      else Scanning(adj, s, m, queue, k + 1)
  {
    hide *;
    FrontTarget(adj, s, m, queue, k);
    if m.color[adj[queue[0]][k]] == White {
      ScanNew(adj, s, m, queue, k);
    } else {
      ScanSeen(adj, s, m, queue, k);
    }
  }

  function Finish(m: Marks, u: int): Marks
    requires 0 <= u < |m.color|
  {
    m.(color := m.color[u := Black])
  }

  lemma FinishKeepsQueue(adj: Adjacency, m: Marks, queue: seq<int>)
    requires WellFormed(adj) && Sized(adj, m) && queue != [] && QueueOk(adj, m, queue)
    ensures QueueOk(adj, Finish(m, queue[0]), queue[1..])
  {
    var n, q := Finish(m, queue[0]), queue[1..];
    forall i | 0 <= i < |q|
      ensures Vertex(adj, q[i]) && n.color[q[i]] == Gray && n.d[q[i]] <= n.d[q[0]] + 1
    {
      assert q[i] == queue[i + 1] && q[0] == queue[1];
    }
    forall w | Vertex(adj, w) && n.color[w] == Gray
      ensures w in q
    {
      assert w in queue && w != queue[0];
    }
  }

  lemma FinishKeepsEdges(adj: Adjacency, s: int, m: Marks, queue: seq<int>)
    requires queue != [] && Vertex(adj, queue[0]) && Scanning(adj, s, m, queue, |adj[queue[0]]|)
    ensures BlackDone(adj, Finish(m, queue[0]))
    ensures |queue| > 1 ==> Vertex(adj, queue[1]) && Frontier(adj, Finish(m, queue[0]), queue[1])
  {
    var n := Finish(m, queue[0]);
    forall b | Vertex(adj, b) && n.color[b] == Black
      ensures EdgesDone(adj, n, b, |adj[b]|)
    {
      assert EdgesDone(adj, m, b, |adj[b]|);
    }
    if |queue| > 1 {
      forall v | Vertex(adj, v)
        ensures n.color[v] == Gray ==> n.d[queue[1]] <= n.d[v] <= n.d[queue[1]] + 1
        ensures n.color[v] == Black ==> n.d[v] <= n.d[queue[1]]
      {
        if n.color[v] == Gray {
          var i :| 0 <= i < |queue| && queue[i] == v;
          assert i >= 1;
        }
      }
    }
  }

  /** The front, all its edges scanned, leaves the queue finished. */
  lemma FinishStep(adj: Adjacency, s: int, m: Marks, queue: seq<int>)
    requires queue != [] && Vertex(adj, queue[0]) && Scanning(adj, s, m, queue, |adj[queue[0]]|)
    ensures Inv(adj, s, Finish(m, queue[0]), queue[1..])
  {
    var n, q := Finish(m, queue[0]), queue[1..];
    FinishKeepsQueue(adj, m, queue);
    FinishKeepsEdges(adj, s, m, queue);
    assert TreeOk(adj, s, n);
  }

  // ---------------------------------------------------------------------------
  // The order of discovery
  // ---------------------------------------------------------------------------

  /** The vertices in the order they were queued, and for each the place of its parent in that order. */
  datatype Log = Log(order: seq<int>, from: seq<nat>)

  /** The order lists the discovered vertices. */
  ghost predicate Listed(adj: Adjacency, m: Marks, order: seq<int>)
    requires Sized(adj, m)
  {
    && NoDuplicates(order)
    && (forall i | 0 <= i < |order| :: Vertex(adj, order[i]) && m.color[order[i]] != White)
    && (forall v | Vertex(adj, v) && m.color[v] != White :: v in order)
  }

  /** The parent of each vertex but the first is the earliest with an edge to it. */
  ghost predicate ByEarliest(adj: Adjacency, m: Marks, log: Log)
    requires Sized(adj, m) && |log.from| == |log.order| && Listed(adj, m, log.order)
  {
    forall i | 0 < i < |log.order| ::
      && log.from[i] < i && m.pi[log.order[i]] == log.order[log.from[i]]
      && Edge(adj, log.order[log.from[i]], log.order[i])
      && forall j | 0 <= j < log.from[i] :: !Edge(adj, log.order[j], log.order[i])
  }

  /** The list of the vertex at a place of the order. */
  function Targets(adj: Adjacency, order: seq<int>, i: nat): seq<int> {
    if i < |order| && Vertex(adj, order[i]) then adj[order[i]] else []
  }

  /** Children of earlier vertices come first, and children of one vertex in the order of its list. */
  ghost predicate InOrder(adj: Adjacency, log: Log)
    requires |log.from| == |log.order|
  {
    forall i, j | 0 < i < j < |log.order| ::
      log.from[i] < log.from[j]
      || (log.from[i] == log.from[j] && Precedes(Targets(adj, log.order, log.from[i]), log.order[i], log.order[j]))
  }

  ghost predicate Discovered(adj: Adjacency, s: int, m: Marks, log: Log) {
    && Sized(adj, m) && |log.from| == |log.order| > 0 && log.order[0] == s
    && Listed(adj, m, log.order) && ByEarliest(adj, m, log) && InOrder(adj, log)
  }

  /** All targets of the first `done` vertices have been discovered. */
  ghost predicate EarlierDone(adj: Adjacency, m: Marks, log: Log, done: nat)
    requires Sized(adj, m) && WellFormed(adj) && done <= |log.order|
  {
    forall j, v | 0 <= j < done && Edge(adj, log.order[j], v) :: m.color[v] != White
  }

  /** Of the vertex at place `done`, the first `count` targets have been, and its children are among them. */
  ghost predicate Front(adj: Adjacency, m: Marks, log: Log, done: nat, count: nat)
    requires Sized(adj, m) && WellFormed(adj) && |log.from| == |log.order|
  {
    var targets := Targets(adj, log.order, done);
    && count <= |targets| && (forall k | 0 <= k < count :: m.color[targets[k]] != White)
    && forall i | 0 < i < |log.order| :: log.from[i] < done || (log.from[i] == done && log.order[i] in targets[..count])
  }

  /** The first `done` vertices of the order are finished, and of the next one `count` edges. */
  ghost predicate Logged(adj: Adjacency, s: int, m: Marks, log: Log, done: nat, count: nat) {
    && WellFormed(adj) && Discovered(adj, s, m, log) && done <= |log.order|
    && EarlierDone(adj, m, log, done) && Front(adj, m, log, done, count)
  }

  function Noted(log: Log, v: int, done: nat): Log { Log(log.order + [v], log.from + [done]) }

  lemma NotedListed(adj: Adjacency, m: Marks, order: seq<int>, u: int, v: int)
    requires Sized(adj, m) && Listed(adj, m, order) && Vertex(adj, u) && Vertex(adj, v) && m.color[v] == White
    ensures Listed(adj, Discover(m, u, v), order + [v])
  {
    assert forall w | w in order + [v] :: w in order || w == v;
    assert (order + [v])[|order|] == v;
  }

  lemma NotedByEarliest(adj: Adjacency, m: Marks, log: Log, done: nat, v: int)
    requires WellFormed(adj) && Sized(adj, m) && |log.from| == |log.order| && Listed(adj, m, log.order) && ByEarliest(adj, m, log)
    requires done < |log.order| && Edge(adj, log.order[done], v) && Vertex(adj, v) && m.color[v] == White
    requires EarlierDone(adj, m, log, done)
    ensures Listed(adj, Discover(m, log.order[done], v), log.order + [v])
    ensures ByEarliest(adj, Discover(m, log.order[done], v), Noted(log, v, done))
  {
    var n, next := Discover(m, log.order[done], v), Noted(log, v, done);
    NotedListed(adj, m, log.order, log.order[done], v);
    hide Listed;
    forall i | 0 < i < |next.order|
      ensures next.from[i] < i && n.pi[next.order[i]] == next.order[next.from[i]]
      ensures Edge(adj, next.order[next.from[i]], next.order[i])
      ensures forall j | 0 <= j < next.from[i] :: !Edge(adj, next.order[j], next.order[i])
    {
      if i < |log.order| {
        assert log.order[i] != v;
      }
    }
  }

  lemma ChildBefore(adj: Adjacency, m: Marks, log: Log, done: nat, count: nat, i: nat)
    requires WellFormed(adj) && Sized(adj, m) && |log.from| == |log.order| && Front(adj, m, log, done, count)
    requires 0 < i < |log.order| && log.from[i] == done && count < |Targets(adj, log.order, done)|
    requires m.color[Targets(adj, log.order, done)[count]] == White
    ensures Precedes(Targets(adj, log.order, done), log.order[i], Targets(adj, log.order, done)[count])
  {
    var targets := Targets(adj, log.order, done);
    hide Targets;
    var k :| 0 <= k < count && targets[..count][k] == log.order[i];
  }

  lemma NotedInOrder(adj: Adjacency, m: Marks, log: Log, done: nat, count: nat)
    requires WellFormed(adj) && Sized(adj, m) && |log.from| == |log.order| && InOrder(adj, log) && Front(adj, m, log, done, count)
    requires done < |log.order| && count < |Targets(adj, log.order, done)|
    requires m.color[Targets(adj, log.order, done)[count]] == White
    ensures InOrder(adj, Noted(log, Targets(adj, log.order, done)[count], done))
  {
    var next := Noted(log, Targets(adj, log.order, done)[count], done);
    assert forall i | 0 <= i < |log.order| :: Targets(adj, next.order, i) == Targets(adj, log.order, i);
    hide Precedes, Targets;
    forall i, j | 0 < i < j < |next.order|
      ensures next.from[i] < next.from[j]
        || (next.from[i] == next.from[j] && Precedes(Targets(adj, next.order, next.from[i]), next.order[i], next.order[j]))
    {
      if j == |log.order| && log.from[i] == done {
        ChildBefore(adj, m, log, done, count, i);
      }
    }
  }

  lemma NotedFront(adj: Adjacency, m: Marks, log: Log, done: nat, count: nat, u: int, v: int)
    requires WellFormed(adj) && Sized(adj, m) && |log.from| == |log.order| && done < |log.order|
    requires EarlierDone(adj, m, log, done) && Front(adj, m, log, done, count)
    requires count < |Targets(adj, log.order, done)| && v == Targets(adj, log.order, done)[count] && Vertex(adj, v) && Vertex(adj, u)
    ensures EarlierDone(adj, Discover(m, u, v), Noted(log, v, done), done)
    ensures Front(adj, Discover(m, u, v), Noted(log, v, done), done, count + 1)
  {
    var next, targets := Noted(log, v, done), Targets(adj, log.order, done);
    assert Targets(adj, next.order, done) == targets && targets[..count + 1] == targets[..count] + [v];
    assert forall j | 0 <= j < done :: next.order[j] == log.order[j];
    hide Targets;
  }

  lemma DiscoveredSizes(adj: Adjacency, s: int, m: Marks, log: Log)
    requires Discovered(adj, s, m, log)
    ensures Sized(adj, m) && |log.from| == |log.order| > 0 && log.order[0] == s
  {
    hide Listed, ByEarliest, InOrder;
  }

  lemma NotedDiscovered(adj: Adjacency, s: int, m: Marks, log: Log, done: nat, count: nat, v: int)
    requires WellFormed(adj) && Discovered(adj, s, m, log) && done < |log.order|
    requires EarlierDone(adj, m, log, done) && Front(adj, m, log, done, count) && count < |Targets(adj, log.order, done)| && v == Targets(adj, log.order, done)[count]
    requires Vertex(adj, v) && m.color[v] == White && Edge(adj, log.order[done], v)
    ensures Discovered(adj, s, Discover(m, log.order[done], v), Noted(log, v, done))
  {
    hide ByEarliest, InOrder, Listed, EarlierDone, Front, Targets, Edge, WellFormed;
    NotedByEarliest(adj, m, log, done, v);
    NotedInOrder(adj, m, log, done, count);
  }

  /** A target discovered is noted behind all others. */
  lemma NotedStep(adj: Adjacency, s: int, m: Marks, log: Log, done: nat, count: nat, v: int)
    requires Logged(adj, s, m, log, done, count) && done < |log.order| && Vertex(adj, log.order[done])
    requires count < |adj[log.order[done]]| && v == adj[log.order[done]][count] && Vertex(adj, v) && m.color[v] == White
    ensures Logged(adj, s, Discover(m, log.order[done], v), Noted(log, v, done), done, count + 1)
  {
    assert Targets(adj, log.order, done) == adj[log.order[done]];
    assert Edge(adj, log.order[done], v);
    DiscoveredSizes(adj, s, m, log);
    hide Discovered, EarlierDone, Front, Targets, Edge, WellFormed;
    NotedDiscovered(adj, s, m, log, done, count, v);
    NotedFront(adj, m, log, done, count, log.order[done], v);
  }

  lemma SeenStep(adj: Adjacency, s: int, m: Marks, log: Log, done: nat, count: nat)
    requires Logged(adj, s, m, log, done, count) && done < |log.order| && Vertex(adj, log.order[done])
    requires count < |adj[log.order[done]]| && Vertex(adj, adj[log.order[done]][count]) && m.color[adj[log.order[done]][count]] != White
    ensures Logged(adj, s, m, log, done, count + 1)
  {
    hide ByEarliest, InOrder, Listed, EarlierDone;
    var targets := adj[log.order[done]];
    assert targets[..count + 1] == targets[..count] + [targets[count]];
  }

  lemma FinishedFront(adj: Adjacency, m: Marks, log: Log, done: nat)
    requires WellFormed(adj) && Sized(adj, m) && |log.from| == |log.order| && done < |log.order| && Vertex(adj, log.order[done])
    requires EarlierDone(adj, m, log, done) && Front(adj, m, log, done, |adj[log.order[done]]|)
    ensures EarlierDone(adj, Finish(m, log.order[done]), log, done + 1) && Front(adj, Finish(m, log.order[done]), log, done + 1, 0)
  {
    forall j, v | 0 <= j < done + 1 && Edge(adj, log.order[j], v)
      ensures Finish(m, log.order[done]).color[v] != White
    {
      if j == done {
        var k :| 0 <= k < |adj[log.order[done]]| && adj[log.order[done]][k] == v;
      }
    }
  }

  lemma FinishedListed(adj: Adjacency, m: Marks, order: seq<int>, u: int)
    requires Sized(adj, m) && Listed(adj, m, order) && Vertex(adj, u) && m.color[u] != White
    ensures Listed(adj, Finish(m, u), order)
  {
    hide NoDuplicates;
  }

  lemma FinishedByEarliest(adj: Adjacency, m: Marks, log: Log, u: int)
    requires Sized(adj, m) && |log.from| == |log.order| && Listed(adj, m, log.order) && ByEarliest(adj, m, log)
    requires Vertex(adj, u) && Listed(adj, Finish(m, u), log.order)
    ensures ByEarliest(adj, Finish(m, u), log)
  {
    hide Listed, Edge;
  }

  lemma FinishedDiscovered(adj: Adjacency, s: int, m: Marks, log: Log, u: int)
    requires Discovered(adj, s, m, log) && Vertex(adj, u) && m.color[u] != White
    ensures Discovered(adj, s, Finish(m, u), log)
  {
    hide InOrder, Listed, ByEarliest;
    FinishedListed(adj, m, log.order, u);
    FinishedByEarliest(adj, m, log, u);
  }

  /** The front, all its edges scanned, is finished. */
  lemma DoneStep(adj: Adjacency, s: int, m: Marks, log: Log, done: nat)
    requires done < |log.order| && Vertex(adj, log.order[done]) && Logged(adj, s, m, log, done, |adj[log.order[done]]|)
    requires Sized(adj, m) && m.color[log.order[done]] != White
    ensures Logged(adj, s, Finish(m, log.order[done]), log, done + 1, 0)
  {
    DiscoveredSizes(adj, s, m, log);
    hide Discovered, EarlierDone, Front;
    FinishedFront(adj, m, log, done);
    FinishedDiscovered(adj, s, m, log, log.order[done]);
  }

  // ---------------------------------------------------------------------------
  // What a finished search means
  // ---------------------------------------------------------------------------

  /** The search computed, for every vertex, whether `s` reaches it and how far it is. */
  ghost predicate ShortestPaths(adj: Adjacency, s: int, m: Marks) {
    && Sized(adj, m)
    && forall v | Vertex(adj, v) ::
         && (Reachable(adj, s, v) <==> m.color[v] == Black)
         && (Reachable(adj, s, v) ==> Distance(adj, s, v, m.d[v]) && 0 <= m.d[v] < |adj|)
         && (!Reachable(adj, s, v) ==> m.color[v] == White && m.d[v] == INT_MAX && m.pi[v] == INVALID_VERTEX)
  }

  /** The path to `v` along parents. */
  ghost function TreePath(adj: Adjacency, s: int, m: Marks, v: int): (p: seq<int>)
    requires Sized(adj, m) && Vertex(adj, s) && TreeOk(adj, s, m)
    requires Vertex(adj, v) && m.color[v] != White
    ensures |p| == m.d[v] + 1
    decreases m.d[v]
  {
    if v == s then [s] else TreePath(adj, s, m, m.pi[v]) + [v]
  }

  lemma {:induction false} TreePathIsPath(adj: Adjacency, s: int, m: Marks, v: int)
    requires WellFormed(adj) && Sized(adj, m) && Vertex(adj, s) && TreeOk(adj, s, m)
    requires Vertex(adj, v) && m.color[v] != White
    ensures PathFromTo(adj, TreePath(adj, s, m, v), s, v)
    ensures forall i | 0 <= i <= m.d[v] ::
              var w := TreePath(adj, s, m, v)[i];
              Vertex(adj, w) && m.color[w] != White && m.d[w] == i
    decreases m.d[v]
  {
    if v != s {
      var u := m.pi[v];
      TreePathIsPath(adj, s, m, u);
      ExtendPath(adj, TreePath(adj, s, m, u), s, u, v);
    }
  }

  /** When nothing is gray, a path of `n` edges from `s` ends at most `n` steps away. */
  lemma {:induction false} PathBound(adj: Adjacency, s: int, m: Marks, p: seq<int>)
    requires Inv(adj, s, m, []) && IsPath(adj, p) && p[0] == s
    ensures m.color[p[|p| - 1]] == Black && m.d[p[|p| - 1]] <= |p| - 1
    decreases |p|
  {
    var none: seq<int> := [];
    assert forall v | Vertex(adj, v) && m.color[v] == Gray :: v in none;
    if |p| > 1 {
      var q := p[..|p| - 1];
      PathBound(adj, s, m, q);
      var u, v := q[|q| - 1], p[|p| - 1];
      assert Edge(adj, p[|p| - 2], p[|p| - 1]);
      var k :| 0 <= k < |adj[u]| && adj[u][k] == v;
      assert EdgesDone(adj, m, u, |adj[u]|);
      assert Vertex(adj, v);
    }
  }

  lemma SearchMeaning(adj: Adjacency, s: int, m: Marks)
    requires Inv(adj, s, m, [])
    ensures ShortestPaths(adj, s, m)
  {
    forall v | Vertex(adj, v)
      ensures Reachable(adj, s, v) <==> m.color[v] == Black
      ensures Reachable(adj, s, v) ==> Distance(adj, s, v, m.d[v]) && 0 <= m.d[v] < |adj|
      ensures !Reachable(adj, s, v) ==> m.color[v] == White && m.d[v] == INT_MAX && m.pi[v] == INVALID_VERTEX
    {
      forall p | PathFromTo(adj, p, s, v)
        ensures m.color[v] == Black && |p| - 1 >= m.d[v]
      {
        PathBound(adj, s, m, p);
      }
      if m.color[v] != White {
        var p := TreePath(adj, s, m, v);
        TreePathIsPath(adj, s, m, v);
        assert PathFromTo(adj, p, s, v);
        DistinctBound(p, |adj|);
      }
    }
  }

  // ---------------------------------------------------------------------------
  // The search
  // ---------------------------------------------------------------------------

  ghost function NotBlack(color: seq<Color>): set<int> {
    set v | 0 <= v < |color| && color[v] != Black
  }

  lemma DiscoverUpdates(m: Marks, u: int, v: int)
    requires |m.color| == |m.d| == |m.pi| && 0 <= u < |m.d| && 0 <= v < |m.d|
    ensures Discover(m, u, v) == Marks(m.color[v := Gray], m.d[v := m.d[u] + 1], m.pi[v := u])
    ensures m.color[v] == White ==> NotBlack(m.color[v := Gray]) == NotBlack(m.color)
  {
  }

  /** What is noted beside the queue: which vertices came before it, and which it holds. */
  ghost predicate Noting(adj: Adjacency, s: int, m: Marks, queue: seq<int>, log: Log, done: nat, count: nat) {
    Logged(adj, s, m, log, done, count) && queue == log.order[done..]
  }

  lemma LoggedSizes(adj: Adjacency, s: int, m: Marks, log: Log, done: nat, count: nat)
    requires Logged(adj, s, m, log, done, count)
    ensures done <= |log.order|
  {
    hide Discovered, EarlierDone, Front;
  }

  lemma QueueFront(queue: seq<int>, order: seq<int>, done: nat, v: int)
    requires queue != [] && done <= |order| && queue == order[done..]
    ensures done < |order| && order[done] == queue[0] && queue + [v] == (order + [v])[done..]
  {
  }

  /** One edge of the front, noted. */
  lemma NoteStep(adj: Adjacency, s: int, m: Marks, queue: seq<int>, log: Log, done: nat, k: nat)
    requires Scanning(adj, s, m, queue, k) && k < |adj[queue[0]]| && Noting(adj, s, m, queue, log, done, k)
    ensures |m.color| == |m.d| == |m.pi| == |adj| && 0 <= queue[0] < |adj| && Vertex(adj, adj[queue[0]][k])
    ensures
      var u, v := queue[0], adj[queue[0]][k];
      if m.color[v] == White then Noting(adj, s, Discover(m, u, v), queue + [v], Noted(log, v, done), done, k + 1)
      else Noting(adj, s, m, queue, log, done, k + 1)
  {
    FrontTarget(adj, s, m, queue, k);
    var v := adj[queue[0]][k];
    assert Vertex(adj, v) && Vertex(adj, queue[0]);
    LoggedSizes(adj, s, m, log, done, k);
    hide Scanning, Logged, Edge, Targets, Discover;
    QueueFront(queue, log.order, done, v);
    if m.color[v] == White {
      NotedStep(adj, s, m, log, done, k, v);
    } else {
      SeenStep(adj, s, m, log, done, k);
    }
  }

  lemma NoteFinish(adj: Adjacency, s: int, m: Marks, queue: seq<int>, log: Log, done: nat)
    requires queue != [] && Vertex(adj, queue[0]) && Scanning(adj, s, m, queue, |adj[queue[0]]|)
    requires Noting(adj, s, m, queue, log, done, |adj[queue[0]]|)
    ensures |m.color| == |adj| && Noting(adj, s, Finish(m, queue[0]), queue[1..], log, done + 1, 0)
  {
    FrontIsGray(adj, s, m, queue);
    assert log.order[done] == queue[0] && queue[1..] == log.order[done + 1..];
    hide Scanning, Logged;
    DoneStep(adj, s, m, log, done);
  }

  lemma NoteStart(adj: Adjacency, s: int, m: Marks)
    requires WellFormed(adj) && Vertex(adj, s) && |m.color| == |m.d| == |m.pi| == |adj| && m.color[s] == Gray
    requires forall v | 0 <= v < |adj| && v != s :: m.color[v] == White
    ensures Noting(adj, s, m, [s], Log([s], [0]), 0, 0)
  {
    assert [s][0] == s;
  }

  lemma NoteEnd(adj: Adjacency, s: int, m: Marks, log: Log, done: nat)
    requires Noting(adj, s, m, [], log, done, 0)
    ensures Discovered(adj, s, m, log)
  {
    hide Discovered, EarlierDone, Front;
  }

  /** The search and the notes about it, `k` edges of the front being done. */
  ghost predicate Tracked(adj: Adjacency, s: int, m: Marks, queue: seq<int>, log: Log, done: nat, k: nat) {
    Scanning(adj, s, m, queue, k) && Noting(adj, s, m, queue, log, done, k)
  }

  lemma TrackTarget(adj: Adjacency, s: int, m: Marks, queue: seq<int>, log: Log, done: nat, k: nat)
    requires Tracked(adj, s, m, queue, log, done, k)
    ensures queue != [] && |m.color| == |m.d| == |m.pi| == |adj| && 0 <= queue[0] < |adj|
    ensures k < |adj[queue[0]]| ==> 0 <= adj[queue[0]][k] < |adj|
  {
    hide Scanning, Noting;
    FrontTarget(adj, s, m, queue, k);
  }

  lemma TrackNew(adj: Adjacency, s: int, m: Marks, queue: seq<int>, log: Log, done: nat, k: nat, u: int, v: int)
    requires Tracked(adj, s, m, queue, log, done, k) && queue != [] && u == queue[0] && 0 <= u < |adj| && k < |adj[u]| && v == adj[u][k]
    requires |m.color| == |m.d| == |m.pi| == |adj| && 0 <= v < |adj| && m.color[v] == White
    ensures Tracked(adj, s, Marks(m.color[v := Gray], m.d[v := m.d[u] + 1], m.pi[v := u]), queue + [v], Noted(log, v, done), done, k + 1)
    ensures NotBlack(m.color[v := Gray]) == NotBlack(m.color)
  {
    hide Scanning, Noting, Discover, Noted, NotBlack;
    ScanStep(adj, s, m, queue, k);
    NoteStep(adj, s, m, queue, log, done, k);
    DiscoverUpdates(m, u, v);
  }

  lemma TrackSeen(adj: Adjacency, s: int, m: Marks, queue: seq<int>, log: Log, done: nat, k: nat, u: int, v: int)
    requires Tracked(adj, s, m, queue, log, done, k) && queue != [] && u == queue[0] && 0 <= u < |adj| && k < |adj[u]| && v == adj[u][k]
    requires |m.color| == |m.d| == |m.pi| == |adj| && 0 <= v < |adj| && m.color[v] != White
    ensures Tracked(adj, s, m, queue, log, done, k + 1)
  {
    hide Scanning, Noting, Discover, Noted;
    ScanStep(adj, s, m, queue, k);
    NoteStep(adj, s, m, queue, log, done, k);
  }

  lemma TrackStart(adj: Adjacency, s: int, m: Marks, queue: seq<int>, log: Log, done: nat)
    requires queue != [] && Inv(adj, s, m, queue) && Noting(adj, s, m, queue, log, done, 0)
    ensures Tracked(adj, s, m, queue, log, done, 0) && 0 <= queue[0] < |adj|
  {
    hide Inv, Scanning, Noting;
    FrontIsGray(adj, s, m, queue);
  }

  lemma TrackEnd(adj: Adjacency, s: int, m: Marks, queue: seq<int>, log: Log, done: nat, k: nat)
    requires Tracked(adj, s, m, queue, log, done, k)
    ensures Scanning(adj, s, m, queue, k) && Noting(adj, s, m, queue, log, done, k)
  {
  }

  /** The inner loop: every white target of the front's edges is discovered, queued and noted. */
  method ScanFront(adj: Adjacency, s: int, color0: seq<Color>, d0: seq<int>, pi0: seq<int>, queue0: seq<int>, ghost log0: Log, ghost done: nat)
    returns (color: seq<Color>, d: seq<int>, pi: seq<int>, queue: seq<int>, ghost log: Log)
    requires queue0 != [] && Inv(adj, s, Marks(color0, d0, pi0), queue0)
    requires Noting(adj, s, Marks(color0, d0, pi0), queue0, log0, done, 0)
    ensures queue != [] && queue[0] == queue0[0] && 0 <= queue[0] < |adj|
    ensures Scanning(adj, s, Marks(color, d, pi), queue, |adj[queue[0]]|)
    ensures Noting(adj, s, Marks(color, d, pi), queue, log, done, |adj[queue[0]]|)
    ensures NotBlack(color) == NotBlack(color0)
  {
    color, d, pi, queue, log := color0, d0, pi0, queue0, log0;
    hide *;
    TrackStart(adj, s, Marks(color, d, pi), queue, log, done);
    var u := queue[0];
    for k := 0 to |adj[u]|
      invariant queue != [] && queue[0] == u && Tracked(adj, s, Marks(color, d, pi), queue, log, done, k)
      invariant NotBlack(color) == NotBlack(color0)
    {
      TrackTarget(adj, s, Marks(color, d, pi), queue, log, done, k);
      var v := adj[u][k];
      if color[v] == White {
        TrackNew(adj, s, Marks(color, d, pi), queue, log, done, k, u, v);
        color := color[v := Gray];
        d := d[v := d[u] + 1];
        pi := pi[v := u];
        queue := queue + [v];
        log := Noted(log, v, done);
      } else {
        TrackSeen(adj, s, Marks(color, d, pi), queue, log, done, k, u, v);
      }
    }
    TrackEnd(adj, s, Marks(color, d, pi), queue, log, done, |adj[u]|);
  }

  lemma StartInv(adj: Adjacency, s: int, m: Marks)
    requires WellFormed(adj) && Vertex(adj, s) && |m.color| == |m.d| == |m.pi| == |adj|
    requires m.color[s] == Gray && m.d[s] == 0 && m.pi[s] == INVALID_VERTEX
    requires forall v | 0 <= v < |adj| && v != s :: m.color[v] == White && m.d[v] == INT_MAX && m.pi[v] == INVALID_VERTEX
    ensures Inv(adj, s, m, [s])
  {
  }

  lemma FinishUpdates(m: Marks, u: int)
    requires 0 <= u < |m.color| && m.color[u] != Black
    ensures Finish(m, u) == Marks(m.color[u := Black], m.d, m.pi)
    ensures NotBlack(m.color[u := Black]) < NotBlack(m.color)
  {
    assert u in NotBlack(m.color) && u !in NotBlack(m.color[u := Black]);
  }

  /** Beside the marks it yields, for the record, the order in which the vertices were discovered. */
  method BreadthFirstSearch(graph: Graph?, s: int) returns (r: Result<Marks>, ghost log: Log)
    requires graph != null ==> graph.Valid() && 0 <= s < graph.V
    ensures r.Failure? <==> graph == null
    ensures r.Success? ==> Inv(graph.adj, s, r.value, []) && ShortestPaths(graph.adj, s, r.value)
    ensures r.Success? ==> Discovered(graph.adj, s, r.value, log)
  {
    log := Log([], []);
    if graph == null {
      return Failure("graph is null"), log;
    }
    var V, adj := graph.V, graph.adj;
    assert WellFormed(adj) && Vertex(adj, s);
    hide *;
    var pi, color, d := seq(V, _ => 0), seq(V, _ => White), seq(V, _ => 0);
    for u := 0 to V
      invariant |color| == |d| == |pi| == V
      invariant forall w | 0 <= w < V :: color[w] == White
      invariant forall w | 0 <= w < u && w != s :: d[w] == INT_MAX && pi[w] == INVALID_VERTEX
    {
      if u == s { continue; }
      color := color[u := White];
      d := d[u := INT_MAX];
      pi := pi[u := INVALID_VERTEX];
    }
    color := color[s := Gray];
    d := d[s := 0];
    pi := pi[s := INVALID_VERTEX];
    var queue := [s];
    StartInv(adj, s, Marks(color, d, pi));
    NoteStart(adj, s, Marks(color, d, pi));
    log := Log([s], [0]);
    ghost var done := 0;
    while queue != []
      invariant Inv(adj, s, Marks(color, d, pi), queue) && Noting(adj, s, Marks(color, d, pi), queue, log, done, 0)
      decreases NotBlack(color)
    {
      var u := queue[0];
      FrontIsGray(adj, s, Marks(color, d, pi), queue);
      color, d, pi, queue, log := ScanFront(adj, s, color, d, pi, queue, log, done);
      FrontIsGray(adj, s, Marks(color, d, pi), queue);
      FinishStep(adj, s, Marks(color, d, pi), queue);
      NoteFinish(adj, s, Marks(color, d, pi), queue, log, done);
      FinishUpdates(Marks(color, d, pi), u);
      queue := queue[1..];
      color := color[u := Black];
      done := done + 1;
    }
    SearchMeaning(adj, s, Marks(color, d, pi));
    NoteEnd(adj, s, Marks(color, d, pi), log, done);
    return Success(Marks(color, d, pi)), log;
  }

  // ---------------------------------------------------------------------------
  // The marks are determined by the graph and the start
  // ---------------------------------------------------------------------------

  lemma EarliestBound(adj: Adjacency, s: int, m: Marks, log: Log, i: nat, j: nat)
    requires Discovered(adj, s, m, log) && 0 < i < |log.order|
    ensures log.from[i] < i && Edge(adj, log.order[log.from[i]], log.order[i]) && m.pi[log.order[i]] == log.order[log.from[i]]
    ensures j < |log.order| && Edge(adj, log.order[j], log.order[i]) ==> log.from[i] <= j
  {
    hide InOrder, Listed, Edge;
  }

  lemma PlacesInOrder(adj: Adjacency, s: int, m: Marks, log: Log, i: nat, j: nat)
    requires Discovered(adj, s, m, log) && 0 < i < j < |log.order|
    ensures log.from[i] < log.from[j]
         || (log.from[i] == log.from[j] && Precedes(Targets(adj, log.order, log.from[i]), log.order[i], log.order[j]))
  {
    hide ByEarliest, Listed, Precedes, Targets;
  }

  lemma PlaceOf(adj: Adjacency, s: int, m: Marks, log: Log, k: nat, v: int) returns (i: nat)
    requires Discovered(adj, s, m, log) && k < |log.order| && v in log.order && v !in log.order[..k] && v != log.order[k]
    ensures k < i < |log.order| && log.order[i] == v
  {
    hide ByEarliest, InOrder;
    i :| 0 <= i < |log.order| && log.order[i] == v;
    assert forall x | 0 <= x < k :: log.order[x] == log.order[..k][x];
  }

  lemma NotBefore(adj: Adjacency, s: int, m: Marks, log: Log, k: nat)
    requires Discovered(adj, s, m, log) && k < |log.order|
    ensures log.order[k] !in log.order[..k]
  {
    hide ByEarliest, InOrder;
  }

  lemma SameBeginning(x: seq<int>, y: seq<int>, k: nat, i: nat)
    requires i < k <= |x| && k <= |y| && x[..k] == y[..k]
    ensures x[i] == y[i]
  {
    assert x[..k][i] == x[i] && y[..k][i] == y[i];
  }

  /** Of two vertices that may come next, the one that does has the earlier parent, or comes first in its list. */
  lemma ComesFirst(adj: Adjacency, s: int, m: Marks, n: Marks, log: Log, other: Log, k: nat)
    requires Discovered(adj, s, m, log) && Discovered(adj, s, n, other)
    requires 0 < k < |log.order| && k < |other.order| && log.order[..k] == other.order[..k]
    requires other.order[k] in log.order && log.order[k] != other.order[k]
    ensures |log.from| == |log.order| && |other.from| == |other.order|
    ensures log.from[k] < other.from[k]
         || (log.from[k] == other.from[k] && Precedes(Targets(adj, log.order, log.from[k]), log.order[k], other.order[k]))
  {
    DiscoveredSizes(adj, s, m, log);
    DiscoveredSizes(adj, s, n, other);
    hide Discovered, Precedes, Edge, Targets;
    NotBefore(adj, s, n, other, k);
    var i := PlaceOf(adj, s, m, log, k, other.order[k]);
    EarliestBound(adj, s, n, other, k, 0);
    SameBeginning(log.order, other.order, k, other.from[k]);
    EarliestBound(adj, s, m, log, i, other.from[k]);
    PlacesInOrder(adj, s, m, log, k, i);
  }

  lemma SameTargets(adj: Adjacency, x: seq<int>, y: seq<int>, i: nat)
    requires i < |x| && i < |y| && x[i] == y[i]
    ensures Targets(adj, x, i) == Targets(adj, y, i)
  {
  }

  /** With the same beginning, two searches discover the same vertex next. */
  lemma SameNext(adj: Adjacency, s: int, m: Marks, n: Marks, log: Log, other: Log, k: nat)
    requires Discovered(adj, s, m, log) && Discovered(adj, s, n, other)
    requires 0 < k < |log.order| && k < |other.order| && log.order[..k] == other.order[..k]
    requires log.order[k] in other.order && other.order[k] in log.order
    ensures log.order[k] == other.order[k]
  {
    hide *;
    if log.order[k] != other.order[k] {
      ComesFirst(adj, s, m, n, log, other, k);
      ComesFirst(adj, s, n, m, other, log, k);
      EarliestBound(adj, s, m, log, k, 0);
      SameBeginning(log.order, other.order, k, log.from[k]);
      SameTargets(adj, log.order, other.order, log.from[k]);
      PrecedesOneWay(Targets(adj, log.order, log.from[k]), log.order[k], other.order[k]);
    }
  }

  lemma DistanceUnique(adj: Adjacency, u: int, v: int, a: int, b: int)
    requires Distance(adj, u, v, a) && Distance(adj, u, v, b)
    ensures a == b
  {
    hide PathFromTo;
  }

  lemma {:induction false} ElementCount(x: seq<int>)
    requires NoDuplicates(x)
    ensures |set v | v in x| == |x|
  {
    if x != [] {
      var rest, last := x[..|x| - 1], x[|x| - 1];
      ElementCount(rest);
      assert x == rest + [last];
      assert (set v | v in x) == (set v | v in rest) + {last};
    }
  }

  ghost predicate SameMembers(x: seq<int>, y: seq<int>) { forall v :: v in x <==> v in y }

  lemma Member(x: seq<int>, y: seq<int>, k: nat)
    requires k < |x| && (SameMembers(x, y) || SameMembers(y, x))
    ensures x[k] in y
  {
    var v := x[k];
    assert v in x;
    assert v in y <==> v in x;
  }

  lemma SameElements(x: seq<int>, y: seq<int>)
    requires NoDuplicates(x) && NoDuplicates(y) && SameMembers(x, y)
    ensures |x| == |y|
  {
    ElementCount(x);
    ElementCount(y);
    assert (set v | v in x) == (set v | v in y);
  }

  lemma SameFound(adj: Adjacency, s: int, m: Marks, n: Marks, log: Log, other: Log)
    requires Discovered(adj, s, m, log) && Discovered(adj, s, n, other)
    requires ShortestPaths(adj, s, m) && ShortestPaths(adj, s, n)
    ensures m.color == n.color && m.d == n.d && |log.order| == |other.order|
    ensures SameMembers(log.order, other.order)
  {
    forall v | 0 <= v < |adj| ensures m.color[v] == n.color[v] && m.d[v] == n.d[v] {
      assert Vertex(adj, v);
      if Reachable(adj, s, v) {
        DistanceUnique(adj, s, v, m.d[v], n.d[v]);
      }
    }
    hide ByEarliest, InOrder, Reachable;
    SameElements(log.order, other.order);
  }

  lemma LongerBeginning(x: seq<int>, y: seq<int>, k: nat)
    requires k < |x| && k < |y| && x[..k] == y[..k] && x[k] == y[k]
    ensures x[..k + 1] == y[..k + 1]
  {
    assert x[..k + 1] == x[..k] + [x[k]] && y[..k + 1] == y[..k] + [y[k]];
  }

  lemma {:induction false} SameOrder(adj: Adjacency, s: int, m: Marks, n: Marks, log: Log, other: Log, k: nat)
    requires Discovered(adj, s, m, log) && Discovered(adj, s, n, other) && |log.order| == |other.order| && k <= |log.order|
    requires SameMembers(log.order, other.order)
    ensures log.order[..k] == other.order[..k]
  {
    hide *;
    DiscoveredSizes(adj, s, m, log);
    DiscoveredSizes(adj, s, n, other);
    if k == 1 {
      LongerBeginning(log.order, other.order, 0);
    } else if k > 1 {
      SameOrder(adj, s, m, n, log, other, k - 1);
      Member(log.order, other.order, k - 1);
      Member(other.order, log.order, k - 1);
      SameNext(adj, s, m, n, log, other, k - 1);
      LongerBeginning(log.order, other.order, k - 1);
    }
  }

  lemma SamePlaces(adj: Adjacency, s: int, m: Marks, n: Marks, log: Log, other: Log, i: nat)
    requires Discovered(adj, s, m, log) && Discovered(adj, s, n, other) && log.order == other.order && 0 < i < |log.order|
    ensures |log.from| == |log.order| == |other.from| && log.from[i] == other.from[i]
  {
    hide *;
    DiscoveredSizes(adj, s, m, log);
    DiscoveredSizes(adj, s, n, other);
    EarliestBound(adj, s, m, log, i, 0);
    EarliestBound(adj, s, n, other, i, 0);
    EarliestBound(adj, s, m, log, i, other.from[i]);
    EarliestBound(adj, s, n, other, i, log.from[i]);
  }

  lemma SameParent(adj: Adjacency, s: int, m: Marks, n: Marks, log: Log, other: Log, i: nat)
    requires Discovered(adj, s, m, log) && Discovered(adj, s, n, other) && log.order == other.order && 0 < i < |log.order|
    ensures Sized(adj, m) && Sized(adj, n) && Vertex(adj, log.order[i]) && m.pi[log.order[i]] == n.pi[log.order[i]]
  {
    SamePlaces(adj, s, m, n, log, other, i);
    hide ByEarliest, InOrder;
    EarliestBound(adj, s, m, log, i, 0);
    EarliestBound(adj, s, n, other, i, 0);
  }

  lemma SameParents(adj: Adjacency, s: int, m: Marks, n: Marks, log: Log, other: Log)
    requires Discovered(adj, s, m, log) && Discovered(adj, s, n, other) && log.order == other.order
    requires Sized(adj, m) && Sized(adj, n) && m.color == n.color && Vertex(adj, s) && TreeOk(adj, s, m) && TreeOk(adj, s, n)
    ensures m.pi == n.pi
  {
    hide ByEarliest, InOrder;
    forall v | 0 <= v < |adj| ensures m.pi[v] == n.pi[v] {
      assert Vertex(adj, v);
      if m.color[v] != White && v != s {
        var i :| 0 <= i < |log.order| && log.order[i] == v;
        SameParent(adj, s, m, n, log, other, i);
      }
    }
  }

  lemma SearchParts(adj: Adjacency, s: int, m: Marks)
    requires Inv(adj, s, m, [])
    ensures Sized(adj, m) && Vertex(adj, s) && TreeOk(adj, s, m)
  {
    hide QueueOk, TreeOk, BlackDone, Frontier;
  }

  /** Two searches of one graph from one start leave the same marks, parents included, and discover the
      vertices in the same order. */
  lemma SearchDetermined(adj: Adjacency, s: int, m: Marks, n: Marks, log: Log, other: Log)
    requires Discovered(adj, s, m, log) && Discovered(adj, s, n, other)
    requires Inv(adj, s, m, []) && Inv(adj, s, n, [])
    ensures m == n && log.order == other.order
  {
    hide *;
    SearchMeaning(adj, s, m);
    SearchMeaning(adj, s, n);
    SearchParts(adj, s, m);
    SearchParts(adj, s, n);
    SameFound(adj, s, m, n, log, other);
    SameOrder(adj, s, m, n, log, other, |log.order|);
    assert log.order[..|log.order|] == log.order && other.order[..|log.order|] == other.order;
    SameParents(adj, s, m, n, log, other);
  }

  /** Of two children of one vertex, the one its list names first is discovered first; children of different
      vertices follow the order of their parents. */
  lemma ListOrder(adj: Adjacency, s: int, m: Marks, log: Log, x: nat, y: nat, i: nat, j: nat)
    requires Simple(adj) && Discovered(adj, s, m, log) && 0 < x < |log.order| && 0 < y < |log.order|
    ensures log.from[x] < x && log.from[x] < log.from[y] ==> x < y
    ensures Vertex(adj, log.order[log.from[x]])
    ensures var targets := adj[log.order[log.from[x]]];
      log.from[x] == log.from[y] && i < j < |targets| && targets[i] == log.order[x] && targets[j] == log.order[y] ==> x < y
  {
    EarliestBound(adj, s, m, log, x, 0);
    EarliestBound(adj, s, m, log, y, 0);
    DiscoveredSizes(adj, s, m, log);
    hide Discovered, Precedes;
    var targets := adj[log.order[log.from[x]]];
    if y < x {
      PlacesInOrder(adj, s, m, log, y, x);
      if i < j < |targets| && targets[i] == log.order[x] && targets[j] == log.order[y] {
        PrecedesByPlace(targets, j, i);
      }
    } else if x == y && i < j < |targets| {
      assert targets[i] != targets[j];
    }
  }

  // ---------------------------------------------------------------------------
  // Printing a path
  // ---------------------------------------------------------------------------

  /** What is written to the output: a first vertex, an arrow and a further vertex, or the complaint. */
  datatype Token = First(v: int) | Arrow(v: int) | NoPath(from: int, to: int)

  /** A path as it should be written. */
  function Render(p: seq<int>): seq<Token>
    requires |p| > 0
  {
    [First(p[0])] + seq(|p| - 1, i requires 0 <= i < |p| - 1 => Arrow(p[i + 1]))
  }

  /** What the parents of a finished search make of the path to `v`. */
  ghost function Printed(adj: Adjacency, s: int, v: int, m: Marks): seq<Token>
    requires Sized(adj, m) && Vertex(adj, s) && TreeOk(adj, s, m) && Vertex(adj, v)
  {
    if m.color[v] == White then [NoPath(s, v)] else Render(TreePath(adj, s, m, v))
  }

  lemma PrintedMeaning(adj: Adjacency, s: int, v: int, m: Marks)
    requires Inv(adj, s, m, []) && Vertex(adj, v)
    ensures !Reachable(adj, s, v) ==> Printed(adj, s, v, m) == [NoPath(s, v)]
    ensures Reachable(adj, s, v) ==>
              exists p :: PathFromTo(adj, p, s, v) && |p| - 1 == m.d[v] && Printed(adj, s, v, m) == Render(p)
  {
    SearchMeaning(adj, s, m);
    if Reachable(adj, s, v) {
      TreePathIsPath(adj, s, m, v);
    }
  }

  lemma PrintedStep(adj: Adjacency, s: int, v: int, m: Marks)
    requires Inv(adj, s, m, []) && Vertex(adj, v)
    ensures |m.pi| == |m.d| == |adj|
    ensures
      if v == s then Printed(adj, s, v, m) == [First(v)]
      else if m.pi[v] == INVALID_VERTEX then Printed(adj, s, v, m) == [NoPath(s, v)]
      else Vertex(adj, m.pi[v]) && 0 <= m.d[m.pi[v]] < m.d[v]
           && Printed(adj, s, v, m) == Printed(adj, s, m.pi[v], m) + [Arrow(v)]
  {
    hide QueueOk, BlackDone, Frontier;
  }

  /** Run on the parents of a finished search, this writes a shortest path to a
      reachable vertex and the complaint, alone, for any other. */
  method PrintPath(adj: Adjacency, s: int, v: int, m: Marks) returns (output: seq<Token>)
    requires Inv(adj, s, m, []) && Vertex(adj, v)
    ensures output == Printed(adj, s, v, m)
    ensures !Reachable(adj, s, v) ==> output == [NoPath(s, v)]
    ensures Reachable(adj, s, v) ==>
              exists p :: PathFromTo(adj, p, s, v) && |p| - 1 == m.d[v] && output == Render(p)
    decreases m.d[v]
  {
    PrintedMeaning(adj, s, v, m);
    PrintedStep(adj, s, v, m);
    hide *;
    if v == s {
      output := [First(v)];
    } else if m.pi[v] == INVALID_VERTEX {
      output := [NoPath(s, v)];
    } else {
      output := PrintPath(adj, s, m.pi[v], m);
      output := output + [Arrow(v)];
    }
  }
}
