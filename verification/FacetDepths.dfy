/** The depth of each facet below the heads of the dependency graph, found by a breadth-first search that keeps
    no record of what it has visited. */
module FacetDepths {
  import opened Common
  import opened Digraph
  import opened FacetCycles

  ghost predicate Acyclic(g: Graph) {
    forall x :: !OnCycle(g, x)
  }

  lemma PathsAreShort(g: Graph, p: seq<Ident>)
    requires Acyclic(g) && IsPath(g, p)
    ensures |p| <= |g|
  {
    if |p| > |g| {
      LongPathRevisits(g, p);
      var i, j :| 0 <= i < j < |p| && p[i] == p[j];
      SubPath(g, p, i, j + 1);
      PathIsWalk(g, p[i..j + 1]);
      assert CycleAt(g, p[i], p[i..j + 1]);
      assert OnCycle(g, p[i]);
    }
  }

  // ---------------------------------------------------------------- how long the search runs

  /** The number of paths that start at `x` and have at most `n` edges. */
  ghost function CountPaths(g: Graph, x: Ident, n: nat): nat
    decreases n, 0, 0
  {
    1 + if n == 0 || x !in g then 0 else SumPaths(g, g[x], n - 1)
  }

  ghost function SumPaths(g: Graph, xs: seq<Ident>, n: nat): nat
    decreases n, 1, |xs|
  {
    if xs == [] then 0 else CountPaths(g, xs[0], n) + SumPaths(g, xs[1..], n)
  }

  ghost predicate Shallow(g: Graph, x: Ident, n: nat) {
    forall p :: IsPath(g, p) && p[0] == x ==> |p| <= n + 1
  }

  lemma ChildShallow(g: Graph, x: Ident, y: Ident, n: nat)
    requires Closed(g) && x in g && y in g[x] && Shallow(g, x, n)
    ensures n > 0 && Shallow(g, y, n - 1)
  {
    var c :| 0 <= c < |g[x]| && g[x][c] == y;
    assert IsPath(g, [x]) && IsPath(g, [y]);
    PathFrom(g, x, [y]);
    forall p | IsPath(g, p) && p[0] == y ensures |p| <= n {
      PathFrom(g, x, p);
      assert ([x] + p)[0] == x;
    }
  }

  lemma {:induction false} CountStable(g: Graph, x: Ident, n: nat)
    requires Closed(g) && x in g && Shallow(g, x, n)
    ensures CountPaths(g, x, n) == CountPaths(g, x, n + 1)
    decreases n, 0, 0
  {
    if g[x] != [] {
      forall y | y in g[x] ensures n > 0 && Shallow(g, y, n - 1) && y in g {
        ChildShallow(g, x, y, n);
      }
      assert g[x][0] in g[x];
      SumStable(g, g[x], n - 1);
    }
  }

  lemma {:induction false} SumStable(g: Graph, xs: seq<Ident>, n: nat)
    requires Closed(g) && forall y :: y in xs ==> y in g && Shallow(g, y, n)
    ensures SumPaths(g, xs, n) == SumPaths(g, xs, n + 1)
    decreases n, 1, |xs|
  {
    if xs != [] {
      CountStable(g, xs[0], n);
      SumStable(g, xs[1..], n);
    }
  }

  type Entry = (Ident, nat)

  /** The number of entries that `queue` leads to. */
  ghost function Pending(g: Graph, queue: seq<Entry>): nat {
    if queue == [] then 0 else CountPaths(g, queue[0].0, |g|) + Pending(g, queue[1..])
  }

  lemma {:induction false} PendingAppend(g: Graph, queue: seq<Entry>, e: Entry)
    ensures Pending(g, queue + [e]) == Pending(g, queue) + CountPaths(g, e.0, |g|)
  {
    if queue == [] {
      assert ([e])[1..] == [];
    } else {
      PendingAppend(g, queue[1..], e);
      assert (queue + [e])[1..] == queue[1..] + [e];
    }
  }

  lemma {:induction false} SumAppend(g: Graph, xs: seq<Ident>, x: Ident, n: nat)
    ensures SumPaths(g, xs + [x], n) == SumPaths(g, xs, n) + CountPaths(g, x, n)
    decreases |xs|
  {
    if xs == [] {
      assert ([x])[1..] == [];
    } else {
      SumAppend(g, xs[1..], x, n);
      assert (xs + [x])[1..] == xs[1..] + [x];
    }
  }

  /** An entry and its dependencies: one path less. */
  lemma CountLevel(g: Graph, x: Ident)
    requires Closed(g) && Acyclic(g) && x in g
    ensures CountPaths(g, x, |g|) == 1 + SumPaths(g, g[x], |g|)
  {
    forall p | IsPath(g, p) && p[0] == x ensures |p| <= |g| + 1 {
      PathsAreShort(g, p);
    }
    CountStable(g, x, |g|);
  }

  // ---------------------------------------------------------------- what the search finds

  /** A path from a head to `x` with `d` edges. */
  ghost predicate DepthPath(g: Graph, heads: set<Ident>, p: seq<Ident>, x: Ident, d: nat) {
    IsPath(g, p) && p[0] in heads && p[|p| - 1] == x && |p| == d + 1
  }

  ghost predicate HasDepth(g: Graph, heads: set<Ident>, x: Ident, d: nat) {
    exists p :: DepthPath(g, heads, p, x, d)
  }

  /** The longest path from a head to `x` has `d` edges. */
  ghost predicate LongestDepth(g: Graph, heads: set<Ident>, x: Ident, d: nat) {
    HasDepth(g, heads, x, d) && forall e: nat :: HasDepth(g, heads, x, e) ==> e <= d
  }

  ghost predicate Layered(depths: map<Ident, nat>, queue: seq<Entry>, maxDepth: nat) {
    && (forall i, j :: 0 <= i <= j < |queue| ==> queue[i].1 <= queue[j].1 <= queue[0].1 + 1)
    && (queue != [] ==> maxDepth <= queue[0].1)
    && (forall x :: x in depths ==> depths[x] <= maxDepth)
  }

  /** The path `p` from a head was followed to its end, or a part of it was followed and is in the queue. */
  ghost predicate Followed(depths: map<Ident, nat>, queue: seq<Entry>, p: seq<Ident>) {
    p != [] ==>
      || (p[|p| - 1] in depths && depths[p[|p| - 1]] >= |p| - 1)
      || exists j: nat {:trigger p[j]} :: j < |p| && (p[j], j) in queue
  }

  ghost predicate Measuring(g: Graph, heads: set<Ident>, depths: map<Ident, nat>, queue: seq<Entry>, maxDepth: nat) {
    && Layered(depths, queue, maxDepth)
    && (forall x {:trigger depths[x]} :: x in depths ==> HasDepth(g, heads, x, depths[x]))
    && (forall i {:trigger queue[i]} :: 0 <= i < |queue| ==> HasDepth(g, heads, queue[i].0, queue[i].1))
    && (forall p {:trigger Followed(depths, queue, p)} :: IsPath(g, p) && p[0] in heads ==> Followed(depths, queue, p))
  }

  /** The invariant, as the search passes it on. */
  ghost predicate Measure(g: Graph, heads: set<Ident>, depths: map<Ident, nat>, queue: seq<Entry>, maxDepth: nat) {
    forall part {:trigger Look(part)} :: Look(part) && part == Part.DepthSearch
      ==> Measuring(g, heads, depths, queue, maxDepth)
  }

  /** An entry is taken from the queue, its depth is recorded, and its dependencies follow. */
  ghost function Below(xs: seq<Ident>, d: nat): seq<Entry> {
    seq(|xs|, i requires 0 <= i < |xs| => (xs[i], d + 1))
  }

  lemma VisitFollowed(g: Graph, heads: set<Ident>, depths: map<Ident, nat>, queue: seq<Entry>, maxDepth: nat,
                      p: seq<Ident>)
    requires Measuring(g, heads, depths, queue, maxDepth) && queue != [] && queue[0].0 in g
    requires IsPath(g, p) && p[0] in heads
    ensures Followed(depths[queue[0].0 := queue[0].1], queue[1..] + Below(g[queue[0].0], queue[0].1), p)
  {
    var (x, d) := queue[0];
    var depths', queue' := depths[x := d], queue[1..] + Below(g[x], d);
    assert Followed(depths, queue, p);
    if p[|p| - 1] in depths && depths[p[|p| - 1]] >= |p| - 1 {
    } else {
      var j: nat :| j < |p| && (p[j], j) in queue;
      if (p[j], j) == queue[0] {
        if j < |p| - 1 {
          assert p[j + 1] in g[p[j]];
          var c :| 0 <= c < |g[x]| && g[x][c] == p[j + 1];
          assert Below(g[x], d)[c] == (p[j + 1], j + 1);
          assert queue'[|queue| - 1 + c] == (p[j + 1], j + 1);
        }
      } else {
        assert queue == [queue[0]] + queue[1..];
        assert (p[j], j) in queue[1..];
        assert (p[j], j) in queue';
      }
    }
  }

  lemma VisitLayered(g: Graph, depths: map<Ident, nat>, queue: seq<Entry>, maxDepth: nat, xs: seq<Ident>)
    requires Layered(depths, queue, maxDepth) && queue != []
    ensures Layered(depths[queue[0].0 := queue[0].1], queue[1..] + Below(xs, queue[0].1), queue[0].1)
  {
    var queue' := queue[1..] + Below(xs, queue[0].1);
    forall i | 0 <= i < |queue'|
      ensures queue'[i] == if i < |queue| - 1 then queue[i + 1] else (xs[i + 1 - |queue|], queue[0].1 + 1) {
    }
    assert forall i :: 0 <= i < |queue| ==> queue[0].1 <= queue[i].1 <= queue[0].1 + 1;
  }

  lemma VisitDepths(g: Graph, heads: set<Ident>, x: Ident, d: nat, y: Ident)
    requires Closed(g) && HasDepth(g, heads, x, d) && x in g && y in g[x]
    ensures HasDepth(g, heads, y, d + 1)
  {
    var p :| DepthPath(g, heads, p, x, d);
    var c :| 0 <= c < |g[x]| && g[x][c] == y;
    PathTo(g, p, y);
    assert (p + [y])[0] == p[0];
    assert DepthPath(g, heads, p + [y], y, d + 1);
  }

  lemma Visit(g: Graph, heads: set<Ident>, depths: map<Ident, nat>, queue: seq<Entry>, maxDepth: nat)
    requires Closed(g) && Measure(g, heads, depths, queue, maxDepth) && queue != []
    ensures queue[0].0 in g && queue[0].1 >= maxDepth
    ensures Measure(g, heads, depths[queue[0].0 := queue[0].1], queue[1..]
                    + Below(g[queue[0].0], queue[0].1), queue[0].1)
  {
    assert Look(Part.DepthSearch);
    var (x, d) := queue[0];
    assert HasDepth(g, heads, queue[0].0, queue[0].1);
    assert x in g by { var p :| DepthPath(g, heads, p, x, d); }
    var depths', queue' := depths[x := d], queue[1..] + Below(g[x], d);
    VisitLayered(g, depths, queue, maxDepth, g[x]);
    forall y | y in depths' ensures HasDepth(g, heads, y, depths'[y]) {
      assert y != x ==> HasDepth(g, heads, y, depths[y]);
    }
    forall i | 0 <= i < |queue'| ensures HasDepth(g, heads, queue'[i].0, queue'[i].1) {
      if i < |queue| - 1 {
        assert HasDepth(g, heads, queue[i + 1].0, queue[i + 1].1);
        assert queue'[i] == queue[i + 1];
      } else {
        assert queue'[i] == Below(g[x], d)[i + 1 - |queue|];
        VisitDepths(g, heads, x, d, g[x][i + 1 - |queue|]);
      }
    }
    forall p | IsPath(g, p) && p[0] in heads ensures Followed(depths', queue', p) {
      VisitFollowed(g, heads, depths, queue, maxDepth, p);
    }
  }

  lemma Measured(g: Graph, heads: set<Ident>, depths: map<Ident, nat>, maxDepth: nat)
    requires Measure(g, heads, depths, [], maxDepth)
    ensures forall x :: x in depths ==> LongestDepth(g, heads, x, depths[x]) && depths[x] <= maxDepth
    ensures forall x, d: nat :: HasDepth(g, heads, x, d) ==> x in depths
  {
    assert Look(Part.DepthSearch);
    forall x, d: nat | HasDepth(g, heads, x, d) ensures x in depths && d <= depths[x] {
      var p :| DepthPath(g, heads, p, x, d);
      assert Followed(depths, [], p);
    }
  }

  lemma StartMeasuring(g: Graph, heads: set<Ident>, queue: seq<Entry>)
    requires heads <= g.Keys
    requires forall i :: 0 <= i < |queue| ==> queue[i].0 in heads && queue[i].1 == 0
    requires forall x :: x in heads ==> (x, 0) in queue
    ensures Measure(g, heads, map[], queue, 0)
  {
    forall i | 0 <= i < |queue| ensures HasDepth(g, heads, queue[i].0, queue[i].1) {
      assert DepthPath(g, heads, [queue[i].0], queue[i].0, 0);
    }
    forall p | IsPath(g, p) && p[0] in heads ensures Followed(map[], queue, p) {
      assert (p[0], 0) in queue;
    }
  }

  lemma {:induction false} BelowPending(g: Graph, queue: seq<Entry>, xs: seq<Ident>, d: nat)
    ensures Pending(g, queue + Below(xs, d)) == Pending(g, queue) + SumPaths(g, xs, |g|)
    decreases |xs|
  {
    if xs == [] {
      assert queue + Below(xs, d) == queue;
    } else {
      var init, x := xs[..|xs| - 1], xs[|xs| - 1];
      BelowPending(g, queue, init, d);
      assert queue + Below(xs, d) == queue + Below(init, d) + [(x, d + 1)];
      PendingAppend(g, queue + Below(init, d), (x, d + 1));
      assert xs == init + [x];
      SumAppend(g, init, x, |g|);
    }
  }

  /** The depth of everything that can be reached from `heads`: the number of edges of a longest path.  The
      search comes to an end because there are no cycles; it ends with the right depths because the last
      depth that it writes for a facet is the greatest. */
  method FindDepths(graph: Graph, heads: set<Ident>) returns (identDepths: map<Ident, nat>, maxDepth: nat)
    requires Closed(graph) && Acyclic(graph) && heads <= graph.Keys
    ensures forall x :: x in identDepths ==> LongestDepth(graph, heads, x, identDepths[x]) && identDepths[x] <= maxDepth
    ensures forall x, d: nat :: HasDepth(graph, heads, x, d) ==> x in identDepths
  {
    identDepths, maxDepth := map[], 0;
    var queue: seq<Entry> := QueueHeads(heads);
    StartMeasuring(graph, heads, queue);
    while queue != []
      invariant Measure(graph, heads, identDepths, queue, maxDepth)
      decreases Pending(graph, queue)
    {
      ghost var first := queue;
      Visit(graph, heads, identDepths, queue, maxDepth);
      var (ident, depth) := queue[0];
      queue := queue[1..];
      identDepths := identDepths[ident := depth];
      maxDepth := depth;
      queue := QueueDeps(graph[ident], queue, depth);
      CountLevel(graph, ident);
      BelowPending(graph, first[1..], graph[ident], depth);
    }
    Measured(graph, heads, identDepths, maxDepth);
  }

  /** The heads, in any order. */
  method QueueHeads(heads: set<Ident>) returns (queue: seq<Entry>)
    ensures forall i :: 0 <= i < |queue| ==> queue[i].0 in heads && queue[i].1 == 0
    ensures forall x :: x in heads ==> (x, 0) in queue
  {
    queue := [];
    var rest := heads;
    while rest != {}
      invariant rest <= heads
      invariant forall i :: 0 <= i < |queue| ==> queue[i].0 in heads && queue[i].1 == 0
      invariant forall x :: x in heads - rest ==> (x, 0) in queue
    {
      var head :| head in rest;
      rest := rest - {head};
      queue := queue + [(head, 0)];
    }
  }

  method QueueDeps(deps: seq<Ident>, queue: seq<Entry>, depth: nat) returns (queue': seq<Entry>)
    ensures queue' == queue + Below(deps, depth)
  {
    queue' := queue;
    for i := 0 to |deps|
      invariant queue' == queue + Below(deps[..i], depth)
    {
      assert Below(deps[..i + 1], depth) == Below(deps[..i], depth) + [(deps[i], depth + 1)];
      queue' := queue' + [(deps[i], depth + 1)];
    }
    assert deps[..|deps|] == deps;
  }
}
