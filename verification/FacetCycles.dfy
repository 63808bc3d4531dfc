/** The check that facets do not depend on themselves. */
module FacetCycles {
  import opened Common
  import opened Digraph

  type Ident(==, !new)

  /** A parameter of a factory method: a parameter of the factory, or another facet. */
  datatype FactoryParam = Param(ident: Ident) | Facet(ident: Ident)

  type Params = map<Ident, seq<FactoryParam>>

  type Graph = map<Ident, seq<Ident>>

  /** The facets among the parameters. */
  function Deps(params: seq<FactoryParam>): (deps: seq<Ident>)
    ensures forall x :: x in deps <==> FactoryParam.Facet(x) in params
  {
    if params == [] then []
    else
      assert params == params[..|params| - 1] + [params[|params| - 1]];
      Deps(params[..|params| - 1])
      + match params[|params| - 1] {
          case Param(_) => []
          case Facet(x) => [x]
        }
  }

  /** The dependency graph; facets that are not declared have no entry. */
  ghost function DepGraph(m: Params): Graph {
    map x | x in m :: Deps(m[x])
  }

  /** `w` leads from `x` back to `x`. */
  ghost predicate CycleAt(g: Graph, x: Ident, w: seq<Ident>) {
    IsWalk(g, w) && |w| > 1 && w[0] == x && w[|w| - 1] == x
  }

  ghost predicate OnCycle(g: Graph, x: Ident) {
    exists w :: CycleAt(g, x, w)
  }

  // ---------------------------------------------------------------- breadth-first search

  type Entry = (Ident, seq<Ident>)

  /** The dependencies of `x` were all seen, by routes of length at most `n`. */
  ghost predicate Expanded(g: Graph, seen: map<Ident, seq<Ident>>, x: Ident, n: nat) {
    x in g ==> forall y :: y in g[x] ==> y in seen && |seen[y]| <= n
  }

  ghost predicate EntryOk(g: Graph, top: Ident, seen: map<Ident, seq<Ident>>, e: Entry) {
    && IsWalk(g, [top] + e.1) && ([top] + e.1)[|e.1|] == e.0
    && (e.1 == [] || (e.0 in seen && e.1 == seen[e.0] + [e.0]))
  }

  /** Routes in the queue get longer by at most one, and routes of what was seen are no longer than they are. */
  ghost predicate Layered(seen: map<Ident, seq<Ident>>, queue: seq<Entry>) {
    && (forall i, j :: 0 <= i <= j < |queue| ==> |queue[i].1| <= |queue[j].1| <= |queue[0].1| + 1)
    && (queue != [] ==> forall x :: x in seen ==> |seen[x]| <= |queue[0].1|)
  }

  /** What the search knows of `y`: a route to it, and that it was expanded or will be. */
  ghost predicate SeenOk(g: Graph, top: Ident, seen: map<Ident, seq<Ident>>, queue: seq<Entry>, y: Ident) {
    y in seen ==>
      IsWalk(g, [top] + seen[y] + [y]) && (Expanded(g, seen, y, |seen[y]| + 1) || (y, seen[y] + [y]) in queue)
  }

  /** `seen` has a route to a dependency of whatever was expanded; the rest is in the queue. */
  ghost predicate Searching(g: Graph, top: Ident, seen: map<Ident, seq<Ident>>, queue: seq<Entry>) {
    && Layered(seen, queue)
    && (forall i {:trigger queue[i]} :: 0 <= i < |queue| ==> EntryOk(g, top, seen, queue[i]))
    && (forall x {:trigger SeenOk(g, top, seen, queue, x)} :: SeenOk(g, top, seen, queue, x))
    && (Expanded(g, seen, top, 0) || (top, []) in queue)
  }

  /** The invariant, as the search passes it on. */
  ghost predicate Search(g: Graph, top: Ident, seen: map<Ident, seq<Ident>>, queue: seq<Entry>) {
    forall part {:trigger Look(part)} :: Look(part) && part == Part.CycleSearch ==> Searching(g, top, seen, queue)
  }

  lemma DiscoverLayered(seen: map<Ident, seq<Ident>>, queue: seq<Entry>, x: Ident)
    requires Layered(seen, queue) && queue != []
    ensures Layered(seen[x := queue[0].1], queue + [(x, queue[0].1 + [x])])
  {
    var queue' := queue + [(x, queue[0].1 + [x])];
    forall i, j | 0 <= i <= j < |queue'| ensures |queue'[i].1| <= |queue'[j].1| <= |queue'[0].1| + 1 {
      assert 0 <= i < |queue| ==> |queue[0].1| <= |queue[i].1| <= |queue[0].1| + 1;
    }
  }

  lemma StillExpanded(g: Graph, seen: map<Ident, seq<Ident>>, y: Ident, n: nat, x: Ident, route: seq<Ident>)
    requires Expanded(g, seen, y, n) && x !in seen
    ensures Expanded(g, seen[x := route], y, n)
  {
  }

  lemma DiscoverSeen(g: Graph, top: Ident, seen: map<Ident, seq<Ident>>, queue: seq<Entry>, x: Ident,
                     route: seq<Ident>, y: Ident)
    requires x !in seen && SeenOk(g, top, seen, queue, y) && IsWalk(g, [top] + route + [x])
    ensures SeenOk(g, top, seen[x := route], queue + [(x, route + [x])], y)
  {
    var e := (x, route + [x]);
    assert (queue + [e])[|queue|] == e;
    if y in seen && Expanded(g, seen, y, |seen[y]| + 1) {
      StillExpanded(g, seen, y, |seen[y]| + 1, x, route);
    }
  }

  lemma DiscoverEntry(g: Graph, top: Ident, seen: map<Ident, seq<Ident>>, x: Ident, route: seq<Ident>, e: Entry)
    requires x !in seen && IsWalk(g, [top] + (route + [x]))
    requires EntryOk(g, top, seen, e) || e == (x, route + [x])
    ensures EntryOk(g, top, seen[x := route], e)
  {
  }

  /** Dependency `x` of the first entry is seen for the first time. */
  lemma Discover(g: Graph, top: Ident, seen: map<Ident, seq<Ident>>, queue: seq<Entry>, x: Ident)
    requires Search(g, top, seen, queue) && queue != [] && x !in seen
    requires queue[0].0 in g && x in g[queue[0].0]
    ensures Search(g, top, seen[x := queue[0].1], queue + [(x, queue[0].1 + [x])])
  {
    assert Look(Part.CycleSearch);
    var route := queue[0].1;
    var seen', queue' := seen[x := route], queue + [(x, route + [x])];
    assert EntryOk(g, top, seen, queue[0]);
    WalkTo(g, [top] + route, x);
    assert [top] + route + [x] == [top] + (route + [x]);
    DiscoverLayered(seen, queue, x);
    forall i | 0 <= i < |queue'| ensures EntryOk(g, top, seen', queue'[i]) {
      assert i < |queue| ==> EntryOk(g, top, seen, queue[i]);
      DiscoverEntry(g, top, seen, x, route, queue'[i]);
    }
    forall y ensures SeenOk(g, top, seen', queue', y) {
      assert SeenOk(g, top, seen, queue, y);
      DiscoverSeen(g, top, seen, queue, x, route, y);
    }
    if Expanded(g, seen, top, 0) {
      StillExpanded(g, seen, top, 0, x, route);
    }
  }

  lemma FinishLayered(seen: map<Ident, seq<Ident>>, queue: seq<Entry>)
    requires Layered(seen, queue) && queue != []
    ensures Layered(seen, queue[1..])
  {
    forall i, j | 0 <= i <= j < |queue[1..]| ensures |queue[1..][i].1| <= |queue[1..][j].1| <= |queue[1..][0].1| + 1 {
      assert |queue[i + 1].1| <= |queue[j + 1].1| <= |queue[0].1| + 1 <= |queue[1].1| + 1;
    }
  }

  lemma AllExpanded(g: Graph, seen: map<Ident, seq<Ident>>, queue: seq<Entry>)
    requires Layered(seen, queue) && queue != []
    requires queue[0].0 in g ==> forall y :: y in g[queue[0].0] ==> y in seen
    ensures Expanded(g, seen, queue[0].0, |queue[0].1|)
  {
  }

  /** All dependencies of the first entry were seen. */
  lemma Finish(g: Graph, top: Ident, seen: map<Ident, seq<Ident>>, queue: seq<Entry>)
    requires Search(g, top, seen, queue) && queue != []
    requires queue[0].0 in g ==> forall y :: y in g[queue[0].0] ==> y in seen
    ensures Search(g, top, seen, queue[1..])
  {
    assert Look(Part.CycleSearch);
    AllExpanded(g, seen, queue);
    FinishLayered(seen, queue);
    assert EntryOk(g, top, seen, queue[0]);
    forall i | 0 <= i < |queue[1..]| ensures EntryOk(g, top, seen, queue[1..][i]) {
      assert EntryOk(g, top, seen, queue[i + 1]);
    }
    FinishSeen(g, top, seen, queue);
  }

  lemma FinishSeen(g: Graph, top: Ident, seen: map<Ident, seq<Ident>>, queue: seq<Entry>)
    requires queue != [] && EntryOk(g, top, seen, queue[0]) && Expanded(g, seen, queue[0].0, |queue[0].1|)
    requires forall y {:trigger SeenOk(g, top, seen, queue, y)} :: SeenOk(g, top, seen, queue, y)
    ensures forall y {:trigger SeenOk(g, top, seen, queue[1..], y)} :: SeenOk(g, top, seen, queue[1..], y)
  {
    assert queue == [queue[0]] + queue[1..];
    forall y ensures SeenOk(g, top, seen, queue[1..], y) {
      assert SeenOk(g, top, seen, queue, y);
    }
  }

  /** The search finds the end of every walk, by a route that is no longer. */
  lemma {:induction false} WalkSeen(g: Graph, top: Ident, seen: map<Ident, seq<Ident>>, w: seq<Ident>, n: nat)
    requires Search(g, top, seen, []) && IsWalk(g, w) && w[0] == top && 0 < n < |w|
    ensures w[n] in seen && |seen[w[n]]| < n
  {
    assert Look(Part.CycleSearch);
    assert Step(g, w, n);
    assert SeenOk(g, top, seen, [], w[n - 1]);
    if n > 1 {
      WalkSeen(g, top, seen, w, n - 1);
    }
  }

  lemma RouteIsCycle(g: Graph, top: Ident, seen: map<Ident, seq<Ident>>)
    requires Search(g, top, seen, []) && top in seen
    ensures CycleAt(g, top, [top] + seen[top] + [top])
  {
    assert Look(Part.CycleSearch);
    assert SeenOk(g, top, seen, [], top);
  }

  /** Every facet that is a parameter of a factory method. */
  ghost function Universe(m: Params): set<Ident> {
    set x, i | x in m && 0 <= i < |m[x]| :: m[x][i].ident
  }

  /** Expands `ident`, which was taken from the queue: dependencies seen for the first time are queued. */
  method Expand(ident: Ident, route: seq<Ident>, params: seq<FactoryParam>,
                seen: map<Ident, seq<Ident>>, queue: seq<Entry>, ghost top: Ident, ghost identMap: Params)
    returns (seen': map<Ident, seq<Ident>>, queue': seq<Entry>)
    requires ident in identMap && params == identMap[ident]
    requires Search(DepGraph(identMap), top, seen, [(ident, route)] + queue)
    ensures Search(DepGraph(identMap), top, seen', [(ident, route)] + queue')
    ensures forall x :: x in Deps(params) ==> x in seen'
    ensures |queue'| == |queue| || Universe(identMap) - seen'.Keys < Universe(identMap) - seen.Keys
    ensures Universe(identMap) - seen'.Keys <= Universe(identMap) - seen.Keys
  {
    ghost var g := DepGraph(identMap);
    seen', queue' := seen, queue;
    for i := 0 to |params|
      invariant Search(g, top, seen', [(ident, route)] + queue')
      invariant forall j :: 0 <= j < i && params[j].Facet? ==> params[j].ident in seen'
      invariant |queue'| == |queue| || Universe(identMap) - seen'.Keys < Universe(identMap) - seen.Keys
      invariant seen.Keys <= seen'.Keys
    {
      match params[i] {
        case Facet(paramIdent) =>
          if paramIdent !in seen' {
            assert paramIdent in Deps(params);
            Discover(g, top, seen', [(ident, route)] + queue', paramIdent);
            assert [(ident, route)] + queue' + [(paramIdent, route + [paramIdent])]
                == [(ident, route)] + (queue' + [(paramIdent, route + [paramIdent])]);
            queue' := queue' + [(paramIdent, route + [paramIdent])];
            seen' := seen'[paramIdent := route];
            assert paramIdent in Universe(identMap) - seen.Keys && paramIdent !in Universe(identMap) - seen'.Keys;
          }
        case Param(_) =>
      }
    }
    forall x | x in Deps(params) ensures x in seen' {
      var j :| 0 <= j < |params| && params[j] == FactoryParam.Facet(x);
      assert params[j].Facet? && params[j].ident == x;
    }
  }

  lemma StartSearch(g: Graph, top: Ident)
    ensures Search(g, top, map[], [(top, [])])
  {
    var queue: seq<Entry> := [(top, [])];
    assert queue[0] == (top, []);
  }

  /** The route by which `topIdent` depends on itself, if it does; the result is a shortest one. */
  method CheckNoCycles(topIdent: Ident, identMap: Params) returns (result: Option<seq<Ident>>)
    ensures result.Some? <==> OnCycle(DepGraph(identMap), topIdent)
    ensures result.Some? ==> CycleAt(DepGraph(identMap), topIdent, [topIdent] + result.value + [topIdent])
    ensures result.Some? ==> forall w :: CycleAt(DepGraph(identMap), topIdent, w) ==> |w| >= |result.value| + 2
  {
    ghost var g := DepGraph(identMap);
    var seen: map<Ident, seq<Ident>> := map[];
    var queue: seq<Entry> := [(topIdent, [])];
    StartSearch(g, topIdent);
    while queue != []
      invariant Search(g, topIdent, seen, queue)
      decreases Universe(identMap) - seen.Keys, |queue|
    {
      var (ident, route) := queue[0];
      assert queue == [(ident, route)] + queue[1..];
      queue := queue[1..];
      if ident in identMap {
        seen, queue := Expand(ident, route, identMap[ident], seen, queue, topIdent, identMap);
      }
      Finish(g, topIdent, seen, [(ident, route)] + queue);
      assert ([(ident, route)] + queue)[1..] == queue;
    }
    forall w | CycleAt(g, topIdent, w) ensures topIdent in seen && |w| >= |seen[topIdent]| + 2 {
      WalkSeen(g, topIdent, seen, w, |w| - 1);
    }
    if topIdent in seen {
      RouteIsCycle(g, topIdent, seen);
      return Some(seen[topIdent]);
    }
    return None;
  }
}
