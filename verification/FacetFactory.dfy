/** The order in which a generated asynchronous factory builds its facets. */
module FacetFactory {
  import opened Common
  import opened Digraph
  import opened FacetCycles
  import opened FacetDepths

  /** A facet and the parameters of its factory method. */
  datatype FacetDecl = FacetDecl(ident: Ident, params: seq<FactoryParam>)

  datatype Build =
    | CyclicDependency(ident: Ident, route: seq<Ident>)
    | UnrecognisedFacet(ident: Ident)
    | Built(order: seq<Ident>)

  ghost predicate Distinct<T(!new)>(xs: seq<T>) {
    forall i, j :: 0 <= i < j < |xs| ==> xs[i] != xs[j]
  }

  function Idents(facets: seq<FacetDecl>): (idents: seq<Ident>)
    ensures |idents| == |facets| && forall i :: 0 <= i < |idents| ==> idents[i] == facets[i].ident
  {
    seq(|facets|, i requires 0 <= i < |facets| => facets[i].ident)
  }

  /** The parameters of each facet: of declarations with the same name, the last one counts. */
  ghost function ParamsOf(facets: seq<FacetDecl>): Params {
    if facets == [] then map[]
    else ParamsOf(facets[..|facets| - 1])[facets[|facets| - 1].ident := facets[|facets| - 1].params]
  }

  /** The dependency graph of the declarations. */
  ghost function GraphOf(facets: seq<FacetDecl>): Graph {
    DepGraph(ParamsOf(facets))
  }

  lemma {:induction false} ParamsFrom(facets: seq<FacetDecl>, x: Ident)
    ensures x in ParamsOf(facets) <==> x in Idents(facets)
    ensures x in ParamsOf(facets) ==>
              exists k :: 0 <= k < |facets| && facets[k].ident == x && facets[k].params == ParamsOf(facets)[x]
  {
    if facets != [] {
      var n := |facets| - 1;
      ParamsFrom(facets[..n], x);
      assert Idents(facets) == Idents(facets[..n]) + [facets[n].ident];
      if x == facets[n].ident {
        assert Idents(facets)[n] == x;
      } else if x in ParamsOf(facets) {
        var k :| 0 <= k < n && facets[..n][k].ident == x && facets[..n][k].params == ParamsOf(facets[..n])[x];
        assert facets[k].ident == x;
      }
    }
  }

  lemma ParamsNext(facets: seq<FacetDecl>, i: nat)
    requires i < |facets|
    ensures ParamsOf(facets[..i + 1]) == ParamsOf(facets[..i])[facets[i].ident := facets[i].params]
  {
    assert facets[..i + 1][..i] == facets[..i];
  }

  method CollectParams(facets: seq<FacetDecl>) returns (m: Params)
    ensures m == ParamsOf(facets)
  {
    m := map[];
    for i := 0 to |facets|
      invariant m == ParamsOf(facets[..i])
    {
      ParamsNext(facets, i);
      m := m[facets[i].ident := facets[i].params];
    }
    assert facets[..|facets|] == facets;
  }

  lemma NotOnCycle(g: Graph, x: Ident)
    requires x !in g
    ensures !OnCycle(g, x)
  {
    forall w | IsWalk(g, w) && |w| > 1 ensures w[0] != x {
      assert Step(g, w, 1);
    }
  }

  /** None of the facets before `x` depends on itself. */
  ghost predicate FirstOnCycle(facets: seq<FacetDecl>, x: Ident) {
    exists k :: 0 <= k < |facets| && facets[k].ident == x
                && forall j :: 0 <= j < k ==> !OnCycle(GraphOf(facets), facets[j].ident)
  }

  /** The first facet that depends on itself, if there is one, and a shortest way in which it does. */
  method CheckAll(facets: seq<FacetDecl>, facetParamsMap: Params) returns (r: Option<(Ident, seq<Ident>)>)
    requires facetParamsMap == ParamsOf(facets)
    ensures r.None? <==> Acyclic(GraphOf(facets))
    ensures r.Some? ==>
              && CycleAt(GraphOf(facets), r.value.0, [r.value.0] + r.value.1 + [r.value.0])
              && (forall w :: CycleAt(GraphOf(facets), r.value.0, w) ==> |w| >= |r.value.1| + 2)
              && FirstOnCycle(facets, r.value.0)
  {
    ghost var g := GraphOf(facets);
    for i := 0 to |facets|
      invariant forall j :: 0 <= j < i ==> !OnCycle(g, facets[j].ident)
    {
      var route := CheckNoCycles(facets[i].ident, facetParamsMap);
      if route.Some? {
        assert OnCycle(g, facets[i].ident);
        return Some((facets[i].ident, route.value));
      }
    }
    forall x ensures !OnCycle(g, x) {
      ParamsFrom(facets, x);
      if x in facetParamsMap {
        var k :| 0 <= k < |facets| && facets[k].ident == x;
        assert !OnCycle(g, facets[k].ident);
      } else {
        NotOnCycle(g, x);
      }
    }
    return None;
  }

  /** Some facet depends on `x`. */
  ghost predicate Used(g: Graph, x: Ident) {
    exists y :: y in g && x in g[y]
  }

  /** Facet `x` is a parameter of one of the first `n` factory methods. */
  ghost predicate UsedBy(facets: seq<FacetDecl>, x: Ident, n: nat) {
    exists k :: 0 <= k < n <= |facets| && FactoryParam.Facet(x) in facets[k].params
  }

  /** The declared facets that are no parameter of the first `n` factory methods. */
  ghost predicate AreHeads(facets: seq<FacetDecl>, heads: set<Ident>, n: nat) {
    forall x {:trigger UsedBy(facets, x, n)} {:trigger x in heads} :: x in heads
      <==> x in Idents(facets) && !UsedBy(facets, x, n)
  }

  ghost predicate AllKnown(params: seq<FactoryParam>, known: set<Ident>) {
    forall i :: 0 <= i < |params| && params[i].Facet? ==> params[i].ident in known
  }

  /** Parameter `j` is the first that is a facet which is not known. */
  ghost predicate FirstUnknown(params: seq<FactoryParam>, known: set<Ident>, j: int, x: Ident) {
    0 <= j < |params| && params[j] == FactoryParam.Facet(x) && x !in known && AllKnown(params[..j], known)
  }

  /** Of all parameters of the factory methods, in the order of the source, `x` is the first that is a facet which is
      not declared. */
  ghost predicate FirstUnrecognised(facets: seq<FacetDecl>, x: Ident) {
    exists i, j {:trigger FirstUnknown(facets[i].params, IdentSet(facets), j, x)} ::
      && 0 <= i < |facets| && FirstUnknown(facets[i].params, IdentSet(facets), j, x)
      && forall k :: 0 <= k < i ==> AllKnown(facets[k].params, IdentSet(facets))
  }

  ghost function IdentSet(facets: seq<FacetDecl>): set<Ident> {
    set x | x in Idents(facets)
  }

  /** The facets among the parameters of one factory method; none of them is a head. */
  method CollectDeps(params: seq<FactoryParam>, known: set<Ident>, heads: set<Ident>)
    returns (r: Option<Ident>, deps: seq<Ident>, heads': set<Ident>)
    ensures match r
            case Some(x) => exists j :: FirstUnknown(params, known, j, x)
            case None =>
              && deps == Deps(params) && (forall x :: x in deps ==> x in known) && AllKnown(params, known)
              && heads' == heads - (set x | x in deps)
  {
    r, deps, heads' := None, [], heads;
    for i := 0 to |params|
      invariant deps == Deps(params[..i]) && (forall x :: x in deps ==> x in known)
      invariant heads' == heads - (set x | x in deps)
      invariant AllKnown(params[..i], known)
    {
      assert params[..i + 1][..i] == params[..i];
      match params[i] {
        case Facet(ident) =>
          if ident !in known {
            assert FirstUnknown(params, known, i, ident);
            return Some(ident), deps, heads';
          }
          heads' := heads' - {ident};
          deps := deps + [ident];
        case Param(_) =>
      }
    }
    assert params[..|params|] == params;
  }

  lemma UnknownFound(facets: seq<FacetDecl>, i: nat, x: Ident)
    requires i < |facets| && exists j :: FirstUnknown(facets[i].params, IdentSet(facets), j, x)
    requires forall k :: 0 <= k < i ==> AllKnown(facets[k].params, IdentSet(facets))
    ensures x !in Idents(facets) && UsedBy(facets, x, |facets|) && FirstUnrecognised(facets, x)
  {
    var j :| FirstUnknown(facets[i].params, IdentSet(facets), j, x);
    assert facets[i].params[j] == FactoryParam.Facet(x);
  }

  /** The dependency graph and its heads, or a parameter that is not a facet. */
  method BuildGraph(facets: seq<FacetDecl>) returns (r: Option<Ident>, graph: Graph, heads: set<Ident>)
    ensures match r
            case Some(x) => x !in Idents(facets) && UsedBy(facets, x, |facets|) && FirstUnrecognised(facets, x)
            case None =>
              && graph == GraphOf(facets) && Closed(graph) && AreHeads(facets, heads, |facets|)
              && forall x {:trigger UsedBy(facets, x, |facets|)} :: UsedBy(facets, x, |facets|) ==> x in Idents(facets)
  {
    var idents := Idents(facets);
    var known := set x | x in idents;
    assert known == IdentSet(facets);
    graph, heads := map[], known;
    for i := 0 to |facets|
      invariant BuiltUpTo(facets, i, graph, heads)
    {
      var deps;
      ghost var before := heads;
      r, deps, heads := CollectDeps(facets[i].params, known, heads);
      if r.Some? {
        UnknownFound(facets, i, r.value);
        return;
      }
      BuiltNext(facets, i, graph, before, heads, deps);
      graph := graph[facets[i].ident := deps];
    }
    r := None;
    assert facets[..|facets|] == facets;
    GraphComplete(facets, graph);
  }

  /** The first `i` factory methods are in the graph, and all facets among their parameters are declared. */
  ghost predicate BuiltUpTo(facets: seq<FacetDecl>, i: nat, graph: Graph, heads: set<Ident>) {
    && i <= |facets| && graph == GraphOf(facets[..i]) && AreHeads(facets, heads, i)
    && (forall x {:trigger UsedBy(facets, x, i)} :: UsedBy(facets, x, i) ==> x in IdentSet(facets))
    && forall k :: 0 <= k < i ==> AllKnown(facets[k].params, IdentSet(facets))
  }

  lemma BuiltNext(facets: seq<FacetDecl>, i: nat, graph: Graph, before: set<Ident>, heads: set<Ident>,
                  deps: seq<Ident>)
    requires i < |facets| && BuiltUpTo(facets, i, graph, before)
    requires deps == Deps(facets[i].params) && heads == before - (set x | x in deps)
    requires (forall x :: x in deps ==> x in IdentSet(facets)) && AllKnown(facets[i].params, IdentSet(facets))
    ensures BuiltUpTo(facets, i + 1, graph[facets[i].ident := deps], heads)
  {
    FacetAdded(facets, before, heads, i, deps);
    ParamsNext(facets, i);
  }

  lemma FacetAdded(facets: seq<FacetDecl>, before: set<Ident>, heads: set<Ident>, i: nat, deps: seq<Ident>)
    requires i < |facets| && AreHeads(facets, before, i)
    requires deps == Deps(facets[i].params) && heads == before - (set y | y in deps)
    ensures AreHeads(facets, heads, i + 1)
    ensures forall x {:trigger UsedBy(facets, x, i + 1)} ::
              UsedBy(facets, x, i + 1) <==> UsedBy(facets, x, i) || x in deps
  {
    forall x ensures UsedBy(facets, x, i + 1) <==> UsedBy(facets, x, i) || x in deps {
      if UsedBy(facets, x, i) {
        var k :| 0 <= k < i && FactoryParam.Facet(x) in facets[k].params;
        assert FactoryParam.Facet(x) in facets[k].params;
      }
    }
  }

  /** A facet that another one depends on is a parameter. */
  lemma UsedInGraph(facets: seq<FacetDecl>, x: Ident)
    requires Used(GraphOf(facets), x)
    ensures UsedBy(facets, x, |facets|)
  {
    var y :| y in GraphOf(facets) && x in GraphOf(facets)[y];
    ParamsFrom(facets, y);
    var k :| 0 <= k < |facets| && facets[k].ident == y && facets[k].params == ParamsOf(facets)[y];
    assert FactoryParam.Facet(x) in facets[k].params;
  }

  lemma GraphComplete(facets: seq<FacetDecl>, graph: Graph)
    requires graph == GraphOf(facets)
    requires forall x {:trigger UsedBy(facets, x, |facets|)} :: UsedBy(facets, x, |facets|) ==> x in Idents(facets)
    ensures Closed(graph)
  {
    forall x, k | x in graph && 0 <= k < |graph[x]| ensures graph[x][k] in graph {
      assert graph[x][k] in graph[x];
      UsedInGraph(facets, graph[x][k]);
      ParamsFrom(facets, graph[x][k]);
    }
  }

  // ---------------------------------------------------------------- levels

  /** Without cycles, everything is below some head if whatever no facet depends on is one. */
  lemma {:induction false} BelowHead(g: Graph, heads: set<Ident>, p: seq<Ident>, x: Ident)
    requires Closed(g) && Acyclic(g) && IsPath(g, p) && p[|p| - 1] == x
    requires forall y {:trigger Used(g, y)} :: y in g && !Used(g, y) ==> y in heads
    ensures exists d: nat :: HasDepth(g, heads, x, d)
    decreases |g| + 1 - |p|
  {
    PathsAreShort(g, p);
    if p[0] in heads {
      assert DepthPath(g, heads, p, x, |p| - 1);
      assert HasDepth(g, heads, x, |p| - 1);
    } else {
      assert Used(g, p[0]);
      var y :| y in g && p[0] in g[y];
      PathFrom(g, y, p);
      PathsAreShort(g, [y] + p);
      BelowHead(g, heads, [y] + p, x);
    }
  }

  /** Something that is below a head and not one itself is used. */
  lemma BelowIsUsed(g: Graph, heads: set<Ident>, x: Ident, d: nat)
    requires HasDepth(g, heads, x, d) && x !in heads
    ensures Used(g, x)
  {
    var p :| DepthPath(g, heads, p, x, d);
    assert p[d] in g[p[d - 1]];
  }

  /** A dependency is deeper than what depends on it. */
  lemma DeeperDependency(g: Graph, heads: set<Ident>, depths: map<Ident, nat>, x: Ident, y: Ident)
    requires Closed(g) && x in g && y in g[x] && x in depths && y in depths
    requires LongestDepth(g, heads, x, depths[x]) && LongestDepth(g, heads, y, depths[y])
    ensures depths[x] < depths[y]
  {
    VisitDepths(g, heads, x, depths[x], y);
  }

  ghost predicate LevelOk(depths: map<Ident, nat>, placed: set<Ident>, level: seq<Ident>, d: nat) {
    Distinct(level) && forall x :: x in level <==> x in placed && x in depths && depths[x] == d
  }

  /** The facets of each depth, in any order. */
  method BuildLevels(identDepths: map<Ident, nat>, maxDepth: nat) returns (levels: seq<seq<Ident>>)
    requires forall x :: x in identDepths ==> identDepths[x] <= maxDepth
    ensures |levels| == maxDepth + 1
    ensures forall d :: 0 <= d <= maxDepth ==> LevelOk(identDepths, identDepths.Keys, levels[d], d)
  {
    levels := seq(maxDepth + 1, _ => []);
    var rest := identDepths.Keys;
    while rest != {}
      invariant rest <= identDepths.Keys && |levels| == maxDepth + 1
      invariant forall d :: 0 <= d <= maxDepth ==> LevelOk(identDepths, identDepths.Keys - rest, levels[d], d)
    {
      var ident :| ident in rest;
      var depth := identDepths[ident];
      ghost var before := levels;
      levels := levels[depth := levels[depth] + [ident]];
      forall d | 0 <= d <= maxDepth ensures LevelOk(identDepths, identDepths.Keys - (rest - {ident}), levels[d], d) {
        assert LevelOk(identDepths, identDepths.Keys - rest, before[d], d);
      }
      rest := rest - {ident};
    }
    assert identDepths.Keys - rest == identDepths.Keys;
  }

  /** `order` has the facets of the levels after `d`, deepest first, and the first `i` of level `d`. */
  ghost predicate Ordered(depths: map<Ident, nat>, order: seq<Ident>, level: seq<Ident>, d: int, i: nat) {
    && i <= |level|
    && Distinct(order)
    && (forall x :: x in order <==> x in depths && (depths[x] > d || x in level[..i]))
    && (forall a, b ::
          0 <= a < b < |order| ==> order[a] in depths && order[b] in depths && depths[order[a]] >= depths[order[b]])
  }

  lemma OrderedNext(depths: map<Ident, nat>, order: seq<Ident>, level: seq<Ident>, d: nat, i: nat)
    requires LevelOk(depths, depths.Keys, level, d) && i < |level| && Ordered(depths, order, level, d, i)
    ensures level[i] !in order && Ordered(depths, order + [level[i]], level, d, i + 1)
  {
    assert level[i] in level;
    assert forall k :: 0 <= k < i ==> level[..i][k] == level[k] != level[i];
    assert level[..i + 1] == level[..i] + [level[i]];
    forall a | 0 <= a < |order| ensures order[a] in depths && depths[order[a]] >= d && order[a] != level[i] {
      assert order[a] in order;
      assert order[a] in level[..i] ==> order[a] in level;
    }
  }

  /** The levels from the deepest one on; every facet is built once. */
  method BuildOrder(levels: seq<seq<Ident>>, identDepths: map<Ident, nat>, facetBuildFuts: set<Ident>)
    returns (order: seq<Ident>)
    requires forall d :: 0 <= d < |levels| ==> LevelOk(identDepths, identDepths.Keys, levels[d], d)
    requires forall x :: x in identDepths ==> identDepths[x] < |levels|
    requires facetBuildFuts >= identDepths.Keys
    ensures Ordered(identDepths, order, [], -1, 0)
  {
    order := [];
    var futs := facetBuildFuts;
    var d := |levels|;
    while d > 0
      invariant 0 <= d <= |levels|
      invariant Ordered(identDepths, order, [], d - 1, 0)
      invariant futs == facetBuildFuts - (set x | x in order)
    {
      d := d - 1;
      var idents := levels[d];
      assert forall x :: x in identDepths ==> (identDepths[x] > d <==> !(identDepths[x] <= d));
      for i := 0 to |idents|
        invariant Ordered(identDepths, order, idents, d, i)
        invariant futs == facetBuildFuts - (set x | x in order)
      {
        OrderedNext(identDepths, order, idents, d, i);
        assert idents[i] in idents && idents[i] in futs;
        futs := futs - {idents[i]};
        order := order + [idents[i]];
      }
      assert idents[..|idents|] == idents;
    }
  }

  /** Nothing is built twice, and everything after whatever it depends on. */
  ghost predicate Topological(g: Graph, order: seq<Ident>) {
    && Distinct(order) && (forall x :: x in order ==> x in g)
    && forall i, y :: 0 <= i < |order| && order[i] in g && y in g[order[i]] ==> y in order[..i]
  }

  ghost predicate Complete(g: Graph, order: seq<Ident>) {
    forall x :: x in g ==> x in order
  }

  /** A facet that is a parameter of any factory method is one of a method that counts. */
  ghost predicate LastUsesAll(facets: seq<FacetDecl>) {
    forall x {:trigger Used(GraphOf(facets), x)} :: UsedBy(facets, x, |facets|) ==> Used(GraphOf(facets), x)
  }

  /** All methods count if they have different names. */
  lemma DistinctUsesAll(facets: seq<FacetDecl>)
    requires Distinct(Idents(facets))
    ensures LastUsesAll(facets)
  {
    forall x | UsedBy(facets, x, |facets|) ensures Used(GraphOf(facets), x) {
      var k :| 0 <= k < |facets| && FactoryParam.Facet(x) in facets[k].params;
      ParamsFrom(facets, facets[k].ident);
      assert Idents(facets)[k] == facets[k].ident;
      var j :| 0 <= j < |facets| && facets[j].ident == facets[k].ident
        && facets[j].params == ParamsOf(facets)[facets[k].ident];
      assert Idents(facets)[j] == Idents(facets)[k];
      assert x in GraphOf(facets)[facets[k].ident];
    }
  }

  /** It may be otherwise: here only the first of two methods for `a` has the parameter `b`, which is not built. */
  lemma FirstUsesMore(a: Ident, b: Ident) returns (facets: seq<FacetDecl>)
    requires a != b
    ensures facets == [FacetDecl(a, [FactoryParam.Facet(b)]), FacetDecl(a, []), FacetDecl(b, [])]
    ensures Acyclic(GraphOf(facets)) && Closed(GraphOf(facets)) && !LastUsesAll(facets)
  {
    var first, second, third := FacetDecl(a, [FactoryParam.Facet(b)]), FacetDecl(a, []), FacetDecl(b, []);
    facets := [first, second, third];
    ParamsNext(facets, 0);
    ParamsNext(facets, 1);
    ParamsNext(facets, 2);
    assert facets[..0] == [] && facets[..3] == facets;
    assert ParamsOf(facets) == map[a := [], b := []];
    var g := GraphOf(facets);
    assert forall x :: x in g ==> g[x] == [];
    forall x ensures !OnCycle(g, x) {
      forall w | IsWalk(g, w) && |w| > 1 ensures w[0] != x {
        assert Step(g, w, 1);
      }
    }
    assert FactoryParam.Facet(b) in facets[0].params;
    assert UsedBy(facets, b, 3) && !Used(g, b);
  }

  lemma EarlierInOrder(depths: map<Ident, nat>, order: seq<Ident>, i: nat, y: Ident)
    requires Ordered(depths, order, [], -1, 0) && i < |order| && order[i] in depths && y in depths
    requires depths[order[i]] < depths[y]
    ensures y in order[..i]
  {
    assert y in order;
    var k :| 0 <= k < |order| && order[k] == y;
    assert k < i;
    assert order[..i][k] == y;
  }

  lemma DeepestFirst(g: Graph, heads: set<Ident>, depths: map<Ident, nat>, order: seq<Ident>)
    requires Closed(g) && Ordered(depths, order, [], -1, 0)
    requires forall x {:trigger depths[x]} :: x in depths ==> x in g && LongestDepth(g, heads, x, depths[x])
    requires forall x, d: nat :: HasDepth(g, heads, x, d) ==> x in depths
    ensures Topological(g, order)
  {
    forall i, y | 0 <= i < |order| && order[i] in g && y in g[order[i]] ensures y in order[..i] {
      assert order[i] in order;
      var x := order[i];
      VisitDepths(g, heads, x, depths[x], y);
      DeeperDependency(g, heads, depths, x, y);
      EarlierInOrder(depths, order, i, y);
    }
  }

  lemma MeasuredInGraph(g: Graph, heads: set<Ident>, depths: map<Ident, nat>)
    requires forall x :: x in depths ==> LongestDepth(g, heads, x, depths[x])
    ensures forall x :: x in depths ==> x in g
  {
    forall x | x in depths ensures x in g {
      var p :| DepthPath(g, heads, p, x, depths[x]);
    }
  }

  /** Everything is built if and only if whatever no facet depends on is a head, and that is so if and only if the
      methods that count have all facets as parameters that any method has. */
  lemma AllBuilt(facets: seq<FacetDecl>, heads: set<Ident>, depths: map<Ident, nat>, order: seq<Ident>)
    requires Closed(GraphOf(facets)) && Acyclic(GraphOf(facets)) && AreHeads(facets, heads, |facets|)
    requires forall x :: x in depths ==> LongestDepth(GraphOf(facets), heads, x, depths[x])
    requires forall x, d: nat :: HasDepth(GraphOf(facets), heads, x, d) ==> x in depths
    requires forall x :: x in order <==> x in depths
    requires forall x {:trigger UsedBy(facets, x, |facets|)} :: UsedBy(facets, x, |facets|) ==> x in Idents(facets)
    ensures Complete(GraphOf(facets), order) <==> LastUsesAll(facets)
  {
    var g := GraphOf(facets);
    if LastUsesAll(facets) {
      forall x | x in g ensures x in order {
        UnusedAreHeads(facets, heads);
        assert IsPath(g, [x]);
        BelowHead(g, heads, [x], x);
      }
    }
    if Complete(g, order) {
      forall x | UsedBy(facets, x, |facets|) ensures Used(g, x) {
        ParamsFrom(facets, x);
        assert x in g && x in depths;
        BelowIsUsed(g, heads, x, depths[x]);
      }
    }
  }

  lemma UnusedAreHeads(facets: seq<FacetDecl>, heads: set<Ident>)
    requires AreHeads(facets, heads, |facets|) && LastUsesAll(facets)
    ensures forall y {:trigger Used(GraphOf(facets), y)} ::
              y in GraphOf(facets) && !Used(GraphOf(facets), y) ==> y in heads
  {
    forall y | y in GraphOf(facets) && !Used(GraphOf(facets), y) ensures y in heads {
      ParamsFrom(facets, y);
      assert !UsedBy(facets, y, |facets|);
    }
  }

  /** The order in which the facets are built.  It exists unless a facet depends on itself or some method on
      something that is not a facet; then that is reported, cyclic dependencies first.  It has all facets, unless
      there are methods with the same name, of which only the last counts, and one that does not count has a
      parameter that no other has. */
  method GenAsyncFactoryBuilder(facets: seq<FacetDecl>) returns (result: Build)
    ensures result.CyclicDependency? <==> !Acyclic(GraphOf(facets))
    ensures result.UnrecognisedFacet? <==>
              Acyclic(GraphOf(facets)) && exists x :: x !in Idents(facets) && UsedBy(facets, x, |facets|)
    ensures match result
            case CyclicDependency(ident, route) =>
              && FirstOnCycle(facets, ident) && CycleAt(GraphOf(facets), ident, [ident] + route + [ident])
              && forall w :: CycleAt(GraphOf(facets), ident, w) ==> |w| >= |route| + 2
            case UnrecognisedFacet(ident) =>
              ident !in Idents(facets) && UsedBy(facets, ident, |facets|) && FirstUnrecognised(facets, ident)
            case Built(order) =>
              && Topological(GraphOf(facets), order)
              && (Complete(GraphOf(facets), order) <==> LastUsesAll(facets))
              && (Distinct(Idents(facets)) ==> Complete(GraphOf(facets), order))
  {
    var facetParamsMap := CollectParams(facets);
    var cycle := CheckAll(facets, facetParamsMap);
    if cycle.Some? {
      return CyclicDependency(cycle.value.0, cycle.value.1);
    }
    var unknown, graph, heads := BuildGraph(facets);
    if unknown.Some? {
      return UnrecognisedFacet(unknown.value);
    }
    HeadsInGraph(facets, heads);
    var identDepths, maxDepth := FindDepths(graph, heads);
    MeasuredInGraph(graph, heads, identDepths);
    var levels := BuildLevels(identDepths, maxDepth);
    var order := BuildOrder(levels, identDepths, graph.Keys);
    DeepestFirst(graph, heads, identDepths, order);
    AllBuilt(facets, heads, identDepths, order);
    if Distinct(Idents(facets)) {
      DistinctUsesAll(facets);
    }
    return Built(order);
  }

  lemma HeadsInGraph(facets: seq<FacetDecl>, heads: set<Ident>)
    requires AreHeads(facets, heads, |facets|)
    ensures heads <= GraphOf(facets).Keys
  {
    forall x | x in heads ensures x in GraphOf(facets) {
      ParamsFrom(facets, x);
      assert !UsedBy(facets, x, |facets|);
    }
  }
}
