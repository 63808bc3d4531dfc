/** Finite directed graphs: every vertex is mapped to the list of its successors. */
module Digraph {
  ghost predicate Closed<V(!new)>(g: map<V, seq<V>>) {
    forall v, k :: v in g && 0 <= k < |g[v]| ==> g[v][k] in g
  }

  ghost predicate Step<V(!new)>(g: map<V, seq<V>>, p: seq<V>, i: int) {
    0 < i < |p| ==> p[i - 1] in g && p[i] in g[p[i - 1]]
  }

  /** Every vertex but the first is a successor of the one before it. */
  ghost predicate IsWalk<V(!new)>(g: map<V, seq<V>>, p: seq<V>) {
    p != [] && forall i {:trigger Step(g, p, i)} :: Step(g, p, i)
  }

  lemma WalkTo<V(!new)>(g: map<V, seq<V>>, p: seq<V>, w: V)
    requires IsWalk(g, p) && p[|p| - 1] in g && w in g[p[|p| - 1]]
    ensures IsWalk(g, p + [w])
  {
    forall i ensures Step(g, p + [w], i) {
      assert Step(g, p, i);
    }
  }

  lemma PathIsWalk<V(!new)>(g: map<V, seq<V>>, p: seq<V>)
    requires IsPath(g, p)
    ensures IsWalk(g, p)
  {
    forall i ensures Step(g, p, i) {
    }
  }

  ghost predicate IsPath<V(!new)>(g: map<V, seq<V>>, p: seq<V>) {
    && p != []
    && (forall i :: 0 <= i < |p| ==> p[i] in g)
    && (forall i :: 0 < i < |p| ==> p[i] in g[p[i - 1]])
  }

  ghost predicate Reachable<V(!new)>(g: map<V, seq<V>>, v: V, w: V) {
    exists p :: IsPath(g, p) && p[0] == v && p[|p| - 1] == w
  }

  /** Some vertex occurs twice. */
  ghost predicate Revisits<V(!new)>(p: seq<V>) {
    exists i, j :: 0 <= i < j < |p| && p[i] == p[j]
  }

  /** A cycle can be reached from `v`. */
  ghost predicate ReachesCycle<V(!new)>(g: map<V, seq<V>>, v: V) {
    exists p :: IsPath(g, p) && p[0] == v && Revisits(p)
  }

  lemma {:induction false} DistinctBound<V>(p: seq<V>, u: set<V>)
    requires forall i :: 0 <= i < |p| ==> p[i] in u
    requires forall i, j :: 0 <= i < j < |p| ==> p[i] != p[j]
    ensures |p| <= |u|
  {
    if p != [] {
      var q, x := p[..|p| - 1], p[|p| - 1];
      assert forall i :: 0 <= i < |q| ==> q[i] == p[i] && q[i] in u - {x};
      DistinctBound(q, u - {x});
    }
  }

  /** A path with more vertices than the graph revisits one of them. */
  lemma LongPathRevisits<V(!new)>(g: map<V, seq<V>>, p: seq<V>)
    requires IsPath(g, p) && |p| > |g|
    ensures Revisits(p)
  {
    if !Revisits(p) {
      assert forall i :: 0 <= i < |p| ==> p[i] in g.Keys;
      DistinctBound(p, g.Keys);
    }
  }

  lemma PathFrom<V(!new)>(g: map<V, seq<V>>, v: V, p: seq<V>)
    requires IsPath(g, p) && v in g && p[0] in g[v]
    ensures IsPath(g, [v] + p)
  {
    var q := [v] + p;
    assert forall i :: 0 < i < |q| ==> q[i] == p[i - 1];
  }

  lemma SubPath<V(!new)>(g: map<V, seq<V>>, p: seq<V>, i: nat, j: nat)
    requires IsPath(g, p) && i < j <= |p|
    ensures IsPath(g, p[i..j]) && p[i..j][0] == p[i] && p[i..j][j - i - 1] == p[j - 1]
  {
    var q := p[i..j];
    assert forall k :: 0 <= k < |q| ==> q[k] == p[i + k];
  }

  lemma PathTo<V(!new)>(g: map<V, seq<V>>, p: seq<V>, w: V)
    requires IsPath(g, p) && w in g && w in g[p[|p| - 1]]
    ensures IsPath(g, p + [w])
  {
    var q := p + [w];
    assert forall i :: 0 < i < |p| ==> q[i] == p[i];
  }

  /** A path that starts in a closed part of a graph stays in it. */
  lemma {:induction false} PathInPart<V(!new)>(g: map<V, seq<V>>, h: map<V, seq<V>>, p: seq<V>, n: nat)
    requires Closed(g) && (forall v :: v in g ==> v in h && h[v] == g[v])
    requires IsPath(h, p) && p[0] in g && n <= |p|
    ensures forall i :: 0 <= i < n ==> p[i] in g
    ensures n > 0 ==> IsPath(g, p[..n])
  {
    if n > 1 {
      PathInPart(g, h, p, n - 1);
      assert p[n - 1] in h[p[n - 2]];
      var c :| 0 <= c < |g[p[n - 2]]| && g[p[n - 2]][c] == p[n - 1];
      assert p[..n] == p[..n - 1] + [p[n - 1]];
      PathTo(g, p[..n - 1], p[n - 1]);
    }
  }

  lemma ReachableInPart<V(!new)>(g: map<V, seq<V>>, h: map<V, seq<V>>, v: V, w: V)
    requires Closed(g) && v in g && (forall u :: u in g ==> u in h && h[u] == g[u])
    ensures Reachable(g, v, w) <==> Reachable(h, v, w)
  {
    if Reachable(h, v, w) {
      var p :| IsPath(h, p) && p[0] == v && p[|p| - 1] == w;
      PathInPart(g, h, p, |p|);
      assert p[..|p|] == p;
    }
    if Reachable(g, v, w) {
      var p :| IsPath(g, p) && p[0] == v && p[|p| - 1] == w;
      assert IsPath(h, p);
    }
  }
}
