/** What a traversal of a directed graph computes: the recursive fold of what is below a value, which
    exists exactly when no cycle is below it. */
module DagFold {
  import opened Common
  import opened Digraph

  type In(==, !new)
  type OutCtx(!new)
  type Out(!new)

  /** The result of unfolding a value. */
  datatype Unfolded = Unfolded(context: OutCtx, children: seq<In>)

  /** A traversal from `init`; `unfold` and `fold` are the callbacks. */
  datatype Problem = Problem(init: In, unfold: In -> Unfolded, fold: (OutCtx, seq<Out>) -> Out)

  type Graph = map<In, seq<In>>

  /** The fold of `v` by a recursion of depth at most `n`, or nothing if that is not deep enough. */
  ghost function FoldAt(pb: Problem, g: Graph, v: In, n: nat): Option<Out>
    decreases n
  {
    if n == 0 || v !in g then None
    else if forall c :: 0 <= c < |g[v]| ==> FoldAt(pb, g, g[v][c], n - 1).Some? then
      Some(pb.fold(pb.unfold(v).context,
                   seq(|g[v]|, c requires 0 <= c < |g[v]| && FoldAt(pb, g, g[v][c], n - 1).Some? =>
                     FoldAt(pb, g, g[v][c], n - 1).value)))
    else None
  }

  /** The recursive fold of `v`; nothing if it does not exist. */
  ghost function RecFold(pb: Problem, g: Graph, v: In): Option<Out> {
    FoldAt(pb, g, v, |g|)
  }

  /** One level of the recursion, from given results of the children. */
  lemma FoldLevel(pb: Problem, g: Graph, v: In, n: nat, outs: seq<Out>)
    requires v in g && |outs| == |g[v]|
    requires forall c :: 0 <= c < |outs| ==> FoldAt(pb, g, g[v][c], n) == Some(outs[c])
    ensures FoldAt(pb, g, v, n + 1) == Some(pb.fold(pb.unfold(v).context, outs))
  {
    var results := seq(|g[v]|, c requires 0 <= c < |g[v]| && FoldAt(pb, g, g[v][c], n).Some? =>
      FoldAt(pb, g, g[v][c], n).value);
    assert results == outs;
  }

  /** The results of the children, for a value that has a fold. */
  lemma FoldInverse(pb: Problem, g: Graph, v: In, n: nat) returns (outs: seq<Out>)
    requires FoldAt(pb, g, v, n).Some?
    ensures n > 0 && v in g && |outs| == |g[v]|
    ensures forall c :: 0 <= c < |outs| ==> FoldAt(pb, g, g[v][c], n - 1) == Some(outs[c])
    ensures FoldAt(pb, g, v, n) == Some(pb.fold(pb.unfold(v).context, outs))
  {
    outs := seq(|g[v]|, c requires 0 <= c < |g[v]| && FoldAt(pb, g, g[v][c], n - 1).Some? =>
      FoldAt(pb, g, g[v][c], n - 1).value);
    FoldLevel(pb, g, v, n - 1, outs);
  }

  /** A deeper recursion has the same result. */
  lemma {:induction false} FoldDeeper(pb: Problem, g: Graph, v: In, n: nat, m: nat)
    requires FoldAt(pb, g, v, n).Some? && n <= m
    ensures FoldAt(pb, g, v, m) == FoldAt(pb, g, v, n)
    decreases n
  {
    var outs := FoldInverse(pb, g, v, n);
    forall c | 0 <= c < |outs| ensures FoldAt(pb, g, g[v][c], m - 1) == Some(outs[c]) {
      FoldDeeper(pb, g, g[v][c], n - 1, m - 1);
    }
    FoldLevel(pb, g, v, m - 1, outs);
  }

  /** Along a path, the recursion gets shallower with every step. */
  lemma {:induction false} FoldAlong(pb: Problem, g: Graph, p: seq<In>, n: nat)
    requires IsPath(g, p) && FoldAt(pb, g, p[0], n).Some?
    ensures n >= |p| && FoldAt(pb, g, p[|p| - 1], n + 1 - |p|).Some?
    decreases |p|
  {
    var outs := FoldInverse(pb, g, p[0], n);
    if |p| > 1 {
      SubPath(g, p, 1, |p|);
      var c :| 0 <= c < |g[p[0]]| && g[p[0]][c] == p[1];
      FoldAlong(pb, g, p[1..], n - 1);
    }
  }

  /** Nothing on a cycle has a fold. */
  lemma {:induction false} NoFoldOnCycle(pb: Problem, g: Graph, p: seq<In>, n: nat)
    requires IsPath(g, p) && |p| > 1 && p[0] == p[|p| - 1]
    ensures FoldAt(pb, g, p[0], n).None?
    decreases n
  {
    if FoldAt(pb, g, p[0], n).Some? {
      FoldAlong(pb, g, p, n);
      NoFoldOnCycle(pb, g, p, n + 1 - |p|);
    }
  }

  lemma NoFoldBeforeCycle(pb: Problem, g: Graph, v: In, n: nat)
    requires ReachesCycle(g, v)
    ensures FoldAt(pb, g, v, n).None?
  {
    var p :| IsPath(g, p) && p[0] == v && Revisits(p);
    var i, j :| 0 <= i < j < |p| && p[i] == p[j];
    if FoldAt(pb, g, v, n).Some? {
      SubPath(g, p, 0, i + 1);
      FoldAlong(pb, g, p[0..i + 1], n);
      SubPath(g, p, i, j + 1);
      NoFoldOnCycle(pb, g, p[i..j + 1], n - i);
    }
  }

  /** A recursion that is not deep enough has a path to show for it. */
  lemma {:induction false} DeepPath(pb: Problem, g: Graph, v: In, n: nat) returns (p: seq<In>)
    requires Closed(g) && v in g && FoldAt(pb, g, v, n).None?
    ensures IsPath(g, p) && p[0] == v && |p| == n + 1
    decreases n
  {
    p := [v];
    if n > 0 {
      var c :| 0 <= c < |g[v]| && FoldAt(pb, g, g[v][c], n - 1).None?;
      var q := DeepPath(pb, g, g[v][c], n - 1);
      PathFrom(g, v, q);
      p := p + q;
    }
  }

  /** The recursive fold exists exactly when no cycle can be reached. */
  lemma FoldExists(pb: Problem, g: Graph, v: In)
    requires Closed(g) && v in g
    ensures RecFold(pb, g, v).None? <==> ReachesCycle(g, v)
  {
    if RecFold(pb, g, v).None? {
      var p := DeepPath(pb, g, v, |g|);
      LongPathRevisits(g, p);
    } else if ReachesCycle(g, v) {
      NoFoldBeforeCycle(pb, g, v, |g|);
    }
  }

  /** Whatever depth finds a fold finds the recursive fold. */
  lemma FoldUnique(pb: Problem, g: Graph, v: In, n: nat)
    requires Closed(g) && FoldAt(pb, g, v, n).Some?
    ensures RecFold(pb, g, v) == FoldAt(pb, g, v, n)
  {
    FoldExists(pb, g, v);
    if ReachesCycle(g, v) {
      NoFoldBeforeCycle(pb, g, v, n);
    }
    if n <= |g| {
      FoldDeeper(pb, g, v, n, |g|);
    } else {
      FoldDeeper(pb, g, v, |g|, n);
    }
  }

  /** The equation that makes it the recursive fold: the fold of a value is `fold` applied to its context and
      the folds of all its children, in order and with repetitions. */
  lemma FoldEquation(pb: Problem, g: Graph, v: In, outs: seq<Out>)
    requires Closed(g) && v in g && |outs| == |g[v]|
    requires forall c :: 0 <= c < |outs| ==> RecFold(pb, g, g[v][c]) == Some(outs[c])
    ensures RecFold(pb, g, v) == Some(pb.fold(pb.unfold(v).context, outs))
  {
    FoldLevel(pb, g, v, |g|, outs);
    FoldUnique(pb, g, v, |g| + 1);
  }

  /** In a closed part of a graph, folds are the same as in the whole graph. */
  lemma {:induction false} FoldInPart(pb: Problem, g: Graph, h: Graph, v: In, n: nat)
    requires Closed(g) && v in g && (forall w :: w in g ==> w in h && h[w] == g[w])
    ensures FoldAt(pb, g, v, n) == FoldAt(pb, h, v, n)
    decreases n
  {
    if n > 0 {
      forall c | 0 <= c < |g[v]| ensures FoldAt(pb, g, g[v][c], n - 1) == FoldAt(pb, h, h[v][c], n - 1) {
        FoldInPart(pb, g, h, g[v][c], n - 1);
      }
      if FoldAt(pb, g, v, n).Some? {
        var outs := FoldInverse(pb, g, v, n);
        FoldLevel(pb, h, v, n - 1, outs);
      }
    }
  }

  lemma RecFoldInPart(pb: Problem, g: Graph, h: Graph, v: In)
    requires Closed(g) && Closed(h) && v in g && (forall w :: w in g ==> w in h && h[w] == g[w])
    ensures RecFold(pb, g, v) == RecFold(pb, h, v)
  {
    FoldInPart(pb, g, h, v, |g|);
    FoldInPart(pb, g, h, v, |h|);
    if FoldAt(pb, h, v, |g|).Some? {
      FoldUnique(pb, h, v, |g|);
    } else if FoldAt(pb, g, v, |h|).Some? {
      FoldUnique(pb, g, v, |h|);
    }
  }
}
