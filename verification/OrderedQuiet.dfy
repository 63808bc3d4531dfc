/** When a scheduling pass has something to do. */
module OrderedQuiet {
  import opened Common
  import opened OrderedTree
  import opened OrderedSteps
  import opened OrderedPass
  import opened OrderedFlow

  /** The budget of node `n` reaches an input that could be started. */
  predicate Starts(n: NodeState) {
    exists c :: 0 <= c < |n.children| && n.children[c].Unscheduled? && Reached(n, c)
  }

  /** The budget of node `n` reaches a child node that is waiting for some. */
  predicate Grants(n: NodeState) {
    exists c :: 0 <= c < |n.children| && n.children[c].Node? && n.children[c].weight >= 1 && Reached(n, c)
  }

  /** Node `n` has no more budget than it needs, and what it has reaches nothing that could use it. */
  predicate Quiet(n: NodeState) {
    n.budget <= n.remainingWeight && !Starts(n) && !Grants(n)
  }

  ghost predicate AllQuiet(t: Tree) {
    forall i {:trigger Quiet(t[i])} :: i in t ==> Quiet(t[i])
  }

  /** Some node has more budget than it needs. */
  ghost predicate Excess(t: Tree) {
    exists i :: i in t && t[i].budget > t[i].remainingWeight
  }

  /** The trees are the same but for where scheduling starts next time. */
  ghost predicate SameButSkipped(t: Tree, t': Tree) {
    t.Keys == t'.Keys && forall i :: i in t ==> t'[i] == t[i].(scheduleNextIndex := t'[i].scheduleNextIndex)
  }

  // ---------------------------------------------------------------- quiet trees

  lemma {:induction false} GrantsNothing(n: NodeState, k: nat)
    requires k <= |n.children| && !Grants(n)
    ensures Granted(n, k) == 0
  {
    if k > 0 {
      GrantsNothing(n, k - 1);
      assert n.children[k - 1].Node? && n.children[k - 1].weight >= 1 ==> !Reached(n, k - 1);
    }
  }

  lemma QuietChildren(n: NodeState)
    requires LocalOk(n) && !Starts(n) && !Grants(n)
    ensures ScheduledChildren(n, |n.children|) == n.children
  {
    forall c | 0 <= c < |n.children| ensures ScheduledChild(n, c) == n.children[c] {
      assert n.children[c].Unscheduled? || n.children[c].Node? ==> Reached(n, c) || Take(n, c) == 0;
    }
  }

  lemma QuietArrival(t: Tree, top: nat, x: nat)
    requires Linked(t, top) && AllQuiet(t) && x in t
    ensures Arrival(t, x) == 0
  {
    if x != 0 {
      assert ParentLinked(t, x);
      var p := t[x].parent.value;
      assert Quiet(t[p.nodeIndex]) && t[p.nodeIndex].children[p.childIndex].Node?;
      assert Reached(t[p.nodeIndex], p.childIndex) || Take(t[p.nodeIndex], p.childIndex) == 0;
    }
  }

  lemma {:induction false} QuietGathered(t: Tree, top: nat, x: nat, k: nat)
    requires Linked(t, top) && AllQuiet(t) && x in t && k <= |t[x].children|
    ensures Gathered(t, top, x, k) == t[x].budget
    decreases top - x, k
  {
    if k == 0 {
      QuietArrival(t, top, x);
    } else {
      QuietGathered(t, top, x, k - 1);
      var ch := t[x].children[k - 1];
      if ch.Node? && ch.nodeIndex in t && x < ch.nodeIndex <= top {
        QuietGathered(t, top, ch.nodeIndex, |t[ch.nodeIndex].children|);
        assert Quiet(t[ch.nodeIndex]);
        assert Surplus(t, top, ch.nodeIndex) == 0;
      }
      assert PassedBy(t, top, x, ch) == 0;
    }
  }

  lemma QuietNode(t: Tree, top: nat, x: nat)
    requires Linked(t, top) && AllLocalOk(t) && AllQuiet(t) && x in t
    ensures PassNode(t, top, x) == t[x].(scheduleNextIndex := PassNode(t, top, x).scheduleNextIndex)
    ensures Surplus(t, top, x) == 0
  {
    assert Quiet(t[x]) && LocalOk(t[x]);
    QuietGathered(t, top, x, |t[x].children|);
    GrantsNothing(t[x], |t[x].children|);
    QuietChildren(t[x]);
  }

  /** A node that a pass leaves as it is was quiet. */
  lemma UnchangedQuiet(t: Tree, top: nat, x: nat)
    requires x in t && LocalOk(t[x])
    requires PassNode(t, top, x) == t[x].(scheduleNextIndex := PassNode(t, top, x).scheduleNextIndex)
    ensures Quiet(t[x])
  {
    var n := t[x];
    assert ScheduledChildren(n, |n.children|) == n.children;
    forall c | 0 <= c < |n.children| && Reached(n, c)
      ensures !n.children[c].Unscheduled? && !(n.children[c].Node? && n.children[c].weight >= 1)
    {
      assert ScheduledChildren(n, |n.children|)[c] == ScheduledChild(n, c);
    }
  }

  /** A scheduling pass changes no child, no weight and no budget exactly when all nodes are quiet; then no budget
      leaves the tree either. */
  lemma QuietIffUnchanged(t: Tree, top: nat)
    requires Linked(t, top) && AllLocalOk(t)
    ensures AllQuiet(t) <==> SameButSkipped(t, PassTree(t, top))
    ensures AllQuiet(t) ==> Surplus(t, top, 0) == 0
  {
    if AllQuiet(t) {
      forall x | x in t
        ensures PassTree(t, top)[x] == t[x].(scheduleNextIndex := PassTree(t, top)[x].scheduleNextIndex) {
        QuietNode(t, top, x);
      }
      QuietNode(t, top, 0);
    }
    if SameButSkipped(t, PassTree(t, top)) {
      forall x | x in t ensures Quiet(t[x]) {
        UnchangedQuiet(t, top, x);
      }
    }
  }

  // ---------------------------------------------------------------- progress of a pass

  lemma {:induction false} GrantsSomething(n: NodeState, c: nat, k: nat)
    requires c < k <= |n.children| && n.children[c].Node? && n.children[c].weight >= 1 && Reached(n, c)
    ensures Granted(n, k) >= 1
  {
    if c < k - 1 {
      GrantsSomething(n, c, k - 1);
    }
  }

  lemma {:induction false} GrantedWithinWeight(n: NodeState, k: nat)
    requires LocalOk(n) && k <= |n.children|
    ensures Granted(n, k) <= TotalWeight(n.children[..k])
  {
    if k > 0 {
      GrantedWithinWeight(n, k - 1);
      WeightStep(n.children, k - 1);
    }
  }

  lemma NodeWeightFalls(t: Tree, top: nat, x: nat)
    requires x in t && LocalOk(t[x])
    ensures PassNode(t, top, x).remainingWeight <= t[x].remainingWeight
    ensures Grants(t[x]) ==> PassNode(t, top, x).remainingWeight < t[x].remainingWeight
    ensures PassNode(t, top, x).budget <= PassNode(t, top, x).remainingWeight
  {
    var n := t[x];
    GrantedWithinWeight(n, |n.children|);
    assert n.children[..|n.children|] == n.children;
    if Grants(n) {
      var c :| 0 <= c < |n.children| && n.children[c].Node? && n.children[c].weight >= 1 && Reached(n, c);
      GrantsSomething(n, c, |n.children|);
    }
  }

  lemma {:induction false} CountGrows(cs: seq<Child>, cs': seq<Child>, k: nat)
    requires k <= |cs| == |cs'|
    requires forall c :: 0 <= c < |cs| && cs[c].Pending? ==> cs'[c].Pending?
    ensures CountPending(cs[..k]) <= CountPending(cs'[..k])
  {
    if k > 0 {
      CountGrows(cs, cs', k - 1);
      CountStep(cs, k - 1);
      CountStep(cs', k - 1);
    }
  }

  lemma {:induction false} CountGrowsBy(cs: seq<Child>, cs': seq<Child>, c: nat, k: nat)
    requires c < k <= |cs| == |cs'| && !cs[c].Pending? && cs'[c].Pending?
    requires forall d :: 0 <= d < |cs| && cs[d].Pending? ==> cs'[d].Pending?
    ensures CountPending(cs[..k]) < CountPending(cs'[..k])
  {
    CountStep(cs, k - 1);
    CountStep(cs', k - 1);
    if c == k - 1 {
      CountGrows(cs, cs', k - 1);
    } else {
      CountGrowsBy(cs, cs', c, k - 1);
    }
  }

  lemma NodeCountRises(t: Tree, top: nat, x: nat)
    requires x in t && LocalOk(t[x])
    ensures CountPending(PassNode(t, top, x).children) >= CountPending(t[x].children)
    ensures Starts(t[x]) ==> CountPending(PassNode(t, top, x).children) > CountPending(t[x].children)
  {
    var n := t[x];
    var cs := ScheduledChildren(n, |n.children|);
    assert n.children[..|n.children|] == n.children && cs[..|n.children|] == cs;
    CountGrows(n.children, cs, |n.children|);
    if Starts(n) {
      var c :| 0 <= c < |n.children| && n.children[c].Unscheduled? && Reached(n, c);
      assert cs[c] == ScheduledChild(n, c);
      CountGrowsBy(n.children, cs, c, |n.children|);
    }
  }

  /** Unless all nodes are quiet, a pass starts an unfold, uses up weight, or at least collects excess budget; and
      after a pass no node has more budget than it needs. */
  lemma PassProgress(t: Tree, top: nat)
    requires Linked(t, top) && AllLocalOk(t)
    ensures !Excess(PassTree(t, top))
    ensures WeightTotal(PassTree(t, top), top) <= WeightTotal(t, top)
    ensures PendingTotal(PassTree(t, top), top) >= PendingTotal(t, top)
    ensures AllQuiet(t)
         || PendingTotal(PassTree(t, top), top) > PendingTotal(t, top)
         || WeightTotal(PassTree(t, top), top) < WeightTotal(t, top)
         || Excess(t)
  {
    var t' := PassTree(t, top);
    forall x | x in t ensures t'[x].budget <= t'[x].remainingWeight {
      NodeWeightFalls(t, top, x);
    }
    WeightsFall(t, top);
    CountsRise(t, top);
    if !AllQuiet(t) && !Excess(t) {
      var x :| x in t && !Quiet(t[x]);
      SomeFallsOrRises(t, top, x);
    }
  }

  lemma WeightsFall(t: Tree, top: nat)
    requires AllLocalOk(t)
    ensures WeightTotal(PassTree(t, top), top) <= WeightTotal(t, top)
  {
    forall j | 0 <= j < top + 1 ensures At(Weights(PassTree(t, top)), j) <= At(Weights(t), j) {
      if j in t {
        NodeWeightFalls(t, top, j);
      }
    }
    SumMonotone(Weights(PassTree(t, top)), Weights(t), top + 1);
  }

  lemma CountsRise(t: Tree, top: nat)
    requires AllLocalOk(t)
    ensures PendingTotal(PassTree(t, top), top) >= PendingTotal(t, top)
  {
    forall j | 0 <= j < top + 1 ensures At(PendingCounts(t), j) <= At(PendingCounts(PassTree(t, top)), j) {
      if j in t {
        NodeCountRises(t, top, j);
      }
    }
    SumMonotone(PendingCounts(t), PendingCounts(PassTree(t, top)), top + 1);
  }

  lemma SomeFallsOrRises(t: Tree, top: nat, x: nat)
    requires Linked(t, top) && AllLocalOk(t) && x in t && (Starts(t[x]) || Grants(t[x]))
    ensures PendingTotal(PassTree(t, top), top) > PendingTotal(t, top)
         || WeightTotal(PassTree(t, top), top) < WeightTotal(t, top)
  {
    var t' := PassTree(t, top);
    if Grants(t[x]) {
      forall j | 0 <= j < top + 1
        ensures At(Weights(t'), j) <= At(Weights(t), j) && (j == x ==> At(Weights(t'), j) < At(Weights(t), j))
      {
        if j in t {
          NodeWeightFalls(t, top, j);
        }
      }
      SumStrict(Weights(t'), Weights(t), x, top + 1);
    } else {
      forall j | 0 <= j < top + 1
        ensures At(PendingCounts(t), j) <= At(PendingCounts(t'), j)
        ensures j == x ==> At(PendingCounts(t), j) < At(PendingCounts(t'), j)
      {
        if j in t {
          NodeCountRises(t, top, j);
        }
      }
      SumStrict(PendingCounts(t), PendingCounts(t'), x, top + 1);
    }
  }
}
