/** The steps of the cursor and of completed unfolds, on everything the stream keeps consistent. */
module OrderedCursor {
  import opened Common
  import opened OrderedTree
  import opened OrderedSteps
  import opened OrderedFunding
  import opened OrderedPass
  import opened OrderedNode
  import opened OrderedScheduling
  import opened OrderedRelease
  import opened OrderedQuiet

  /** The cursor moves on to the first child that is not yielded. */
  lemma SkipConsistent(t: Tree, top: nat, labels: Labels, pending: map<Location, Input>, at: nat, jobs: seq<Job>,
                       start: nat, f: nat)
    requires Consistent(t, top, labels, pending, at, jobs)
    requires start <= labels[at].done && FirstUnyielded(t[at].children, start, f)
    ensures labels[at].done <= f <= |labels[at].items|
    ensures var labels' := labels[at := labels[at].(done := f)];
            && Consistent(t, top, labels', pending, at, jobs)
            && Remaining(labels', at) == Remaining(labels, at)
            && WorkTotal(t, labels', top) == WorkTotal(t, labels, top)
  {
    assert Look(Part.TreeShape);
    assert PassedOnly(t, labels, at, at);
    SkipStep(t, top, labels, pending, at, f);
  }

  lemma EnterConsistent(t: Tree, top: nat, labels: Labels, pending: map<Location, Input>, at: nat, jobs: seq<Job>)
    requires Consistent(t, top, labels, pending, at, jobs)
    requires labels[at].done < |t[at].children| && t[at].children[labels[at].done].Node?
    ensures var j := t[at].children[labels[at].done].nodeIndex;
            var labels' := labels[at := labels[at].(done := labels[at].done + 1)];
            && Consistent(t, top, labels', pending, j, jobs) && at < j <= top
            && Remaining(labels', j) == Remaining(labels, at)
            && WorkTotal(t, labels', top) == WorkTotal(t, labels, top)
  {
    assert Look(Part.TreeShape);
    EnterStep(t, top, labels, pending, at);
    EnteredLabel(t, top, labels, pending, at);
  }

  lemma EnteredLabel(t: Tree, top: nat, labels: Labels, pending: map<Location, Input>, at: nat)
    requires TreeOk(t, top, labels, pending, at)
    requires labels[at].done < |t[at].children| && t[at].children[labels[at].done].Node?
    ensures var j := t[at].children[labels[at].done].nodeIndex;
            j in labels && j in t && j <= top && labels[j].done <= |labels[j].items| == |t[j].children|
  {
    assert ChildLinked(t, at, labels[at].done);
  }

  /** The parent of a node other than the root, and the slot of the node in it. */
  lemma CursorNode(t: Tree, top: nat, labels: Labels, pending: map<Location, Input>, at: nat, jobs: seq<Job>)
    requires Consistent(t, top, labels, pending, at, jobs)
    ensures at in t && at in labels && LocalOk(t[at]) && labels[at].done <= |t[at].children|
  {
    assert Look(Part.TreeShape);
  }

  lemma ParentSlot(t: Tree, top: nat, labels: Labels, pending: map<Location, Input>, at: nat, jobs: seq<Job>, k: nat)
    requires Consistent(t, top, labels, pending, at, jobs) && k in t
    ensures k == 0 <==> t[k].parent.None?
    ensures LocalOk(t[k])
    ensures k != 0 ==>
              var p := t[k].parent.value;
              && HasChild(t, p) && p.nodeIndex < k && LocalOk(t[p.nodeIndex])
              && ChildAt(t, p).Node? && ChildAt(t, p).nodeIndex == k
  {
    assert Look(Part.TreeShape);
    assert LocalOk(t[k]);
    if k != 0 {
      assert ParentLinked(t, k);
      assert LocalOk(t[t[k].parent.value.nodeIndex]);
    }
  }

  /** The value under the cursor is emitted: nothing is lost and the budget stays where it is. */
  lemma OutputConsistent(t: Tree, t': Tree, top: nat, labels: Labels, pending: map<Location, Input>, at: nat,
                         jobs: seq<Job>)
    requires Consistent(t, top, labels, pending, at, jobs)
    requires labels[at].done < |t[at].children| && t[at].children[labels[at].done].Output?
    requires t' == t[at := SetChild(t[at], labels[at].done, Yielded)] && LocalOk(t'[at])
    ensures var labels' := labels[at := labels[at].(done := labels[at].done + 1)];
            && Consistent(t', top, labels', pending, at, jobs)
            && Remaining(labels, at) == [t[at].children[labels[at].done].out] + Remaining(labels', at)
            && WorkTotal(t', labels', top) == WorkTotal(t, labels, top)
  {
    assert Look(Part.TreeShape);
    OutputStep(t, t', top, labels, pending, at, jobs);
    AllLocalUpdate(t, t', at);
  }

  lemma OutputBudget(t: Tree, t': Tree, top: nat, labels: Labels, pending: map<Location, Input>, at: nat,
                     jobs: seq<Job>,
                     limited: bool, avail: set<nat>, dead: set<nat>)
    requires Consistent(t, top, labels, pending, at, jobs) && FundedPart(limited, t, avail, dead)
    requires labels[at].done < |t[at].children| && t[at].children[labels[at].done].Output?
    requires t' == t[at := SetChild(t[at], labels[at].done, Yielded)]
    ensures FundedPart(limited, t', avail, dead)
    ensures BudgetTotal(t', top) == BudgetTotal(t, top) && WeightTotal(t', top) <= WeightTotal(t, top)
  {
    assert Look(Part.TreeShape);
    assert LocalOk(t[at]);
    OutputSums(t, t', top, at, labels[at].done);
    OutputFunded(t, t', top, at, labels[at].done, limited, avail, dead);
  }

  lemma OutputSums(t: Tree, t': Tree, top: nat, at: nat, c: nat)
    requires Below(t, top) && at in t && LocalOk(t[at]) && c < |t[at].children|
    requires t' == t[at := SetChild(t[at], c, Yielded)]
    ensures BudgetTotal(t', top) == BudgetTotal(t, top) && WeightTotal(t', top) <= WeightTotal(t, top)
  {
    WeightReplaced(t[at].children, c, Yielded);
    OneNodeSums(t, t', at, top);
  }

  lemma OutputFunded(t: Tree, t': Tree, top: nat, at: nat, c: nat, limited: bool, avail: set<nat>, dead: set<nat>)
    requires Linked(t, top) && FundedPart(limited, t, avail, dead)
    requires at in t && c < |t[at].children| && !t[at].children[c].Node? && t' == t[at := SetChild(t[at], c, Yielded)]
    ensures FundedPart(limited, t', avail, dead)
  {
    assert Look(Part.Funds);
    if !limited {
      YieldedNoWorse(t, t', at, c);
      NoWorseFunded(t, t', top, avail, dead);
    }
  }

  lemma YieldedNoWorse(t: Tree, t': Tree, i: nat, c: nat)
    requires i in t && c < |t[i].children| && !t[i].children[c].Node?
    requires t' == t[i := SetChild(t[i], c, Yielded)]
    ensures NoWorse(t, t')
  {
  }

  /** Node `at` marks budget as expired, or gives up expired budget that it does not need. */
  lemma ExpireConsistent(t: Tree, t': Tree, top: nat, labels: Labels, pending: map<Location, Input>, at: nat,
                         jobs: seq<Job>,
                         limited: bool, avail: set<nat>, dead: set<nat>)
    requires Consistent(t, top, labels, pending, at, jobs) && FundedPart(limited, t, avail, dead)
    requires at in t' && t' == t[at := t[at].(budget := t'[at].budget, expired := t'[at].expired)]
    requires t'[at].budget <= t[at].budget && (t'[at].budget < t[at].budget ==> t'[at].budget >= t[at].remainingWeight)
    requires limited || t' == t
    ensures Consistent(t', top, labels, pending, at, jobs) && FundedPart(limited, t', avail, dead)
    ensures BudgetTotal(t', top) + t[at].budget == BudgetTotal(t, top) + t'[at].budget
    ensures t[at].budget <= BudgetTotal(t, top)
    ensures WorkTotal(t', labels, top) == WorkTotal(t, labels, top) && WeightTotal(t', top) == WeightTotal(t, top)
  {
    assert Look(Part.TreeShape) && Look(Part.Funds);
    assert LocalOk(t[at]);
    BudgetChange(t[at], t'[at].budget, t'[at].expired);
    AllLocalUpdate(t, t', at);
    ExpireShape(t, t', top, labels, pending, at, jobs);
    OneNodeSums(t, t', at, top);
  }

  lemma ExpireShape(t: Tree, t': Tree, top: nat, labels: Labels, pending: map<Location, Input>, at: nat, jobs: seq<Job>)
    requires TreeOk(t, top, labels, pending, at) && JobsOk(t, top, jobs, pending)
    requires at in t' && t' == t[at := t[at].(budget := t'[at].budget, expired := t'[at].expired)]
    ensures TreeOk(t', top, labels, pending, at) && JobsOk(t', top, jobs, pending)
    ensures WorkTotal(t', labels, top) == WorkTotal(t, labels, top)
  {
    SameShapeKeepsTree(t, t', top, labels, pending, at);
    SameShapeKeepsJobs(t, t', top, jobs, pending);
    SameShapeKeepsWorks(t, t', labels, top);
  }

  /** A node never holds more budget than there is. */
  lemma BudgetBound(t: Tree, top: nat, labels: Labels, pending: map<Location, Input>, at: nat, jobs: seq<Job>)
    requires Consistent(t, top, labels, pending, at, jobs)
    ensures t[at].budget <= BudgetTotal(t, top)
  {
    assert Look(Part.TreeShape);
    SumAtLeast(Budgets(t), at, top + 1);
  }

  /** A completed node gives its budget to its parent and is gone. */
  ghost predicate NodeCompleted(t: Tree, t': Tree, at: nat) {
    && at in t && t[at].parent.Some? && t[at].parent.value.nodeIndex != at && HasChild(t, t[at].parent.value)
    && var p := t[at].parent.value;
      t' == (t - {at})[p.nodeIndex :=
        SetChild(t[p.nodeIndex], p.childIndex, Yielded).(budget := t[p.nodeIndex].budget + t[at].budget)]
  }

  lemma CompleteConsistent(t: Tree, t': Tree, top: nat, labels: Labels, pending: map<Location, Input>, at: nat,
                           jobs: seq<Job>)
    requires Consistent(t, top, labels, pending, at, jobs)
    requires at != 0 && labels[at].done == |t[at].children| && NodeCompleted(t, t', at)
    requires LocalOk(t'[t[at].parent.value.nodeIndex])
    ensures var p := t[at].parent.value.nodeIndex;
            var labels' := labels - {at};
            && Consistent(t', top, labels', pending, p, jobs)
            && labels'[p].done == t[at].parent.value.childIndex + 1
            && Remaining(labels', p) == Remaining(labels, at)
            && WorkTotal(t', labels', top) == WorkTotal(t, labels, top)
            && t[at].remainingWeight == 0
  {
    assert Look(Part.TreeShape);
    assert LocalOk(t[at]);
    assert PassedOnly(t, labels, at, at);
    CompletedNode(t[at], labels[at].items);
    CompleteStep(t, t', top, labels, pending, at, jobs);
    forall i | i in t' ensures LocalOk(t'[i]) {
      assert LocalOk(t[i]);
    }
  }

  lemma CompleteBudget(t: Tree, t': Tree, top: nat, labels: Labels, pending: map<Location, Input>, at: nat,
                       jobs: seq<Job>,
                       limited: bool, avail: set<nat>, dead: set<nat>)
    requires Consistent(t, top, labels, pending, at, jobs) && FundedPart(limited, t, avail, dead)
    requires at != 0 && labels[at].done == |t[at].children| && NodeCompleted(t, t', at)
    ensures FundedPart(limited, t', avail - {at}, dead - {at})
    ensures BudgetTotal(t', top) == BudgetTotal(t, top) && WeightTotal(t', top) <= WeightTotal(t, top)
  {
    assert Look(Part.TreeShape) && Look(Part.Funds);
    assert LocalOk(t[t[at].parent.value.nodeIndex]);
    assert PassedOnly(t, labels, at, at);
    RemovedSums(t, t', at, top);
    if !limited {
      RemoveNodeFunded(t, t', top, avail, dead, at);
    }
  }

  lemma RootCompleteConsistent(t: Tree, top: nat, labels: Labels, pending: map<Location, Input>, jobs: seq<Job>)
    requires Consistent(t, top, labels, pending, 0, jobs)
    requires labels[0].done == |t[0].children|
    ensures t[0].remainingWeight == 0 && jobs == [] && Remaining(labels, 0) == []
  {
    assert Look(Part.TreeShape);
    assert LocalOk(t[0]);
    RootComplete(t, top, labels, pending, jobs);
  }

  // ---------------------------------------------------------------- surplus

  /** Once budget has expired, subtrees may be left without any. */
  lemma FundedNoMore(limited: bool, t: Tree, avail: set<nat>, dead: set<nat>)
    requires FundedPart(limited, t, avail, dead)
    ensures FundedPart(true, t, avail, dead)
  {
  }

  ghost predicate SettledPart(t: Tree, top: nat, k: nat, s: nat, total: nat, limited: bool, avail: set<nat>,
                              dead: set<nat>) {
    forall part {:trigger Look(part)} :: Look(part) && part == Part.Settling
      ==> Settled(t, top, k, s, total, limited, avail, dead)
  }

  lemma SettleStart(t: Tree, t': Tree, top: nat, labels: Labels, pending: map<Location, Input>, at: nat, jobs: seq<Job>,
                    limited: bool, avail: set<nat>, dead: set<nat>, surplus: nat, total: nat)
    returns (avail': set<nat>, dead': set<nat>)
    requires Consistent(t, top, labels, pending, at, jobs) && FundedPart(limited, t, avail, dead)
    requires t' == t[at := t[at].(budget := Min(t[at].budget, t[at].remainingWeight))]
    requires surplus == SaturatingSub(t[at].budget, t[at].remainingWeight) && total == BudgetTotal(t, top)
    ensures SettledPart(t', top, at, surplus, total, limited, avail', dead')
    ensures Consistent(t', top, labels, pending, at, jobs)
    ensures WorkTotal(t', labels, top) == WorkTotal(t, labels, top) && WeightTotal(t', top) == WeightTotal(t, top)
  {
    assert Look(Part.TreeShape) && Look(Part.Funds);
    BudgetStep(t, t', top, labels, pending, at, jobs, at, t'[at].budget);
    avail', dead' := SettleFirst(t, t', top, at, limited, avail, dead);
  }

  lemma LiftConsistent(t: Tree, t': Tree, top: nat, labels: Labels, pending: map<Location, Input>, at: nat,
                       jobs: seq<Job>,
                       k: nat, s: nat)
    requires Consistent(t, top, labels, pending, at, jobs) && k != 0 && Lifted(t, t', k, s)
    ensures Consistent(t', top, labels, pending, at, jobs)
    ensures WorkTotal(t', labels, top) == WorkTotal(t, labels, top) && WeightTotal(t', top) <= WeightTotal(t, top)
  {
    assert Look(Part.TreeShape);
    assert ParentLinked(t, k);
    LiftedTree(t, t', top, labels, pending, at, jobs, k, s);
    LiftedLocal(t, t', k, s);
  }

  /** One ancestor lowers the slot of node `k` and takes what it needs of its surplus `s`, so that `s'` is left. */
  lemma LiftStep(t: Tree, t': Tree, top: nat, labels: Labels, pending: map<Location, Input>, at: nat, jobs: seq<Job>,
                 k: nat, s: nat, s': nat, total: nat, limited: bool, avail: set<nat>, dead: set<nat>)
    returns (avail': set<nat>, dead': set<nat>)
    requires Consistent(t, top, labels, pending, at, jobs) && SettledPart(t, top, k, s, total, limited, avail, dead)
    requires k != 0 && Lifted(t, t', k, s) && t[k].parent.value.nodeIndex < k
    requires s' == SaturatingSub(t[t[k].parent.value.nodeIndex].budget + s,
                                 t'[t[k].parent.value.nodeIndex].remainingWeight)
    ensures Consistent(t', top, labels, pending, at, jobs)
    ensures SettledPart(t', top, t[k].parent.value.nodeIndex, s', total, limited, avail', dead')
    ensures WorkTotal(t', labels, top) == WorkTotal(t, labels, top) && WeightTotal(t', top) <= WeightTotal(t, top)
    ensures ReleaseUp(t', t[k].parent.value.nodeIndex, s') == ReleaseUp(t, k, s)
  {
    ReleaseStep(t, t', k, s);
    LiftConsistent(t, t', top, labels, pending, at, jobs, k, s);
    avail', dead' := LiftSettled(t, t', top, labels, pending, at, jobs, k, s, total, limited, avail, dead);
  }

  lemma LiftSettled(t: Tree, t': Tree, top: nat, labels: Labels, pending: map<Location, Input>, at: nat, jobs: seq<Job>,
                    k: nat, s: nat, total: nat, limited: bool, avail: set<nat>, dead: set<nat>)
    returns (avail': set<nat>, dead': set<nat>)
    requires Consistent(t, top, labels, pending, at, jobs) && k != 0 && Lifted(t, t', k, s)
    requires SettledPart(t, top, k, s, total, limited, avail, dead)
    ensures var p := t[k].parent.value.nodeIndex;
            SettledPart(t', top, p, SaturatingSub(t[p].budget + s, t'[p].remainingWeight), total, limited, avail',
                        dead')
  {
    assert Look(Part.TreeShape) && Look(Part.Settling);
    avail', dead' := Lift(t, t', top, k, s, total, limited, avail, dead);
  }

  /** The root has no parent: what it gives up leaves the tree. */
  lemma SettleEnd(t: Tree, top: nat, k: nat, s: nat, total: nat, limited: bool, avail: set<nat>, dead: set<nat>)
    requires SettledPart(t, top, k, s, total, limited, avail, dead) && k in t && t[k].parent.None?
    ensures BudgetTotal(t, top) + s == total && FundedPart(limited, t, avail, dead)
  {
    assert Look(Part.Settling);
  }

  // ---------------------------------------------------------------- completed unfolds

  lemma PendingJob(t: Tree, top: nat, labels: Labels, pending: map<Location, Input>, at: nat, jobs: seq<Job>, a: nat)
    requires Consistent(t, top, labels, pending, at, jobs) && a < |jobs|
    ensures PendingAt(t, jobs[a].location) && LocalOk(t[jobs[a].location.nodeIndex])
    ensures ChildAt(t, jobs[a].location).weight >= 1
    ensures forall i :: i in t ==> i <= top
  {
    assert Look(Part.TreeShape);
    assert jobs[a].location in pending;
    assert LocalOk(t[jobs[a].location.nodeIndex]);
  }

  lemma UnfoldEmptyConsistent(t: Tree, t': Tree, top: nat, labels: Labels, pending: map<Location, Input>, at: nat,
                              jobs: seq<Job>,
                              a: nat)
    requires Consistent(t, top, labels, pending, at, jobs)
    requires a < |jobs| && jobs[a].input.items == [] && PendingAt(t, jobs[a].location)
    requires var loc := jobs[a].location;
             t' == t[loc.nodeIndex := SetChild(t[loc.nodeIndex], loc.childIndex, Yielded)] && LocalOk(t'[loc.nodeIndex])
    ensures Consistent(t', top, labels, pending - {jobs[a].location}, at, jobs[..a] + jobs[a + 1..])
    ensures WorkTotal(t', labels, top) < WorkTotal(t, labels, top)
  {
    assert Look(Part.TreeShape);
    UnfoldEmptyStep(t, t', top, labels, pending, at, jobs, a);
    AllLocalUpdate(t, t', jobs[a].location.nodeIndex);
  }

  lemma UnfoldEmptyBudget(t: Tree, t': Tree, top: nat, labels: Labels, pending: map<Location, Input>, at: nat,
                          jobs: seq<Job>,
                          loc: Location, limited: bool, avail: set<nat>, dead: set<nat>)
    requires Consistent(t, top, labels, pending, at, jobs) && FundedPart(limited, t, avail, dead)
    requires PendingAt(t, loc)
    requires t' == t[loc.nodeIndex := SetChild(t[loc.nodeIndex], loc.childIndex, Yielded)]
    ensures FundedPart(limited, t', avail, dead)
    ensures BudgetTotal(t', top) == BudgetTotal(t, top)
  {
    assert Look(Part.TreeShape) && Look(Part.Funds);
    OneNodeSums(t, t', loc.nodeIndex, top);
    if !limited {
      YieldedNoWorse(t, t', loc.nodeIndex, loc.childIndex);
      NoWorseFunded(t, t', top, avail, dead);
    }
  }

  /** The pending child at `loc` became the node `n`, with slot weight `w`. */
  ghost predicate Unfolded(t: Tree, t': Tree, j: nat, loc: Location, w: nat, n: NodeState,
                           items: seq<OrderedTraversal>) {
    && j !in t && PendingAt(t, loc) && w <= ChildAt(t, loc).Weight()
    && FreshChildren(n.children, items) && n.parent == Some(loc) && n.budget == 0 && LocalOk(n)
    && t' == t[loc.nodeIndex := SetChild(t[loc.nodeIndex], loc.childIndex, Node(w, j))][j := n]
    && LocalOk(t'[loc.nodeIndex])
  }

  lemma UnfoldedInTwoSteps(t: Tree, t1: Tree, t': Tree, j: nat, loc: Location, w: nat, n: NodeState,
                           items: seq<OrderedTraversal>)
    requires j !in t && PendingAt(t, loc) && ChildAt(t, loc).weight >= 1 && items != []
    requires FreshChildren(n.children, items) && n.parent == Some(loc) && n.budget == 0 && n.scheduleNextIndex == 0
    requires n.remainingWeight == TotalWeight(n.children) && w == Min(n.remainingWeight, ChildAt(t, loc).Weight())
    requires t1 == t[loc.nodeIndex := SetChild(t[loc.nodeIndex], loc.childIndex, Node(w, j))]
             && LocalOk(t1[loc.nodeIndex])
    requires t' == t1[j := n]
    ensures Unfolded(t, t', j, loc, w, n, items) && w >= 1
  {
    FreshNode(n, items);
  }

  lemma UnfoldedAdded(t: Tree, t': Tree, j: nat, loc: Location, w: nat, n: NodeState, items: seq<OrderedTraversal>)
    requires Unfolded(t, t', j, loc, w, n, items)
    ensures NodeAdded(t, t', j, loc, w, items)
    ensures forall i :: i in t ==> t'[i].budget == t[i].budget
  {
  }

  lemma UnfoldNodeConsistent(t: Tree, t': Tree, top: nat, top': nat, labels: Labels, pending: map<Location, Input>,
                             at: nat, jobs: seq<Job>,
                             a: nat, w: nat, n: NodeState)
    requires top' == top + 1
    requires Consistent(t, top, labels, pending, at, jobs)
    requires a < |jobs| && Unfolded(t, t', top', jobs[a].location, w, n, jobs[a].input.items)
    ensures jobs[a].location.nodeIndex in labels
    ensures jobs[a].location.childIndex < |labels[jobs[a].location.nodeIndex].items|
    ensures var labels' := labels[top' := UnfoldedLabel(labels, jobs[a].location, jobs[a].input.items)];
            && Consistent(t', top', labels', pending - {jobs[a].location}, at, jobs[..a] + jobs[a + 1..])
            && Remaining(labels', at) == Remaining(labels, at) && labels'[at] == labels[at]
            && WorkTotal(t', labels', top') < WorkTotal(t, labels, top)
  {
    assert Look(Part.TreeShape);
    UnfoldedAdded(t, t', top + 1, jobs[a].location, w, n, jobs[a].input.items);
    UnfoldNodeStep(t, t', top, labels, pending, at, jobs, a, w);
    forall i | i in t' ensures LocalOk(t'[i]) {
      assert i in t ==> LocalOk(t[i]);
    }
  }

  lemma UnfoldNodeBudget(t: Tree, t': Tree, top: nat, top': nat, labels: Labels, pending: map<Location, Input>,
                         at: nat, jobs: seq<Job>,
                         loc: Location, w: nat, n: NodeState, items: seq<OrderedTraversal>,
                         limited: bool, avail: set<nat>, dead: set<nat>)
    requires top' == top + 1
    requires Consistent(t, top, labels, pending, at, jobs) && FundedPart(limited, t, avail, dead)
    requires Unfolded(t, t', top', loc, w, n, items) && w >= 1
    ensures FundedPart(limited, t', avail, dead)
    ensures BudgetTotal(t', top') == BudgetTotal(t, top)
  {
    assert Look(Part.TreeShape) && Look(Part.Funds);
    UnfoldedAdded(t, t', top + 1, loc, w, n, items);
    assert forall k :: 0 <= k < top + 1 ==> At(Budgets(t), k) == At(Budgets(t'), k);
    SumSame(Budgets(t), Budgets(t'), top + 1);
    if !limited {
      AddNodeFunded(t, t', top, avail, dead, loc, w, items);
    }
  }

  /** An index that is skipped changes nothing. */
  lemma IndexSkipped(t: Tree, top: nat, top': nat, labels: Labels, pending: map<Location, Input>, at: nat,
                     jobs: seq<Job>)
    requires top' == top + 1
    requires Consistent(t, top, labels, pending, at, jobs)
    ensures Consistent(t, top', labels, pending, at, jobs)
    ensures BudgetTotal(t, top') == BudgetTotal(t, top)
    ensures WorkTotal(t, labels, top') == WorkTotal(t, labels, top)
  {
    assert Look(Part.TreeShape);
    assert top + 1 !in t;
  }

  /** A node fresh from an unfold. */
  lemma FreshNode(n: NodeState, items: seq<OrderedTraversal>)
    requires FreshChildren(n.children, items) && n.remainingWeight == TotalWeight(n.children)
    requires n.scheduleNextIndex == 0
    ensures LocalOk(n)
    ensures items != [] ==> n.remainingWeight >= 1
  {
    if items != [] {
      WeightFits(n.children, 0);
    }
  }

  // ---------------------------------------------------------------- the initial state

  ghost function InitialLabels(items: seq<OrderedTraversal>): Labels {
    map[0 := Label(items, 0, [])]
  }

  /** The tree that a traversal starts with: a root without parent, and nothing else. */
  ghost predicate InitialTree(t: Tree, items: seq<OrderedTraversal>, budget: nat) {
    && t.Keys == {0} && t[0].parent.None? && FreshChildren(t[0].children, items)
    && t[0].remainingWeight == TotalWeight(t[0].children)
    && t[0].budget == Min(budget, t[0].remainingWeight) && t[0].expired == 0 && t[0].scheduleNextIndex == 0
  }

  lemma InitialTreeOk(t: Tree, items: seq<OrderedTraversal>, budget: nat)
    requires InitialTree(t, items, budget)
    ensures TreeOk(t, 0, InitialLabels(items), map[], 0)
  {
    var labels := InitialLabels(items);
    forall i, c | i in t && 0 <= c < |t[i].children| ensures Corresponds(t, labels, map[], i, c) {}
    forall i | i in t ensures PassedOnly(t, labels, 0, i) {}
  }

  lemma InitialJobsOk(t: Tree, items: seq<OrderedTraversal>, budget: nat)
    requires InitialTree(t, items, budget)
    ensures JobsOk(t, 0, [], map[]) && BudgetTotal(t, 0) == t[0].budget
  {
    FreshCounts(t[0].children, items, |items|);
    assert t[0].children[..|items|] == t[0].children;
    forall l: Location ensures !PendingAt(t, l) {}
    assert At(PendingCounts(t), 0) == 0 && Sum(PendingCounts(t), 0) == 0;
    assert Sum(Budgets(t), 0) == 0;
  }

  lemma InitialConsistent(t: Tree, items: seq<OrderedTraversal>, budget: nat)
    requires InitialTree(t, items, budget)
    ensures Consistent(t, 0, InitialLabels(items), map[], 0, [])
    ensures Remaining(InitialLabels(items), 0) == Flatten(items)
    ensures BudgetTotal(t, 0) == t[0].budget
  {
    FreshNode(t[0], items);
    assert items[0..] == items;
    InitialTreeOk(t, items, budget);
    InitialJobsOk(t, items, budget);
  }

  lemma InitialFunded(t: Tree, items: seq<OrderedTraversal>, budget: nat, limited: bool)
    requires InitialTree(t, items, budget) && budget >= 1
    ensures FundedPart(limited, t, if items == [] then {} else {0}, if items == [] then {0} else {})
  {
    FreshNode(t[0], items);
    if items == [] {
      assert DeadOk(t, {0}, 0);
    } else {
      assert AvailOk(t, {0}, {}, 0);
    }
  }

  // ---------------------------------------------------------------- no starvation

  /** With nothing outstanding and the next item blocked, a scheduling pass has something to do. */
  lemma NotStarvedConsistent(t: Tree, top: nat, labels: Labels, pending: map<Location, Input>, at: nat, jobs: seq<Job>,
                             avail: set<nat>, dead: set<nat>)
    requires Consistent(t, top, labels, pending, at, jobs) && FundedPart(false, t, avail, dead)
    requires Blocked(t, labels, at) && jobs == []
    ensures !AllQuiet(t)
  {
    assert Look(Part.TreeShape) && Look(Part.Funds);
    if PendingAt(t, NodeLocation(at, labels[at].done)) {
      NoJobsNoPending(t, top, at, labels[at].done);
    }
    NotStarved(t, top, labels, pending, at, avail, dead);
    var i :| i in t && !FrontIdle(t[i]);
    assert LocalOk(t[i]);
    FrontReached(t[i]);
  }

  /** The first child that is not yielded is reached by any budget. */
  lemma FrontReached(n: NodeState)
    requires LocalOk(n) && !FrontIdle(n)
    ensures !Quiet(n)
  {
    var c :| 0 <= c < |n.children| && (forall d :: 0 <= d < c ==> n.children[d].Yielded?)
             && (n.children[c].Unscheduled? || (n.children[c].Node? && n.children[c].weight >= 1));
    YieldedWeighsNothing(n.children, c);
    assert Reached(n, c);
  }

  lemma NoJobsNoPending(t: Tree, top: nat, i: nat, c: nat)
    requires PendingTotal(t, top) == 0 && i in t && i <= top && c < |t[i].children|
    ensures !t[i].children[c].Pending?
  {
    SumAtLeast(PendingCounts(t), i, top + 1);
    assert t[i].children[..|t[i].children|] == t[i].children;
    if t[i].children[c].Pending? {
      CountPositive(t[i].children, c, |t[i].children|);
    }
  }

  /** The unfold of a child that was an input is that of this input. */
  ghost predicate JobsFrom(t: Tree, jobs: seq<Job>) {
    forall a :: 0 <= a < |jobs| && HasChild(t, jobs[a].location) && ChildAt(t, jobs[a].location).Unscheduled? ==>
      jobs[a].input == ChildAt(t, jobs[a].location).input
  }

  lemma JobsStarted(t: Tree, t': Tree, top: nat, labels: Labels, pending: map<Location, Input>,
                    pending': map<Location, Input>, at: nat, jobs: seq<Job>, jobs': seq<Job>)
    requires Consistent(t, top, labels, pending, at, jobs) && Consistent(t', top, labels, pending', at, jobs')
    ensures JobsFrom(t, jobs')
  {
    assert Look(Part.TreeShape);
    forall a | 0 <= a < |jobs'| && HasChild(t, jobs'[a].location) && ChildAt(t, jobs'[a].location).Unscheduled?
      ensures jobs'[a].input == ChildAt(t, jobs'[a].location).input
    {
      var loc := jobs'[a].location;
      assert loc in pending';
      assert Corresponds(t, labels, pending, loc.nodeIndex, loc.childIndex);
      assert Corresponds(t', labels, pending', loc.nodeIndex, loc.childIndex);
    }
  }

  /** The number of outstanding unfolds never exceeds the budget in the tree. */
  lemma JobsWithinBudget(t: Tree, top: nat, labels: Labels, pending: map<Location, Input>, at: nat, jobs: seq<Job>)
    requires Consistent(t, top, labels, pending, at, jobs)
    ensures |jobs| <= BudgetTotal(t, top)
  {
    assert Look(Part.TreeShape);
    forall i | i in t ensures LocalOk(t[i]) {
      assert LocalOk(t[i]);
    }
    OutstandingWithinBudget(t, top);
  }
}
