/** One scheduling pass over the execution tree: what its explicit stack keeps, and why a pass that
    changes nothing has looked at every node. */
module OrderedPass {
  import opened Common
  import opened OrderedTree
  import opened OrderedSteps
  import opened OrderedFunding

  /** State for scheduling the children of a node. */
  datatype NodeSchedule = NodeSchedule(nextChildIndex: nat, budget: nat, pendingCount: nat)

  /** Stack frame for iterative recursion. */
  datatype Frame = Frame(nodeIndex: nat, childIndex: Option<nat>, nodeSchedule: Option<NodeSchedule>, surplus: nat)

  // ---------------------------------------------------------------- one frame

  /** While a schedule has budget left, its node holds at least that much beyond the children already
      considered (or all it needs), and every child node already considered got its whole weight. */
  ghost predicate FrameOk(n: NodeState, s: NodeSchedule) {
    && s.nextChildIndex <= |n.children|
    && (s.budget > 0 ==>
         && n.budget >= Min(TotalWeight(n.children[..s.nextChildIndex]) + s.budget, TotalWeight(n.children))
         && forall c :: 0 <= c < s.nextChildIndex && n.children[c].Node? ==> n.children[c].weight == 0)
  }

  /** Node `n` after child node `c` received `b` from it. */
  ghost function MovedOut(n: NodeState, c: nat, b: nat): NodeState
    requires c < |n.children| && n.children[c].Node? && b <= n.children[c].weight && b <= n.budget
  {
    SetChild(n, c, Node(n.children[c].weight - b, n.children[c].nodeIndex)).(budget := n.budget - b)
  }

  /** The schedule `s` after the child at its position consumed what it could. */
  ghost function Consumed(n: NodeState, s: NodeSchedule, pendingCount: nat): NodeSchedule
    requires s.nextChildIndex < |n.children|
  {
    NodeSchedule(s.nextChildIndex + 1, SaturatingSub(s.budget, n.children[s.nextChildIndex].Weight()), pendingCount)
  }

  lemma FrameSkip(n: NodeState, s: NodeSchedule, pendingCount: nat)
    requires LocalOk(n) && FrameOk(n, s)
    requires s.nextChildIndex < |n.children| && !n.children[s.nextChildIndex].Node?
    ensures FrameOk(n, Consumed(n, s, pendingCount))
  {
    WeightStep(n.children, s.nextChildIndex);
  }

  lemma FrameSchedule(n: NodeState, s: NodeSchedule, pendingCount: nat)
    requires LocalOk(n) && FrameOk(n, s)
    requires s.nextChildIndex < |n.children| && n.children[s.nextChildIndex].Unscheduled?
    requires s.budget > 0
    ensures var n' := SetChild(n, s.nextChildIndex, Pending(n.children[s.nextChildIndex].weight));
            && LocalOk(n') && n'.remainingWeight == n.remainingWeight
            && FrameOk(n', Consumed(n, s, pendingCount))
  {
    var c := s.nextChildIndex;
    var ch := Pending(n.children[c].weight);
    WeightFits(n.children, c);
    SetLighterChild(n, c, ch);
    WeightStep(n.children, c);
    WeightUpdate(n.children, c, ch, c + 1);
    WeightReplaced(n.children, c, ch);
  }

  /** A schedule that still has budget finds it in its node, beyond the children already considered. */
  lemma FrameReserve(n: NodeState, s: NodeSchedule)
    requires LocalOk(n) && FrameOk(n, s)
    requires s.nextChildIndex < |n.children|
    ensures var b := Min(n.children[s.nextChildIndex].Weight(), s.budget);
            b >= 1 ==> n.budget >= TotalWeight(n.children[..s.nextChildIndex]) + b
  {
    WeightFits(n.children, s.nextChildIndex);
  }

  lemma MovedOutReached(n: NodeState, c: nat, b: nat, k: nat)
    requires c < |n.children| && n.children[c].Node? && b <= n.children[c].weight && b <= n.budget
    requires b >= 1 ==> n.budget >= TotalWeight(n.children[..c]) + b
    requires k < |n.children| && n.children[k].Pending? && n.children[k].weight >= 1 && Reached(n, k)
    ensures Reached(MovedOut(n, c, b), k)
  {
    WeightUpdate(n.children, c, Node(n.children[c].weight - b, n.children[c].nodeIndex), k);
    if k < c {
      WeightStep(n.children, k);
      WeightMonotone(n.children, k + 1, c);
    }
  }

  lemma MovedOutFunded(n: NodeState, c: nat, b: nat)
    requires LocalOk(n)
    requires c < |n.children| && n.children[c].Node? && b <= n.children[c].weight
    requires b >= 1 ==> n.budget >= TotalWeight(n.children[..c]) + b
    ensures b <= n.budget && PendingFunded(MovedOut(n, c, b))
  {
    var n' := MovedOut(n, c, b);
    forall k | 0 <= k < |n'.children| && n'.children[k].Pending? ensures Reached(n', k) {
      MovedOutReached(n, c, b, k);
    }
  }

  lemma MovedOutLocal(n: NodeState, c: nat, b: nat)
    requires LocalOk(n)
    requires c < |n.children| && n.children[c].Node? && b <= n.children[c].weight
    requires b >= 1 ==> n.budget >= TotalWeight(n.children[..c]) + b
    ensures b <= n.budget && b <= n.remainingWeight
    ensures LocalOk(MovedOut(n, c, b))
    ensures MovedOut(n, c, b)
            == n.(children := n.children[c := Node(n.children[c].weight - b, n.children[c].nodeIndex)],
                                    remainingWeight := n.remainingWeight - b, budget := n.budget - b)
  {
    WeightReplaced(n.children, c, Node(n.children[c].weight - b, n.children[c].nodeIndex));
    MovedOutFunded(n, c, b);
  }

  /** If a node gives all its budget away, nothing before the receiver weighed anything. */
  lemma WeightlessBefore(n: NodeState, c: nat)
    requires LocalOk(n) && c <= |n.children| && TotalWeight(n.children[..c]) == 0
    ensures forall d :: 0 <= d < c ==>
              n.children[d].Yielded? || (n.children[d].Node? && n.children[d].weight == 0)
  {
    forall d | 0 <= d < c
      ensures n.children[d].Yielded? || (n.children[d].Node? && n.children[d].weight == 0)
    {
      WeightStep(n.children, d);
      WeightMonotone(n.children, d + 1, c);
    }
  }

  lemma FrameMove(n: NodeState, s: NodeSchedule, pendingCount: nat)
    requires LocalOk(n) && FrameOk(n, s)
    requires s.nextChildIndex < |n.children| && n.children[s.nextChildIndex].Node?
    ensures var c := s.nextChildIndex;
            var b := Min(n.children[c].weight, s.budget);
            && b <= n.budget && (b >= 1 ==> n.budget >= TotalWeight(n.children[..c]) + b)
            && FrameOk(MovedOut(n, c, b), Consumed(n, s, pendingCount))
  {
    var c := s.nextChildIndex;
    var b := Min(n.children[c].weight, s.budget);
    var ch := Node(n.children[c].weight - b, n.children[c].nodeIndex);
    FrameReserve(n, s);
    WeightUpdate(n.children, c, ch, c + 1);
    WeightReplaced(n.children, c, ch);
    WeightStep(n.children, c);
  }

  /** Receiving budget, capped by the remaining weight, keeps a frame. */
  lemma FrameReceive(n: NodeState, s: NodeSchedule, b: nat)
    requires LocalOk(n) && FrameOk(n, s)
    ensures var n' := n.(budget := Min(n.budget + b, n.remainingWeight));
            LocalOk(n') && FrameOk(n', s)
  {
    BudgetChange(n, Min(n.budget + b, n.remainingWeight), n.expired);
    WeightMonotone(n.children, s.nextChildIndex, |n.children|);
    assert n.children[..|n.children|] == n.children;
  }

  lemma FrameBegin(n: NodeState)
    requires LocalOk(n)
    ensures FrameOk(n, NodeSchedule(n.scheduleNextIndex, n.budget, 0))
  {
    YieldedWeighsNothing(n.children, n.scheduleNextIndex);
  }

  // ---------------------------------------------------------------- the stack

  /** Frame `k` is for a child of the node of the frame below it, which has counted it as pending. */
  ghost predicate WaitsFor(t: Tree, stack: seq<Frame>, k: nat)
    requires 0 < k < |stack|
  {
    var below, above := stack[k - 1], stack[k];
    && above.nodeIndex in t && above.childIndex.Some?
    && t[above.nodeIndex].parent == Some(NodeLocation(below.nodeIndex, above.childIndex.value))
    && below.nodeSchedule.Some?
    && above.childIndex.value < below.nodeSchedule.value.nextChildIndex
    && below.nodeSchedule.value.pendingCount >= 1
  }

  ghost predicate Ascending(stack: seq<Frame>) {
    forall j, k :: 0 <= j < k < |stack| ==> stack[j].nodeIndex < stack[k].nodeIndex
  }

  ghost predicate FrameAt(t: Tree, f: Frame) {
    f.nodeIndex in t && (f.nodeSchedule.Some? ==> FrameOk(t[f.nodeIndex], f.nodeSchedule.value))
  }

  /** The frames follow a path of the tree downwards from the root.  Every frame but the last is waiting
      for the one above it. */
  ghost predicate Stacked(t: Tree, stack: seq<Frame>) {
    && (forall k :: 0 <= k < |stack| ==> stack[k].nodeIndex in t)
    && (forall k {:trigger FrameAt(t, stack[k])} :: 0 <= k < |stack| ==> FrameAt(t, stack[k]))
    && (stack != [] ==> stack[0].nodeIndex == 0 && stack[0].childIndex == None)
    && Ascending(stack)
    && (forall k {:trigger WaitsFor(t, stack, k)} :: 0 < k < |stack| ==> WaitsFor(t, stack, k))
  }

  ghost predicate OnStack(stack: seq<Frame>, x: nat) {
    exists k :: 0 <= k < |stack| && stack[k].nodeIndex == x
  }

  /** The budget in flight towards node `x`: `additional` for the node of the last frame, and for every
      other node on the stack the surplus collected in the frame above it. */
  ghost function InFlight(stack: seq<Frame>, additional: nat, x: nat): nat {
    if stack == [] then 0
    else
      var last := stack[|stack| - 1];
      if last.nodeIndex == x then additional else InFlight(stack[..|stack| - 1], last.surplus, x)
  }

  lemma {:induction false} InFlightAbsent(stack: seq<Frame>, additional: nat, x: nat)
    requires !OnStack(stack, x)
    ensures InFlight(stack, additional, x) == 0
  {
    if stack != [] {
      var rest := stack[..|stack| - 1];
      assert forall k :: 0 <= k < |rest| ==> rest[k] == stack[k];
      assert stack[|stack| - 1].nodeIndex != x;
      InFlightAbsent(rest, stack[|stack| - 1].surplus, x);
    }
  }

  /** `vt` is the tree with all budget in flight credited to the node it is headed for. */
  ghost predicate Credited(t: Tree, vt: Tree, stack: seq<Frame>, additional: nat) {
    && vt.Keys == t.Keys
    && forall x :: x in t ==> vt[x] == t[x].(budget := t[x].budget + InFlight(stack, additional, x))
  }

  ghost predicate NoNodesBetween(cs: seq<Child>, a: nat, b: nat) {
    forall c :: a <= c < b && c < |cs| ==> !cs[c].Node?
  }

  // ---------------------------------------------------------------- coverage

  /** A visited node was reached through its parent. */
  ghost predicate ReachedOk(t: Tree, stack: seq<Frame>, visited: set<nat>, x: nat)
    requires x in t
  {
    && t[x].parent.Some?
    && t[x].parent.value.nodeIndex in visited
    && forall k :: 0 <= k < |stack| && stack[k].nodeIndex == t[x].parent.value.nodeIndex ==>
        stack[k].nodeSchedule.Some? && t[x].parent.value.childIndex < stack[k].nodeSchedule.value.nextChildIndex
  }

  ghost predicate FinishedOk(t: Tree, visited: set<nat>, x: nat)
    requires x in t
  {
    forall c :: 0 <= c < |t[x].children| && t[x].children[c].Node? ==> t[x].children[c].nodeIndex in visited
  }

  ghost predicate FrameExplored(t0: Tree, t: Tree, visited: set<nat>, f: Frame)
    requires f.nodeIndex in t && f.nodeIndex in t0
  {
    match f.nodeSchedule
    case None => t[f.nodeIndex] == t0[f.nodeIndex]
    case Some(s) =>
      forall c :: 0 <= c < s.nextChildIndex && c < |t[f.nodeIndex].children| && t[f.nodeIndex].children[c].Node? ==>
        t[f.nodeIndex].children[c].nodeIndex in visited
  }

  /** What the pass has looked at so far.  Nodes that it has not come to are as they were in `t0`. */
  ghost predicate Explored(t0: Tree, t: Tree, stack: seq<Frame>, visited: set<nat>) {
    && t0.Keys == t.Keys
    && visited <= t.Keys && 0 in visited
    && (forall x :: x in t && x !in visited ==> t[x] == t0[x])
    && (forall k :: 0 <= k < |stack| ==> stack[k].nodeIndex in visited)
    && (forall x {:trigger ReachedOk(t, stack, visited, x)} ::
          x in visited && x != 0 ==> ReachedOk(t, stack, visited, x))
    && (forall x {:trigger FinishedOk(t, visited, x)} ::
          x in visited && !OnStack(stack, x) ==> FinishedOk(t, visited, x))
    && (forall k {:trigger FrameExplored(t0, t, visited, stack[k])} ::
         0 <= k < |stack| ==> FrameExplored(t0, t, visited, stack[k]))
  }

  /** When the stack is empty every node has been visited. */
  lemma {:induction false} AllVisited(t0: Tree, t: Tree, top: nat, visited: set<nat>, i: nat)
    requires Linked(t, top) && Explored(t0, t, [], visited)
    requires i in t
    ensures i in visited
    decreases i
  {
    if i != 0 {
      assert ParentLinked(t, i);
      AllVisited(t0, t, top, visited, t[i].parent.value.nodeIndex);
      assert FinishedOk(t, visited, t[i].parent.value.nodeIndex);
    }
  }

  // ---------------------------------------------------------------- steps of the pass

  ghost function Last(stack: seq<Frame>): Frame
    requires stack != []
  {
    stack[|stack| - 1]
  }

  ghost function WithLast(stack: seq<Frame>, f: Frame): seq<Frame>
    requires stack != []
  {
    stack[|stack| - 1 := f]
  }

  /** The node of the last frame changes only in itself, and its child nodes stay where they are. */
  ghost predicate LastChanged(t: Tree, t': Tree, x: nat) {
    && x in t && t'.Keys == t.Keys
    && (forall y :: y in t && y != x ==> t'[y] == t[y])
    && t'[x].parent == t[x].parent
    && |t'[x].children| == |t[x].children|
    && (forall c :: 0 <= c < |t[x].children| ==>
          SameKind(t[x].children[c], t'[x].children[c]) || (!t[x].children[c].Node? && !t'[x].children[c].Node?))
  }

  /** Frames below the last stay as they are; the last may look at more children. */
  ghost predicate Grown(stack: seq<Frame>, stack': seq<Frame>) {
    && 0 < |stack| <= |stack'|
    && (forall k :: 0 <= k < |stack| - 1 ==> stack'[k] == stack[k])
    && var f, f' := stack[|stack| - 1], stack'[|stack| - 1];
      && f'.nodeIndex == f.nodeIndex && f'.childIndex == f.childIndex
      && (f.nodeSchedule.Some? ==>
           f'.nodeSchedule.Some? && f.nodeSchedule.value.nextChildIndex <= f'.nodeSchedule.value.nextChildIndex)
  }

  lemma GrownReached(t: Tree, t': Tree, stack: seq<Frame>, stack': seq<Frame>, visited: set<nat>, visited': set<nat>,
                     x: nat)
    requires x in t && x in t' && t'[x].parent == t[x].parent
    requires ReachedOk(t, stack, visited, x) && visited <= visited'
    requires Grown(stack, stack')
    requires forall k :: |stack| <= k < |stack'| ==> stack'[k].nodeIndex !in visited
    ensures ReachedOk(t', stack', visited', x)
  {
    var p := t[x].parent.value;
    forall k | 0 <= k < |stack'| && stack'[k].nodeIndex == p.nodeIndex
      ensures stack'[k].nodeSchedule.Some? && p.childIndex < stack'[k].nodeSchedule.value.nextChildIndex
    {
      assert k < |stack|;
      assert stack[k].nodeIndex == p.nodeIndex;
    }
  }

  lemma GrownOnStack(stack: seq<Frame>, stack': seq<Frame>, x: nat)
    requires Grown(stack, stack')
    ensures OnStack(stack, x) ==> OnStack(stack', x)
  {
    if k :| 0 <= k < |stack| && stack[k].nodeIndex == x {
      assert stack'[k].nodeIndex == x;
    }
  }

  /** The last frame looks at more of its node, or a frame for a child node is added. */
  lemma ExploredStep(t0: Tree, t: Tree, t': Tree, stack: seq<Frame>, stack': seq<Frame>, visited: set<nat>,
                     visited': set<nat>)
    requires stack != [] && Explored(t0, t, stack, visited)
    requires Ascending(stack)
    requires LastChanged(t, t', Last(stack).nodeIndex)
    requires Grown(stack, stack') && visited <= visited' <= t.Keys
    requires forall y :: y in visited' && y !in visited ==> OnStack(stack', y) && ReachedOk(t', stack', visited', y)
    requires forall k :: |stack| <= k < |stack'| ==> stack'[k].nodeIndex !in visited
    requires forall k :: |stack| - 1 <= k < |stack'| ==>
               stack'[k].nodeIndex in visited' && FrameExplored(t0, t', visited', stack'[k])
    ensures Explored(t0, t', stack', visited')
  {
    var x := Last(stack).nodeIndex;
    assert stack[|stack| - 1].nodeIndex == x;
    forall y | y in visited' && y != 0 ensures ReachedOk(t', stack', visited', y) {
      if y in visited {
        assert ReachedOk(t, stack, visited, y);
        GrownReached(t, t', stack, stack', visited, visited', y);
      }
    }
    forall y | y in visited' && !OnStack(stack', y) ensures FinishedOk(t', visited', y) {
      GrownOnStack(stack, stack', y);
      GrownFinished(t0, t, t', stack, visited, visited', y);
    }
    forall k | 0 <= k < |stack'| ensures FrameExplored(t0, t', visited', stack'[k]) {
      if k < |stack| - 1 {
        FrameBelow(t0, t, t', stack, visited, visited', k);
      }
    }
  }

  lemma GrownFinished(t0: Tree, t: Tree, t': Tree, stack: seq<Frame>, visited: set<nat>, visited': set<nat>, y: nat)
    requires stack != [] && Explored(t0, t, stack, visited)
    requires LastChanged(t, t', Last(stack).nodeIndex) && visited <= visited'
    requires y in visited && !OnStack(stack, y)
    ensures FinishedOk(t', visited', y)
  {
    assert stack[|stack| - 1] == Last(stack);
    assert FinishedOk(t, visited, y);
  }

  lemma FrameBelow(t0: Tree, t: Tree, t': Tree, stack: seq<Frame>, visited: set<nat>, visited': set<nat>, k: nat)
    requires k < |stack| - 1 && Explored(t0, t, stack, visited)
    requires LastChanged(t, t', Last(stack).nodeIndex) && visited <= visited'
    requires Ascending(stack)
    ensures FrameExplored(t0, t', visited', stack[k])
  {
    assert FrameExplored(t0, t, visited, stack[k]);
  }

  lemma StackedStep(t: Tree, t': Tree, stack: seq<Frame>, stack': seq<Frame>)
    requires stack != [] && Stacked(t, stack)
    requires LastChanged(t, t', Last(stack).nodeIndex)
    requires Grown(stack, stack') && |stack'| <= |stack| + 1
    requires stack'[|stack| - 1].nodeSchedule.Some? ==>
               FrameOk(t'[Last(stack).nodeIndex], stack'[|stack| - 1].nodeSchedule.value)
    requires |stack'| == |stack| + 1 ==>
               && stack'[|stack|].nodeIndex in t && stack'[|stack|].nodeIndex > Last(stack).nodeIndex
               && stack'[|stack|].nodeSchedule == None
               && WaitsFor(t', stack', |stack|)
    ensures Stacked(t', stack')
  {
    forall k | 0 < k < |stack'| ensures WaitsFor(t', stack', k) {
      if k < |stack| {
        assert WaitsFor(t, stack, k);
      }
    }
    forall k | 0 <= k < |stack'| ensures FrameAt(t', stack'[k]) {
      if k < |stack| {
        assert FrameAt(t, stack[k]);
      }
    }
  }

  /** A frame that is looked at for the first time takes a snapshot of its node. */
  lemma BeginStep(t0: Tree, t: Tree, stack: seq<Frame>, visited: set<nat>)
    requires stack != [] && Last(stack).nodeSchedule == None
    requires Stacked(t, stack) && Explored(t0, t, stack, visited)
    requires LocalOk(t[Last(stack).nodeIndex])
    ensures var n := t[Last(stack).nodeIndex];
            var stack' :=
              WithLast(stack, Last(stack).(nodeSchedule := Some(NodeSchedule(n.scheduleNextIndex, n.budget, 0))));
            Stacked(t, stack') && Explored(t0, t, stack', visited)
  {
    var n := t[Last(stack).nodeIndex];
    var s := NodeSchedule(n.scheduleNextIndex, n.budget, 0);
    var stack' := WithLast(stack, Last(stack).(nodeSchedule := Some(s)));
    FrameBegin(n);
    assert FrameExplored(t0, t, visited, stack[|stack| - 1]);
    StackedStep(t, t, stack, stack');
    ExploredStep(t0, t, t, stack, stack', visited, visited);
  }

  /** Only the frames matter for the budget in flight, not their schedules. */
  lemma InFlightLast(stack: seq<Frame>, f: Frame, additional: nat, x: nat)
    requires stack != [] && f.nodeIndex == Last(stack).nodeIndex && f.surplus == Last(stack).surplus
    ensures InFlight(WithLast(stack, f), additional, x) == InFlight(stack, additional, x)
  {
    assert WithLast(stack, f)[..|stack| - 1] == stack[..|stack| - 1];
  }

  /** The last frame looks at more children, none of which is a node. */
  lemma ScanStep(t0: Tree, t: Tree, t': Tree, stack: seq<Frame>, visited: set<nat>, s': NodeSchedule)
    requires stack != [] && Last(stack).nodeSchedule.Some?
    requires Stacked(t, stack) && Explored(t0, t, stack, visited)
    requires LastChanged(t, t', Last(stack).nodeIndex)
    requires var s := Last(stack).nodeSchedule.value;
             var n := t[Last(stack).nodeIndex];
             && s.nextChildIndex <= s'.nextChildIndex
             && FrameOk(t'[Last(stack).nodeIndex], s')
             && NoNodesBetween(n.children, s.nextChildIndex, s'.nextChildIndex)
    ensures var stack' := WithLast(stack, Last(stack).(nodeSchedule := Some(s')));
            Stacked(t', stack') && Explored(t0, t', stack', visited)
  {
    var stack' := WithLast(stack, Last(stack).(nodeSchedule := Some(s')));
    StackedStep(t, t', stack, stack');
    assert FrameExplored(t0, t, visited, stack[|stack| - 1]);
    ScanLast(t0, t, t', visited, Last(stack), s');
    ExploredStep(t0, t, t', stack, stack', visited, visited);
  }

  lemma ScanLast(t0: Tree, t: Tree, t': Tree, visited: set<nat>, f: Frame, s': NodeSchedule)
    requires f.nodeIndex in t && f.nodeIndex in t0 && f.nodeSchedule.Some?
    requires FrameExplored(t0, t, visited, f)
    requires LastChanged(t, t', f.nodeIndex)
    requires f.nodeSchedule.value.nextChildIndex <= s'.nextChildIndex
    requires NoNodesBetween(t[f.nodeIndex].children, f.nodeSchedule.value.nextChildIndex, s'.nextChildIndex)
    ensures FrameExplored(t0, t', visited, f.(nodeSchedule := Some(s')))
  {
  }

  /** The last frame recurses into the child node at the position it looked at last. */
  lemma PushStep(t0: Tree, t: Tree, t': Tree, top: nat, stack: seq<Frame>, visited: set<nat>, s': NodeSchedule,
                 ci: nat, j: nat)
    requires stack != [] && Last(stack).nodeSchedule.Some?
    requires Linked(t, top) && Stacked(t, stack) && Explored(t0, t, stack, visited)
    requires LastChanged(t, t', Last(stack).nodeIndex)
    requires var s := Last(stack).nodeSchedule.value;
             var n := t[Last(stack).nodeIndex];
             && s.nextChildIndex <= ci && s'.nextChildIndex == ci + 1 && s'.pendingCount >= 1
             && ci < |n.children| && n.children[ci].Node? && n.children[ci].nodeIndex == j
             && FrameOk(t'[Last(stack).nodeIndex], s')
             && NoNodesBetween(n.children, s.nextChildIndex, ci)
    ensures j in t && j !in visited
    ensures var stack' := WithLast(stack, Last(stack).(nodeSchedule := Some(s'))) + [Frame(j, Some(ci), None, 0)];
            Stacked(t', stack') && Explored(t0, t', stack', visited + {j})
  {
    var x := Last(stack).nodeIndex;
    assert ChildLinked(t, x, ci);
    assert j in visited ==> ReachedOk(t, stack, visited, j);
    assert stack[|stack| - 1].nodeIndex == x;
    var stack' := WithLast(stack, Last(stack).(nodeSchedule := Some(s'))) + [Frame(j, Some(ci), None, 0)];
    assert WaitsFor(t', stack', |stack|);
    StackedStep(t, t', stack, stack');
    PushedReached(t', stack', visited, ci, j);
    assert FrameExplored(t0, t, visited, stack[|stack| - 1]);
    PushLast(t0, t, t', visited, j, Last(stack), s', ci);
    ExploredStep(t0, t, t', stack, stack', visited, visited + {j});
  }

  lemma PushedReached(t: Tree, stack: seq<Frame>, visited: set<nat>, ci: nat, j: nat)
    requires |stack| >= 2 && Stacked(t, stack) && Last(stack) == Frame(j, Some(ci), None, 0)
    requires stack[|stack| - 2].nodeIndex in visited
    ensures ReachedOk(t, stack, visited + {j}, j)
  {
    assert WaitsFor(t, stack, |stack| - 1);
  }

  lemma PushLast(t0: Tree, t: Tree, t': Tree, visited: set<nat>, j: nat, f: Frame, s': NodeSchedule, ci: nat)
    requires f.nodeIndex in t && f.nodeIndex in t0 && f.nodeSchedule.Some?
    requires FrameExplored(t0, t, visited, f)
    requires LastChanged(t, t', f.nodeIndex)
    requires f.nodeSchedule.value.nextChildIndex <= ci && s'.nextChildIndex == ci + 1
    requires ci < |t[f.nodeIndex].children| && t[f.nodeIndex].children[ci].Node?
    requires t[f.nodeIndex].children[ci].nodeIndex == j
    requires NoNodesBetween(t[f.nodeIndex].children, f.nodeSchedule.value.nextChildIndex, ci)
    ensures FrameExplored(t0, t', visited + {j}, f.(nodeSchedule := Some(s')))
  {
  }

  lemma PopExplored(t0: Tree, t: Tree, stack: seq<Frame>, visited: set<nat>)
    requires stack != [] && Last(stack).nodeSchedule.Some?
    requires Last(stack).nodeIndex in t
    requires Last(stack).nodeSchedule.value.nextChildIndex == |t[Last(stack).nodeIndex].children|
    requires Explored(t0, t, stack, visited)
    ensures Explored(t0, t, stack[..|stack| - 1], visited)
  {
    var stack' := stack[..|stack| - 1];
    var x := Last(stack).nodeIndex;
    forall y | y in visited && y != 0 ensures ReachedOk(t, stack', visited, y) {
      assert ReachedOk(t, stack, visited, y);
      assert forall k :: 0 <= k < |stack'| ==> stack'[k] == stack[k];
    }
    forall y | y in visited && !OnStack(stack', y) ensures FinishedOk(t, visited, y) {
      if y == x {
        assert FrameExplored(t0, t, visited, stack[|stack| - 1]);
          } else {
        forall k | 0 <= k < |stack| ensures stack[k].nodeIndex != y {
          assert k < |stack'| ==> stack'[k] == stack[k];
        }
        assert FinishedOk(t, visited, y);
      }
    }
    forall k | 0 <= k < |stack'| ensures FrameExplored(t0, t, visited, stack'[k]) {
      assert stack'[k] == stack[k];
    }
  }

  /** The last frame has looked at all its children and is popped. */
  lemma PopStep(t0: Tree, t: Tree, vt: Tree, stack: seq<Frame>, visited: set<nat>)
    requires stack != [] && Last(stack).nodeSchedule.Some?
    requires Last(stack).nodeIndex in t
    requires Last(stack).nodeSchedule.value.nextChildIndex == |t[Last(stack).nodeIndex].children|
    requires Stacked(t, stack) && Explored(t0, t, stack, visited)
    requires Credited(t, vt, stack, 0)
    ensures var stack' := stack[..|stack| - 1];
            && Stacked(t, stack') && Explored(t0, t, stack', visited)
            && Credited(t, vt, stack', Last(stack).surplus)
            && (stack' != [] ==> Last(stack').nodeSchedule.Some? && Last(stack').nodeSchedule.value.pendingCount >= 1)
  {
    var stack' := stack[..|stack| - 1];
    PopExplored(t0, t, stack, visited);
    assert stack' != [] ==> WaitsFor(t, stack, |stack| - 1);
    forall k | 0 < k < |stack'| ensures WaitsFor(t, stack', k) {
      assert WaitsFor(t, stack, k);
    }
    forall k | 0 <= k < |stack'| ensures FrameAt(t, stack'[k]) {
      assert FrameAt(t, stack[k]);
    }
    InFlightAbsent(stack', Last(stack).surplus, Last(stack).nodeIndex);
  }

  /** The budget headed for the node of the last frame arrives; what the node does not need is collected
      in the frame, to be passed to its parent. */
  lemma ReceiveStep(t: Tree, t': Tree, vt: Tree, vt': Tree, stack: seq<Frame>, stack': seq<Frame>, additional: nat,
                    excess: nat)
    requires stack != [] && Stacked(t, stack) && Credited(t, vt, stack, additional)
    requires t[0].parent.None?
    requires var x := Last(stack).nodeIndex;
             && t' == t[x := t[x].(budget := Min(t[x].budget + additional, t[x].remainingWeight))]
             && excess == SaturatingSub(t[x].budget + additional, t[x].remainingWeight)
    requires stack' == WithLast(stack, Last(stack).(surplus := Last(stack).surplus + excess))
    requires Credited(t', vt', stack', 0)
    ensures PassedUp(vt, vt', Last(stack).nodeIndex)
  {
    var x := Last(stack).nodeIndex;
    var m := |stack| - 1;
    var below := stack[..m];
    assert stack'[..m] == below;
    if m > 0 {
      assert WaitsFor(t, stack, m);
      assert Last(below) == stack[m - 1];
    }
    forall y | y in t && y != x ensures InFlight(stack, additional, y) == InFlight(below, Last(stack).surplus, y) {}
    forall y | y in t && y != x ensures InFlight(stack', 0, y) == InFlight(below, Last(stack).surplus + excess, y) {}
  }
}
