/** What a whole scheduling pass does, as a function of the tree it starts from: how much every child takes,
    how much every node passes on, and what is left of each node.  The pass itself works with a stack and moves
    budget step by step; here is what it must keep so that it arrives at this function. */
module OrderedFlow {
  import opened Common
  import opened OrderedTree
  import opened OrderedPass

  // ---------------------------------------------------------------- one node

  /** What child `c` takes from the budget of its node: as much of its weight as the children before it leave. */
  ghost function Take(n: NodeState, c: nat): nat
    requires c < |n.children|
  {
    Min(n.children[c].Weight(), SaturatingSub(n.budget, TotalWeight(n.children[..c])))
  }

  /** A child after it took its share: an input is started, and the slot of a node weighs that much less. */
  ghost function ScheduledChild(n: NodeState, c: nat): Child
    requires c < |n.children|
  {
    match n.children[c]
    case Unscheduled(w, _) => if Take(n, c) > 0 then Pending(w) else n.children[c]
    case Node(w, j) => Node(w - Take(n, c), j)
    case _ => n.children[c]
  }

  ghost function ScheduledChildren(n: NodeState, k: nat): (cs: seq<Child>)
    ensures |cs| == |n.children|
    ensures forall c :: 0 <= c < |cs| ==> cs[c] == if c < k then ScheduledChild(n, c) else n.children[c]
  {
    seq(|n.children|, c requires 0 <= c < |n.children| => if c < k then ScheduledChild(n, c) else n.children[c])
  }

  /** The budget that the first `k` children take into the nodes below. */
  ghost function Granted(n: NodeState, k: nat): nat
    requires k <= |n.children|
  {
    if k == 0 then 0 else Granted(n, k - 1) + (if n.children[k - 1].Node? then Take(n, k - 1) else 0)
  }

  /** Where scheduling starts next time, after children `i` to `k` were looked at: leading yielded ones are skipped. */
  ghost function SkipYielded(cs: seq<Child>, i: nat, k: nat): nat
    requires i <= k <= |cs|
  {
    if i == k then i
    else
      var f := SkipYielded(cs, i, k - 1);
      if f == k - 1 && cs[k - 1].Yielded? then k else f
  }

  // ---------------------------------------------------------------- the whole tree

  /** The budget that node `x` gets from its parent. */
  ghost function Arrival(t: Tree, x: nat): nat
    requires x in t
  {
    if t[x].parent.Some? && HasChild(t, t[x].parent.value)
    then Take(t[t[x].parent.value.nodeIndex], t[x].parent.value.childIndex)
    else 0
  }

  /** The budget that node `x` does not need: what it has, gets, and is passed by the nodes below, beyond its weight. */
  ghost function Surplus(t: Tree, top: nat, x: nat): nat
    requires x in t
    decreases top - x, |t[x].children| + 1
  {
    SaturatingSub(Gathered(t, top, x, |t[x].children|), t[x].remainingWeight)
  }

  /** All budget that comes together at node `x`, counting the surplus of the first `k` children. */
  ghost function Gathered(t: Tree, top: nat, x: nat, k: nat): nat
    requires x in t && k <= |t[x].children|
    decreases top - x, k
  {
    if k == 0 then t[x].budget + Arrival(t, x)
    else Gathered(t, top, x, k - 1) + PassedBy(t, top, x, t[x].children[k - 1])
  }

  /** The surplus of the child `ch` of node `x`. */
  ghost function PassedBy(t: Tree, top: nat, x: nat, ch: Child): nat
    decreases top - x, 0
  {
    if ch.Node? && ch.nodeIndex in t && x < ch.nodeIndex <= top then Surplus(t, top, ch.nodeIndex) else 0
  }

  ghost function PassNode(t: Tree, top: nat, x: nat): NodeState
    requires x in t
  {
    var n, k := t[x], |t[x].children|;
    n.(children := ScheduledChildren(n, k),
       remainingWeight := SaturatingSub(n.remainingWeight, Granted(n, k)),
       budget := SaturatingSub(Min(Gathered(t, top, x, k), n.remainingWeight), Granted(n, k)),
       scheduleNextIndex := SkipYielded(n.children, Min(n.scheduleNextIndex, k), k))
  }

  /** The tree after a scheduling pass; `Surplus(t, top, 0)` is the budget that leaves it. */
  ghost function PassTree(t: Tree, top: nat): Tree {
    map x | x in t :: PassNode(t, top, x)
  }

  // ---------------------------------------------------------------- one node, on the way

  /** Node `n0` has become `n`, and `s` is where its schedule is. */
  ghost predicate Midway(n0: NodeState, n: NodeState, s: NodeSchedule) {
    && n0.scheduleNextIndex <= s.nextChildIndex <= |n0.children|
    && s.budget == SaturatingSub(n0.budget, TotalWeight(n0.children[..s.nextChildIndex]))
    && n.parent == n0.parent && n.expired == n0.expired
    && n.children == ScheduledChildren(n0, s.nextChildIndex)
    && n.remainingWeight + Granted(n0, s.nextChildIndex) == n0.remainingWeight
    && n.scheduleNextIndex == SkipYielded(n0.children, n0.scheduleNextIndex, s.nextChildIndex)
  }

  lemma {:induction false} GrantedNothing(n: NodeState, a: nat, b: nat)
    requires a <= b <= |n.children| && NoNodesBetween(n.children, a, b)
    ensures Granted(n, b) == Granted(n, a)
  {
    if a < b {
      GrantedNothing(n, a, b - 1);
    }
  }

  lemma MidwayBegin(n: NodeState)
    requires LocalOk(n)
    ensures Midway(n, n, NodeSchedule(n.scheduleNextIndex, n.budget, 0)) && Granted(n, n.scheduleNextIndex) == 0
  {
    YieldedWeighsNothing(n.children, n.scheduleNextIndex);
    GrantedNothing(n, 0, n.scheduleNextIndex);
    assert ScheduledChildren(n, n.scheduleNextIndex) == n.children;
  }

  /** Looking at one more child changes at most that child. */
  lemma ScheduledNext(n: NodeState, c: nat)
    requires c < |n.children|
    ensures ScheduledChildren(n, c)[c] == n.children[c]
    ensures ScheduledChildren(n, c + 1) == ScheduledChildren(n, c)[c := ScheduledChild(n, c)]
  {
  }

  lemma MidwaySchedule(n0: NodeState, s: NodeSchedule, w: nat, s': NodeSchedule)
    requires s.nextChildIndex < |n0.children| && w == n0.children[s.nextChildIndex].Weight()
    requires s.budget == SaturatingSub(n0.budget, TotalWeight(n0.children[..s.nextChildIndex]))
    requires s' == NodeSchedule(s.nextChildIndex + 1, SaturatingSub(s.budget, w), s'.pendingCount)
    ensures s'.budget == SaturatingSub(n0.budget, TotalWeight(n0.children[..s'.nextChildIndex]))
  {
    WeightStep(n0.children, s.nextChildIndex);
  }

  /** The child at the position of the schedule, which becomes `ch`, is done. */
  lemma MidwayNext(n0: NodeState, n: NodeState, s: NodeSchedule, n': NodeState, s': NodeSchedule)
    requires Midway(n0, n, s) && s.nextChildIndex < |n.children|
    requires s' == Consumed(n, s, s'.pendingCount)
    requires n' == n.(children := n'.children, remainingWeight := n'.remainingWeight, budget := n'.budget,
                      scheduleNextIndex := n'.scheduleNextIndex)
    requires n'.children == n.children[s.nextChildIndex := ScheduledChild(n0, s.nextChildIndex)]
    requires n'.remainingWeight + (if n0.children[s.nextChildIndex].Node? then Take(n0, s.nextChildIndex) else 0)
          == n.remainingWeight
    requires n'.scheduleNextIndex
          == if n0.children[s.nextChildIndex].Yielded? && s.nextChildIndex == n.scheduleNextIndex
             then s.nextChildIndex + 1 else n.scheduleNextIndex
    ensures Midway(n0, n', s')
  {
    ScheduledNext(n0, s.nextChildIndex);
    MidwaySchedule(n0, s, n0.children[s.nextChildIndex].Weight(), s');
  }

  lemma MidwayChild(n0: NodeState, n: NodeState, s: NodeSchedule)
    requires Midway(n0, n, s) && s.nextChildIndex < |n.children|
    ensures n.children[s.nextChildIndex] == n0.children[s.nextChildIndex]
    ensures Take(n0, s.nextChildIndex) == Min(n.children[s.nextChildIndex].Weight(), s.budget)
  {
  }

  /** A child that is passed over takes nothing into a node and starts nothing. */
  lemma MidwaySkip(n0: NodeState, n: NodeState, s: NodeSchedule, n': NodeState, s': NodeSchedule)
    requires Midway(n0, n, s) && s.nextChildIndex < |n.children| && !n.children[s.nextChildIndex].Node?
    requires n.children[s.nextChildIndex].Unscheduled? ==> s.budget == 0
    requires s' == Consumed(n, s, s'.pendingCount)
    requires n' == if n.children[s.nextChildIndex].Yielded? && s.nextChildIndex == n.scheduleNextIndex
                   then n.(scheduleNextIndex := s.nextChildIndex + 1) else n
    ensures Midway(n0, n', s')
  {
    MidwayChild(n0, n, s);
    var c := s.nextChildIndex;
    assert ScheduledChild(n0, c) == n.children[c];
    assert n.children[c := n.children[c]] == n.children;
    MidwayNext(n0, n, s, n', s');
  }

  lemma MidwayStart(n0: NodeState, n: NodeState, s: NodeSchedule, n': NodeState, s': NodeSchedule)
    requires Midway(n0, n, s) && s.nextChildIndex < |n.children| && n.children[s.nextChildIndex].Unscheduled?
    requires Min(n.children[s.nextChildIndex].weight, s.budget) > 0
    requires s' == Consumed(n, s, s'.pendingCount)
    requires n' == n.(children := n.children[s.nextChildIndex := Pending(n.children[s.nextChildIndex].weight)])
    ensures Midway(n0, n', s')
  {
    MidwayChild(n0, n, s);
    MidwayNext(n0, n, s, n', s');
  }

  lemma MidwayMove(n0: NodeState, n: NodeState, s: NodeSchedule, b: nat, n': NodeState, s': NodeSchedule)
    requires Midway(n0, n, s) && s.nextChildIndex < |n.children| && n.children[s.nextChildIndex].Node?
    requires b == Min(n.children[s.nextChildIndex].weight, s.budget) <= n.remainingWeight
    requires s' == Consumed(n, s, s'.pendingCount)
    requires n' == n.(children := n.children[s.nextChildIndex := Node(n.children[s.nextChildIndex].weight - b,
                                                                      n.children[s.nextChildIndex].nodeIndex)],
                      remainingWeight := n.remainingWeight - b, budget := n'.budget)
    ensures Midway(n0, n', s') && b == Take(n0, s.nextChildIndex)
            && n0.children[s.nextChildIndex] == n.children[s.nextChildIndex]
  {
    MidwayChild(n0, n, s);
    MidwayNext(n0, n, s, n', s');
  }

  // ---------------------------------------------------------------- the stack, on the way

  /** The node of frame `f` holds what is left of `gathered` after the children that were looked at took their
      share; surplus is only collected once the node has all it needs. */
  ghost predicate FrameFlow(t0: Tree, t: Tree, f: Frame, gathered: nat) {
    && f.nodeIndex in t0 && f.nodeIndex in t && f.nodeSchedule.Some?
    && var n0, n, s := t0[f.nodeIndex], t[f.nodeIndex], f.nodeSchedule.value;
      && Midway(n0, n, s)
      && n.budget + Granted(n0, s.nextChildIndex) + f.surplus == gathered
      && (f.surplus > 0 ==> n.budget >= n.remainingWeight)
  }

  /** Frame `f` is waiting for child node `j`, the last child it looked at, whose surplus it has not received. */
  ghost predicate InnerFlow(t0: Tree, top: nat, t: Tree, f: Frame, j: nat) {
    && f.nodeIndex in t0 && f.nodeIndex in t && f.nodeSchedule.Some?
    && var n0, n, c := t0[f.nodeIndex], t[f.nodeIndex], f.nodeSchedule.value.nextChildIndex;
      && 0 < c <= |n0.children| && n0.children[c - 1].Node? && n0.children[c - 1].nodeIndex == j
      && n.budget <= n.remainingWeight
      && FrameFlow(t0, t, f, Gathered(t0, top, f.nodeIndex, c - 1))
  }

  /** The last frame has not started, with what its node gets in flight; or what is in flight completes what it
      has gathered so far. */
  ghost predicate LastFlow(t0: Tree, top: nat, t: Tree, f: Frame, additional: nat) {
    && f.nodeIndex in t0
    && match f.nodeSchedule
       case None => f.surplus == 0 && additional == Arrival(t0, f.nodeIndex)
       case Some(s) =>
         && s.nextChildIndex <= |t0[f.nodeIndex].children|
         && additional <= Gathered(t0, top, f.nodeIndex, s.nextChildIndex)
         && FrameFlow(t0, t, f, Gathered(t0, top, f.nodeIndex, s.nextChildIndex) - additional)
  }

  ghost predicate InnersFlow(t0: Tree, top: nat, t: Tree, stack: seq<Frame>) {
    forall k {:trigger InnerFlow(t0, top, t, stack[k], stack[k + 1].nodeIndex)} ::
      0 <= k < |stack| - 1 ==> InnerFlow(t0, top, t, stack[k], stack[k + 1].nodeIndex)
  }

  ghost predicate DoneFlow(t0: Tree, top: nat, t: Tree, stack: seq<Frame>, visited: set<nat>) {
    forall x :: x in visited ==> x in t0 && x in t && (OnStack(stack, x) || t[x] == PassNode(t0, top, x))
  }

  /** The pass does what `PassTree` says: the nodes it is done with are as they should be, and the frames are on
      their way there. */
  ghost predicate Flow(t0: Tree, top: nat, t: Tree, stack: seq<Frame>, additional: nat, visited: set<nat>) {
    && Linked(t0, top)
    && DoneFlow(t0, top, t, stack, visited)
    && (if stack == [] then additional == Surplus(t0, top, 0) else LastFlow(t0, top, t, Last(stack), additional))
    && InnersFlow(t0, top, t, stack)
  }

  lemma {:induction false} GatheredNothing(t: Tree, top: nat, x: nat, a: nat, b: nat)
    requires x in t && a <= b <= |t[x].children| && NoNodesBetween(t[x].children, a, b)
    ensures Gathered(t, top, x, b) == Gathered(t, top, x, a)
  {
    if a < b {
      GatheredNothing(t, top, x, a, b - 1);
    }
  }

  lemma FlowStart(t0: Tree, top: nat, f: Frame)
    requires Linked(t0, top) && f.nodeIndex == 0 && f.nodeSchedule == None && f.surplus == 0
    ensures Flow(t0, top, t0, [f], 0, {0})
  {
    assert [f][0].nodeIndex == 0;
  }

  /** Only the last frame and its node change. */
  lemma FlowLast(t0: Tree, top: nat, t: Tree, t': Tree, stack: seq<Frame>, f: Frame, additional: nat, additional': nat,
                 visited: set<nat>)
    requires Flow(t0, top, t, stack, additional, visited) && stack != [] && Ascending(stack)
    requires f.nodeIndex == Last(stack).nodeIndex && f.nodeIndex in t' && t' == t[f.nodeIndex := t'[f.nodeIndex]]
    requires LastFlow(t0, top, t', f, additional')
    ensures Flow(t0, top, t', WithLast(stack, f), additional', visited)
  {
    InnersKept(t0, top, t, t', stack, WithLast(stack, f), f.nodeIndex);
    DoneKept(t0, top, t, t', stack, WithLast(stack, f), f.nodeIndex, visited);
  }

  /** The frames below the last one are as they were; another may have been added. */
  ghost predicate BelowKept(stack: seq<Frame>, stack': seq<Frame>, x: nat) {
    && 0 < |stack| <= |stack'|
    && stack[|stack| - 1].nodeIndex == stack'[|stack| - 1].nodeIndex == x
    && forall k :: 0 <= k < |stack| - 1 ==> stack'[k] == stack[k]
  }

  lemma InnersKept(t0: Tree, top: nat, t: Tree, t': Tree, stack: seq<Frame>, stack': seq<Frame>, x: nat)
    requires InnersFlow(t0, top, t, stack) && Ascending(stack) && BelowKept(stack, stack', x)
    requires x in t' && t' == t[x := t'[x]]
    requires forall k :: |stack| - 1 <= k < |stack'| - 1 ==> InnerFlow(t0, top, t', stack'[k], stack'[k + 1].nodeIndex)
    ensures InnersFlow(t0, top, t', stack')
  {
    forall k | 0 <= k < |stack'| - 1 ensures InnerFlow(t0, top, t', stack'[k], stack'[k + 1].nodeIndex) {
      if k < |stack| - 1 {
        assert InnerFlow(t0, top, t, stack[k], stack[k + 1].nodeIndex);
        assert stack'[k + 1].nodeIndex == stack[k + 1].nodeIndex;
        assert stack[k].nodeIndex < stack[|stack| - 1].nodeIndex;
        InnerKept(t0, top, t, t', stack[k], stack[k + 1].nodeIndex);
      }
    }
  }

  lemma InnerKept(t0: Tree, top: nat, t: Tree, t': Tree, f: Frame, j: nat)
    requires InnerFlow(t0, top, t, f, j) && f.nodeIndex in t' && t'[f.nodeIndex] == t[f.nodeIndex]
    ensures InnerFlow(t0, top, t', f, j)
  {
  }

  lemma DoneKept(t0: Tree, top: nat, t: Tree, t': Tree, stack: seq<Frame>, stack': seq<Frame>, x: nat,
                 visited: set<nat>)
    requires DoneFlow(t0, top, t, stack, visited) && BelowKept(stack, stack', x)
    requires x in t' && t' == t[x := t'[x]]
    ensures DoneFlow(t0, top, t', stack', visited)
  {
    forall y | y in visited && !OnStack(stack', y) ensures !OnStack(stack, y) && y != x {
      assert stack'[|stack| - 1].nodeIndex == x;
      forall k | 0 <= k < |stack| ensures stack[k].nodeIndex != y {
        assert stack'[k].nodeIndex == stack[k].nodeIndex;
      }
    }
  }

  /** The last frame takes its snapshot. */
  lemma LastBegins(t0: Tree, top: nat, t: Tree, f: Frame, additional: nat)
    requires LastFlow(t0, top, t, f, additional) && f.nodeSchedule == None
    requires f.nodeIndex in t && t[f.nodeIndex] == t0[f.nodeIndex] && LocalOk(t[f.nodeIndex])
    ensures var n := t[f.nodeIndex];
            LastFlow(t0, top, t, f.(nodeSchedule := Some(NodeSchedule(n.scheduleNextIndex, n.budget, 0))), additional)
  {
    var n := t[f.nodeIndex];
    MidwayBegin(n);
    GatheredNothing(t0, top, f.nodeIndex, 0, n.scheduleNextIndex);
  }

  /** What is in flight arrives: the node keeps what it needs. */
  lemma LastReceives(t0: Tree, top: nat, t: Tree, t': Tree, f: Frame, additional: nat, f': Frame)
    requires LastFlow(t0, top, t, f, additional) && f.nodeSchedule.Some?
    requires var x := f.nodeIndex;
             && x in t' && t'[x] == t[x].(budget := Min(t[x].budget + additional, t[x].remainingWeight))
             && f' == f.(surplus := f.surplus + SaturatingSub(t[x].budget + additional, t[x].remainingWeight))
    ensures LastFlow(t0, top, t', f', 0)
  {
  }

  /** The last frame looks at children that are not nodes. */
  lemma LastScans(t0: Tree, top: nat, t: Tree, t': Tree, f: Frame, s': NodeSchedule)
    requires LastFlow(t0, top, t, f, 0) && f.nodeSchedule.Some?
    requires f.nodeIndex in t' && t'[f.nodeIndex].budget == t[f.nodeIndex].budget
    requires t'[f.nodeIndex].remainingWeight == t[f.nodeIndex].remainingWeight
    requires f.nodeSchedule.value.nextChildIndex <= s'.nextChildIndex && Midway(t0[f.nodeIndex], t'[f.nodeIndex], s')
    requires NoNodesBetween(t0[f.nodeIndex].children, f.nodeSchedule.value.nextChildIndex, s'.nextChildIndex)
    ensures LastFlow(t0, top, t', f.(nodeSchedule := Some(s')), 0)
  {
    GrantedNothing(t0[f.nodeIndex], f.nodeSchedule.value.nextChildIndex, s'.nextChildIndex);
    GatheredNothing(t0, top, f.nodeIndex, f.nodeSchedule.value.nextChildIndex, s'.nextChildIndex);
  }

  /** The last frame gives child node `j` its share and waits for it. */
  lemma LastEnters(t0: Tree, top: nat, t: Tree, t': Tree, f: Frame, s': NodeSchedule, j: nat, b: nat)
    requires LastFlow(t0, top, t, f, 0) && f.nodeSchedule.Some? && f.nodeIndex in t'
    requires var n0, n, n', s := t0[f.nodeIndex], t[f.nodeIndex], t'[f.nodeIndex], f.nodeSchedule.value;
             && Midway(n0, n', s') && n'.budget + b == n.budget && n'.remainingWeight + b == n.remainingWeight
             && n.budget <= n.remainingWeight
             && s.nextChildIndex < s'.nextChildIndex
             && NoNodesBetween(n0.children, s.nextChildIndex, s'.nextChildIndex - 1)
             && n0.children[s'.nextChildIndex - 1].Node? && n0.children[s'.nextChildIndex - 1].nodeIndex == j
             && b == Take(n0, s'.nextChildIndex - 1)
    ensures InnerFlow(t0, top, t', f.(nodeSchedule := Some(s')), j)
  {
    GrantedNothing(t0[f.nodeIndex], f.nodeSchedule.value.nextChildIndex, s'.nextChildIndex - 1);
    GatheredNothing(t0, top, f.nodeIndex, f.nodeSchedule.value.nextChildIndex, s'.nextChildIndex - 1);
  }

  /** The share of a child node is what arrives at it. */
  lemma ShareArrives(t0: Tree, top: nat, x: nat, c: nat)
    requires Linked(t0, top) && x in t0 && c < |t0[x].children| && t0[x].children[c].Node?
    ensures var j := t0[x].children[c].nodeIndex;
            x < j <= top && j in t0 && Arrival(t0, j) == Take(t0[x], c)
  {
    assert ChildLinked(t0, x, c);
  }

  lemma FlowEnter(t0: Tree, top: nat, t: Tree, t': Tree, stack: seq<Frame>, f: Frame, j: nat, g: Frame, b: nat,
                  visited: set<nat>)
    requires Flow(t0, top, t, stack, 0, visited) && stack != [] && Ascending(stack)
    requires f.nodeIndex == Last(stack).nodeIndex && f.nodeIndex in t' && t' == t[f.nodeIndex := t'[f.nodeIndex]]
    requires InnerFlow(t0, top, t', f, j) && j in t && j !in visited
    requires g.nodeIndex == j && g.nodeSchedule == None && g.surplus == 0
    requires b == Take(t0[f.nodeIndex], f.nodeSchedule.value.nextChildIndex - 1)
    ensures Flow(t0, top, t', WithLast(stack, f) + [g], b, visited + {j})
  {
    var stack' := WithLast(stack, f) + [g];
    assert BelowKept(stack, stack', f.nodeIndex);
    assert Last(stack') == g && stack'[|stack| - 1] == f;
    ShareArrives(t0, top, f.nodeIndex, f.nodeSchedule.value.nextChildIndex - 1);
    InnersKept(t0, top, t, t', stack, stack', f.nodeIndex);
    DoneKept(t0, top, t, t', stack, stack', f.nodeIndex, visited);
    assert stack'[|stack|].nodeIndex == j;
    assert DoneFlow(t0, top, t', stack', visited + {j});
  }

  /** A frame that has looked at all children leaves its node, and what is in flight, as they should be. */
  lemma LastFinishes(t0: Tree, top: nat, t: Tree, f: Frame)
    requires LastFlow(t0, top, t, f, 0) && f.nodeSchedule.Some?
    requires f.nodeSchedule.value.nextChildIndex == |t0[f.nodeIndex].children|
    requires t[f.nodeIndex].budget <= t[f.nodeIndex].remainingWeight
    ensures t[f.nodeIndex] == PassNode(t0, top, f.nodeIndex) && f.surplus == Surplus(t0, top, f.nodeIndex)
  {
  }

  /** The frame below receives the surplus of the child node it waited for. */
  lemma InnerResumes(t0: Tree, top: nat, t: Tree, f: Frame, j: nat)
    requires Linked(t0, top) && InnerFlow(t0, top, t, f, j) && j in t0
    ensures LastFlow(t0, top, t, f, Surplus(t0, top, j))
  {
    ShareArrives(t0, top, f.nodeIndex, f.nodeSchedule.value.nextChildIndex - 1);
  }

  lemma FlowPop(t0: Tree, top: nat, t: Tree, stack: seq<Frame>, visited: set<nat>)
    requires Flow(t0, top, t, stack, 0, visited) && stack != [] && stack[0].nodeIndex == 0
    requires Last(stack).nodeSchedule.Some?
    requires Last(stack).nodeSchedule.value.nextChildIndex == |t0[Last(stack).nodeIndex].children|
    requires t[Last(stack).nodeIndex].budget <= t[Last(stack).nodeIndex].remainingWeight
    ensures Flow(t0, top, t, stack[..|stack| - 1], Last(stack).surplus, visited)
  {
    LastFinishes(t0, top, t, Last(stack));
    InnersPopped(t0, top, t, stack);
    DonePopped(t0, top, t, stack, visited);
  }

  lemma DonePopped(t0: Tree, top: nat, t: Tree, stack: seq<Frame>, visited: set<nat>)
    requires stack != [] && DoneFlow(t0, top, t, stack, visited)
    requires var x := Last(stack).nodeIndex; x in t && x in t0 && t[x] == PassNode(t0, top, x)
    ensures DoneFlow(t0, top, t, stack[..|stack| - 1], visited)
  {
    var stack' := stack[..|stack| - 1];
    forall y | y in visited && y != Last(stack).nodeIndex && !OnStack(stack', y) ensures !OnStack(stack, y) {
      forall k | 0 <= k < |stack| ensures stack[k].nodeIndex != y {
        assert k < |stack'| ==> stack'[k] == stack[k];
      }
    }
  }

  lemma InnersPopped(t0: Tree, top: nat, t: Tree, stack: seq<Frame>)
    requires stack != [] && Linked(t0, top) && InnersFlow(t0, top, t, stack) && Last(stack).nodeIndex in t0
    ensures InnersFlow(t0, top, t, stack[..|stack| - 1])
    ensures |stack| > 1 ==> LastFlow(t0, top, t, Last(stack[..|stack| - 1]), Surplus(t0, top, Last(stack).nodeIndex))
  {
    var stack' := stack[..|stack| - 1];
    if stack' != [] {
      var k := |stack| - 2;
      assert InnerFlow(t0, top, t, stack[k], stack[k + 1].nodeIndex);
      InnerResumes(t0, top, t, Last(stack'), Last(stack).nodeIndex);
    }
    forall k | 0 <= k < |stack'| - 1 ensures InnerFlow(t0, top, t, stack'[k], stack'[k + 1].nodeIndex) {
      assert InnerFlow(t0, top, t, stack[k], stack[k + 1].nodeIndex);
    }
  }

  /** At the end of a pass that has visited every node the tree is what it should be. */
  lemma FlowEnd(t0: Tree, top: nat, t: Tree, additional: nat, visited: set<nat>)
    requires Flow(t0, top, t, [], additional, visited) && t.Keys == t0.Keys == visited
    ensures t == PassTree(t0, top) && additional == Surplus(t0, top, 0)
  {
  }
}
