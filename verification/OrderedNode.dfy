/** Nodes of the execution tree as the mutable objects they are, and sums over the tree as they change. */
module OrderedNode {
  import opened Common
  import opened OrderedTree
  import opened OrderedSteps
  import opened OrderedFunding
  import opened OrderedPass
  import opened OrderedFlow

  /** A scheduling action to perform. */
  datatype NodeAction =
    | Schedule(childIndex: nat, input: Input)
    | Recurse(childIndex: nat, nodeIndex: nat, budget: nat)
    | ActionPending
    | ActionComplete

  /** Values yielded from nodes. */
  datatype NodeYield =
    | YieldOutput(childIndex: nat, output: Out)
    | FromChild(nodeIndex: nat)
    | YieldPending(childIndex: nat)
    | YieldComplete

  /** Child `f` is the first one from `start` on that is not yielded. */
  ghost predicate FirstUnyielded(cs: seq<Child>, start: nat, f: nat) {
    && start <= f <= |cs|
    && (forall c :: start <= c < f ==> cs[c].Yielded?)
    && (f < |cs| ==> !cs[f].Yielded?)
  }

  /** What yielding from the node `n` means; it becomes `n'`. */
  ghost predicate YieldOk(n: NodeState, start: nat, n': NodeState, y: NodeYield, f: nat) {
    && FirstUnyielded(n.children, start, f)
    && match y
       case YieldOutput(c, o) =>
         && c == f < |n.children| && n.children[f] == Child.Output(o) && n.budget > 0
         && n' == SetChild(n, f, Yielded) && LocalOk(n')
       case FromChild(j) => f < |n.children| && n.children[f].Node? && n.children[f].nodeIndex == j && n' == n
       case YieldPending(c) =>
         && c == f < |n.children| && n' == n
         && (n.children[f].Unscheduled? || n.children[f].Pending? || (n.children[f].Output? && n.budget == 0))
       case YieldComplete => f == |n.children| && n' == n
  }

  class Node {
    const parent: Option<Location>
    var children: seq<Child>
    var remainingWeight: nat
    var budget: nat
    var expired: nat
    var scheduleNextIndex: nat

    function State(): NodeState
      reads this
    {
      NodeState(parent, children, remainingWeight, budget, expired, scheduleNextIndex)
    }

    constructor (parent: Option<Location>, children: seq<Child>, weight: nat)
      ensures State() == NodeState(parent, children, weight, 0, 0, 0)
    {
      this.parent := parent;
      this.children := children;
      this.remainingWeight := weight;
      this.budget := 0;
      this.expired := 0;
      this.scheduleNextIndex := 0;
    }

    /** Adds budget up to the remaining weight and returns the rest. */
    method AddBudget(budget: nat) returns (surplus: nat)
      modifies this
      ensures State() == old(State()).(budget := Min(old(this.budget) + budget, remainingWeight))
      ensures this.budget + surplus == old(this.budget) + budget
    {
      var total := this.budget + budget;
      this.budget := Min(total, remainingWeight);
      surplus := total - this.budget;
    }

    method ExpireBudget(budget: nat)
      modifies this
      ensures State() == old(State()).(expired := old(expired) + budget)
    {
      expired := expired + budget;
    }

    /** Takes expired budget out of the surplus; what the node needs is left. */
    method TakeExpired() returns (taken: nat)
      modifies this
      ensures State() == old(State()).(budget := budget, expired := expired)
      ensures budget + taken == old(budget) && expired + taken == old(expired)
      ensures taken > 0 ==> budget >= remainingWeight
      ensures expired > 0 ==> budget <= remainingWeight
    {
      var surplus := SaturatingSub(budget, remainingWeight);
      taken := Min(expired, surplus);
      budget := budget - taken;
      expired := expired - taken;
    }

    method TakeSurplus() returns (surplus: nat)
      modifies this
      ensures State() == old(State()).(budget := Min(old(budget), remainingWeight))
      ensures budget + surplus == old(budget)
    {
      surplus := SaturatingSub(budget, remainingWeight);
      budget := budget - surplus;
    }

    function BudgetNeeded(): (needed: nat)
      reads this
      ensures needed == 0 <==> budget >= remainingWeight
      ensures needed > 0 ==> budget + needed == remainingWeight
    {
      SaturatingSub(remainingWeight, budget)
    }

    function NewSchedule(): NodeSchedule
      reads this
    {
      NodeSchedule(scheduleNextIndex, budget, 0)
    }

    /** Yields the next value from this node, starting at `start`.  A value is taken out of the node only
        if there is budget for it. */
    method YieldNext(start: nat) returns (y: NodeYield, ghost f: nat)
      requires LocalOk(State()) && start <= |children|
      modifies this
      ensures YieldOk(old(State()), start, State(), y, f)
    {
      var childIndex := start;
      while childIndex < |children|
        invariant start <= childIndex <= |children|
        invariant forall c :: start <= c < childIndex ==> children[c].Yielded?
        invariant State() == old(State())
      {
        match children[childIndex] {
          case Unscheduled(_, _) => return YieldPending(childIndex), childIndex;
          case Pending(_) => return YieldPending(childIndex), childIndex;
          case Output(output) =>
            if budget == 0 {
              return YieldPending(childIndex), childIndex;
            }
            SetLighterChild(State(), childIndex, Yielded);
            children := children[childIndex := Yielded];
            remainingWeight := remainingWeight - 1;
            return YieldOutput(childIndex, output), childIndex;
          case Node(_, nodeIndex) => return FromChild(nodeIndex), childIndex;
          case Yielded =>
        }
        childIndex := childIndex + 1;
      }
      return YieldComplete, childIndex;
    }

    /** The weight reserved for a child node never exceeds what the child still needs. */
    method ChildYielded(childIndex: nat, childBudgetNeeded: nat)
      requires LocalOk(State()) && childIndex < |children| && children[childIndex].Node?
      modifies this
      ensures LocalOk(State())
      ensures State() == SetChild(old(State()), childIndex,
                Node(Min(old(children)[childIndex].weight, childBudgetNeeded), old(children)[childIndex].nodeIndex))
    {
      var weight, nodeIndex := children[childIndex].weight, children[childIndex].nodeIndex;
      SetLighterChild(State(), childIndex, Node(Min(weight, childBudgetNeeded), nodeIndex));
      if weight > childBudgetNeeded {
        var cancelled := weight - childBudgetNeeded;
        children := children[childIndex := Node(weight - cancelled, nodeIndex)];
        remainingWeight := remainingWeight - cancelled;
      } else {
        assert children == children[childIndex := Node(weight, nodeIndex)];
      }
    }

    /** A completed child node gives its budget back. */
    method ChildComplete(childIndex: nat, surplus: nat)
      requires LocalOk(State()) && childIndex < |children| && children[childIndex].Node?
      modifies this
      ensures LocalOk(State())
      ensures State() == SetChild(old(State()), childIndex, Yielded).(budget := old(budget) + surplus)
    {
      SetLighterChild(State(), childIndex, Yielded);
      BudgetChange(SetChild(State(), childIndex, Yielded), budget + surplus, expired);
      var childWeight := children[childIndex].Weight();
      children := children[childIndex := Yielded];
      budget := budget + surplus;
      remainingWeight := remainingWeight - childWeight;
    }

    /** Moves budget, and the weight that it is for, to child node `childIndex`. */
    method MoveBudget(childIndex: nat, weight: nat, nodeIndex: nat, consumed: nat)
      requires childIndex < |children| && children[childIndex] == Node(weight, nodeIndex)
      requires consumed <= weight && consumed <= remainingWeight && consumed <= budget
      modifies this
      ensures State() == old(State()).(children := old(children)[childIndex := Node(weight - consumed, nodeIndex)],
                                       remainingWeight := old(remainingWeight) - consumed, budget :=
                                         old(budget) - consumed)
    {
      if consumed > 0 {
        children := children[childIndex := Node(weight - consumed, nodeIndex)];
        remainingWeight := remainingWeight - consumed;
        budget := budget - consumed;
      } else {
        assert children == children[childIndex := Node(weight, nodeIndex)];
      }
    }

    /** The unscheduled child at the position `was` becomes pending. */
    method StartChild(childIndex: nat, weight: nat, input: Input, ghost base: NodeState, ghost n0: NodeState,
                      ghost s: NodeSchedule, ghost was: NodeSchedule, ghost now: NodeSchedule)
      requires Scanning(base, n0, s, State(), was) && was.budget > 0
      requires State() == n0.(scheduleNextIndex := scheduleNextIndex)
      requires was.nextChildIndex == childIndex < |children| && children[childIndex] == Unscheduled(weight, input)
      requires now == Consumed(State(), was, now.pendingCount)
      modifies this
      ensures Scheduling(base, State(), now) && Acting(n0, s, State(), now, Schedule(childIndex, input))
    {
      ScheduleAction(base, n0, s, State(), was, now);
      ghost var n' := SetChild(State(), childIndex, Pending(weight));
      children := children[childIndex := Pending(weight)];
      assert State() == n';
    }

    /** Budget moves to the child node at the position `was`. */
    method EnterChild(childIndex: nat, weight: nat, nodeIndex: nat, consumed: nat, ghost base: NodeState,
                      ghost n0: NodeState, ghost s: NodeSchedule, ghost was: NodeSchedule, ghost now: NodeSchedule)
      requires Scanning(base, n0, s, State(), was) && now.pendingCount >= 1
      requires State() == n0.(scheduleNextIndex := scheduleNextIndex)
      requires was.nextChildIndex == childIndex < |children| && children[childIndex] == Node(weight, nodeIndex)
      requires consumed == Min(weight, was.budget) && now == Consumed(State(), was, now.pendingCount)
      modifies this
      ensures Scheduling(base, State(), now)
      ensures Acting(n0, s, State(), now, NodeAction.Recurse(childIndex, nodeIndex, consumed))
      ensures Recursed(base, childIndex, nodeIndex, consumed)
    {
      MoveAction(base, n0, s, State(), was, consumed, now);
      ghost var n' := MovedOut(State(), childIndex, consumed);
      MoveBudget(childIndex, weight, nodeIndex, consumed);
      assert State() == n';
    }

    /** Considers the child at the position `now`: it consumes its weight from the schedule, and may be a
        reason to act. */
    method ConsiderChild(now: NodeSchedule, ghost s: NodeSchedule, ghost base: NodeState, ghost n0: NodeState)
      returns (now': NodeSchedule, action: Option<NodeAction>)
      requires now.nextChildIndex < |children| && Scanning(base, n0, s, State(), now)
      requires State() == n0.(scheduleNextIndex := scheduleNextIndex)
      modifies this
      ensures now'.nextChildIndex == now.nextChildIndex + 1
      ensures action == None ==>
                State() == n0.(scheduleNextIndex := scheduleNextIndex) && Scanning(base, n0, s, State(), now')
      ensures action.Some? ==>
                && (action.value.Schedule? || action.value.Recurse?)
                && Scheduling(base, State(), now') && Acting(n0, s, State(), now', action.value)
                && (action.value.Recurse? ==>
                      Recursed(base, action.value.childIndex, action.value.nodeIndex, action.value.budget))
    {
      ghost var n := State();
      var childIndex := now.nextChildIndex;
      var consumed := Min(children[childIndex].Weight(), now.budget);
      var available := now.budget - consumed;
      now', action := NodeSchedule(childIndex + 1, available, now.pendingCount), None;
      assert now' == Consumed(n, now, now.pendingCount);
      match children[childIndex] {
        case Unscheduled(weight, input) =>
          now' := now'.(pendingCount := now'.pendingCount + 1);
          if consumed > 0 {
            StartChild(childIndex, weight, input, base, n0, s, now, now');
            return now', Some(Schedule(childIndex, input));
          }
          UnscheduledWeighs(base, n0, s, n, now);
        case Node(weight, nodeIndex) =>
          now' := now'.(pendingCount := now'.pendingCount + 1);
          EnterChild(childIndex, weight, nodeIndex, consumed, base, n0, s, now, now');
          return now', Some(NodeAction.Recurse(childIndex, nodeIndex, consumed));
        case Pending(_) =>
          now' := now'.(pendingCount := now'.pendingCount + 1);
        case Yielded =>
          if childIndex == scheduleNextIndex {
            scheduleNextIndex := scheduleNextIndex + 1;
          }
        case Output(_) =>
      }
      SkipAction(base, n0, s, n, State(), now, now');
    }

    /** The next scheduling action for this node, which was `base` when the pass came to it.  Children are
        considered in order, each consuming its weight from the schedule; none of the subtractions can go
        below zero. */
    method NextAction(s: NodeSchedule, ghost base: NodeState) returns (s': NodeSchedule, action: NodeAction)
      requires Scheduling(base, State(), s)
      modifies this
      ensures Scheduling(base, State(), s')
      ensures Acting(old(State()), s, State(), s', action)
      ensures action.Recurse? ==> Recursed(base, action.childIndex, action.nodeIndex, action.budget)
    {
      ghost var n0 := State();
      s' := s;
      ScannedNothing(base, n0, s);
      while s'.nextChildIndex < |children|
        invariant State() == n0.(scheduleNextIndex := scheduleNextIndex)
        invariant Scanning(base, n0, s, State(), s')
      {
        var next;
        s', next := ConsiderChild(s', s, base, n0);
        if next.Some? {
          return s', next.value;
        }
      }
      ScannedAll(base, n0, s, State(), s');
      return s', if s'.pendingCount > 0 then ActionPending else ActionComplete;
    }
  }

  /** Budget `b` is what child node `j` at position `c` of the node `base` takes. */
  ghost predicate Recursed(base: NodeState, c: nat, j: nat, b: nat) {
    c < |base.children| && base.children[c].Node? && base.children[c].nodeIndex == j && b == Take(base, c)
  }

  /** The children from the position of `s` to that of `s'` are not nodes. */
  ghost predicate Scanned(n: NodeState, s: NodeSchedule, s': NodeSchedule) {
    s.nextChildIndex <= s'.nextChildIndex && NoNodesBetween(n.children, s.nextChildIndex, s'.nextChildIndex)
  }

  /** Node `base` has become `n`, and its schedule has come to `s`. */
  ghost predicate Scheduling(base: NodeState, n: NodeState, s: NodeSchedule) {
    forall part {:trigger Look(part)} :: Look(part) && part == Part.NodeScan
      ==> LocalOk(n) && FrameOk(n, s) && Midway(base, n, s)
  }

  lemma Schedules(base: NodeState, n: NodeState, s: NodeSchedule)
    requires Scheduling(base, n, s)
    ensures LocalOk(n) && FrameOk(n, s) && Midway(base, n, s)
  {
    assert Look(Part.NodeScan);
  }

  /** The invariant of a scan that started with `s` in node `n0`, which is `n` by now. */
  ghost predicate Scanning(base: NodeState, n0: NodeState, s: NodeSchedule, n: NodeState, now: NodeSchedule) {
    && now.nextChildIndex <= |n.children|
    && Scheduling(base, n, now)
    && forall part {:trigger Look(part)} :: Look(part) && part == Part.NodeScan ==> Scanned(n0, s, now)
  }

  lemma ScannedNothing(base: NodeState, n: NodeState, s: NodeSchedule)
    requires Scheduling(base, n, s)
    ensures Scanning(base, n, s, n, s)
  {
    assert Look(Part.NodeScan);
  }

  lemma ScannedAll(base: NodeState, n0: NodeState, s: NodeSchedule, n: NodeState, now: NodeSchedule)
    requires Scanning(base, n0, s, n, now)
    ensures LocalOk(n) && FrameOk(n, now) && Scanned(n0, s, now) && Midway(base, n, now)
  {
    assert Look(Part.NodeScan);
  }

  /** An input has weight, so it is passed over only when no budget is left. */
  lemma UnscheduledWeighs(base: NodeState, n0: NodeState, s: NodeSchedule, n: NodeState, was: NodeSchedule)
    requires Scanning(base, n0, s, n, was) && was.nextChildIndex < |n.children|
    requires n.children[was.nextChildIndex].Unscheduled?
    ensures n.children[was.nextChildIndex].weight >= 1
  {
    ScannedAll(base, n0, s, n, was);
  }

  /** A child that is passed over leaves the frame in order. */
  lemma SkipAction(base: NodeState, n0: NodeState, s: NodeSchedule, n: NodeState, n': NodeState, was: NodeSchedule,
                   now: NodeSchedule)
    requires Scanning(base, n0, s, n, was) && n.children == n0.children
    requires was.nextChildIndex < |n.children| && !n.children[was.nextChildIndex].Node?
    requires n.children[was.nextChildIndex].Unscheduled? ==> was.budget == 0
    requires now == Consumed(n, was, now.pendingCount)
    requires n' == if n.children[was.nextChildIndex].Yielded? && was.nextChildIndex == n.scheduleNextIndex
                   then n.(scheduleNextIndex := was.nextChildIndex + 1) else n
    ensures Scanning(base, n0, s, n', now)
  {
    SkipScheduling(base, n, n', was, now);
    SkipScanned(base, n0, s, n, was, now);
  }

  lemma SkipScanned(base: NodeState, n0: NodeState, s: NodeSchedule, n: NodeState, was: NodeSchedule, now: NodeSchedule)
    requires Scanning(base, n0, s, n, was) && n.children == n0.children
    requires was.nextChildIndex < |n.children| && !n.children[was.nextChildIndex].Node?
    requires now.nextChildIndex == was.nextChildIndex + 1
    ensures forall part {:trigger Look(part)} :: Look(part) && part == Part.NodeScan ==> Scanned(n0, s, now)
  {
    assert Look(Part.NodeScan);
  }

  lemma SkipScheduling(base: NodeState, n: NodeState, n': NodeState, was: NodeSchedule, now: NodeSchedule)
    requires Scheduling(base, n, was)
    requires was.nextChildIndex < |n.children| && !n.children[was.nextChildIndex].Node?
    requires n.children[was.nextChildIndex].Unscheduled? ==> was.budget == 0
    requires now == Consumed(n, was, now.pendingCount)
    requires n' == if n.children[was.nextChildIndex].Yielded? && was.nextChildIndex == n.scheduleNextIndex
                   then n.(scheduleNextIndex := was.nextChildIndex + 1) else n
    ensures Scheduling(base, n', now)
  {
    Schedules(base, n, was);
    SkippedLocal(n, n', was.nextChildIndex);
    FrameSkip(n, was, now.pendingCount);
    FrameSame(n, n', now);
    MidwaySkip(base, n, was, n', now);
  }

  lemma FrameSame(n: NodeState, n': NodeState, s: NodeSchedule)
    requires FrameOk(n, s) && n' == n.(scheduleNextIndex := n'.scheduleNextIndex)
    ensures FrameOk(n', s)
  {
  }

  /** Only the place where scheduling starts next time has moved. */
  lemma SkippedLocal(n: NodeState, n': NodeState, c: nat)
    requires LocalOk(n) && c < |n.children|
    requires n' == if n.children[c].Yielded? && c == n.scheduleNextIndex then n.(scheduleNextIndex := c + 1) else n
    ensures LocalOk(n')
  {
    forall k | 0 <= k < |n'.children| && n'.children[k].Pending? ensures Reached(n', k) {
      assert Reached(n, k);
    }
  }

  /** An unscheduled child within the budget is started. */
  lemma ScheduleAction(base: NodeState, n0: NodeState, s: NodeSchedule, n: NodeState, was: NodeSchedule,
                       now: NodeSchedule)
    requires Scanning(base, n0, s, n, was) && was.budget > 0
    requires n == n0.(scheduleNextIndex := n.scheduleNextIndex)
    requires was.nextChildIndex < |n.children| && n.children[was.nextChildIndex].Unscheduled?
    requires now == Consumed(n, was, now.pendingCount)
    ensures var c := was.nextChildIndex;
            var n' := SetChild(n, c, Pending(n.children[c].weight));
            && n' == n.(children := n.children[c := Pending(n.children[c].weight)])
            && Scheduling(base, n', now) && Acting(n0, s, n', now, Schedule(c, n.children[c].input))
  {
    ScannedAll(base, n0, s, n, was);
    FrameSchedule(n, was, now.pendingCount);
    MidwayStart(base, n, was, SetChild(n, was.nextChildIndex, Pending(n.children[was.nextChildIndex].weight)), now);
  }

  /** Budget moves into a child node. */
  lemma MoveAction(base: NodeState, n0: NodeState, s: NodeSchedule, n: NodeState, was: NodeSchedule, b: nat,
                   now: NodeSchedule)
    requires Scanning(base, n0, s, n, was) && now.pendingCount >= 1
    requires n == n0.(scheduleNextIndex := n.scheduleNextIndex)
    requires was.nextChildIndex < |n.children| && n.children[was.nextChildIndex].Node?
    requires b == Min(n.children[was.nextChildIndex].weight, was.budget) && now == Consumed(n, was, now.pendingCount)
    ensures var c := was.nextChildIndex;
            && b <= n.budget && b <= n.remainingWeight
            && MovedOut(n, c, b)
               == n.(children := n.children[c := Node(n.children[c].weight - b, n.children[c].nodeIndex)],
                                       remainingWeight := n.remainingWeight - b, budget := n.budget - b)
            && Scheduling(base, MovedOut(n, c, b), now)
            && Recursed(base, c, n.children[c].nodeIndex, b)
            && Acting(n0, s, MovedOut(n, c, b), now, NodeAction.Recurse(c, n.children[c].nodeIndex, b))
  {
    MoveScheduling(base, n, was, b, now);
    ScannedAll(base, n0, s, n, was);
    MoveActs(n0, s, n, was, b, now);
  }

  lemma MoveActs(n0: NodeState, s: NodeSchedule, n: NodeState, was: NodeSchedule, b: nat, now: NodeSchedule)
    requires Scanned(n0, s, was) && now.pendingCount >= 1 && now.nextChildIndex == was.nextChildIndex + 1
    requires n == n0.(scheduleNextIndex := n.scheduleNextIndex)
    requires was.nextChildIndex < |n.children| && n.children[was.nextChildIndex].Node?
    requires b <= n.budget && b <= n.children[was.nextChildIndex].weight
             && (b >= 1 ==> MoveAllowed(n, was.nextChildIndex, b))
    ensures Acting(n0, s, MovedOut(n, was.nextChildIndex, b), now,
                   NodeAction.Recurse(was.nextChildIndex, n.children[was.nextChildIndex].nodeIndex, b))
  {
  }

  lemma MoveScheduling(base: NodeState, n: NodeState, was: NodeSchedule, b: nat, now: NodeSchedule)
    requires Scheduling(base, n, was) && was.nextChildIndex < |n.children| && n.children[was.nextChildIndex].Node?
    requires b == Min(n.children[was.nextChildIndex].weight, was.budget) && now == Consumed(n, was, now.pendingCount)
    ensures var c := was.nextChildIndex;
            && b <= n.budget && b <= n.remainingWeight && (b >= 1 ==> MoveAllowed(n, c, b))
            && MovedOut(n, c, b)
               == n.(children := n.children[c := Node(n.children[c].weight - b, n.children[c].nodeIndex)],
                                       remainingWeight := n.remainingWeight - b, budget := n.budget - b)
            && Scheduling(base, MovedOut(n, c, b), now)
            && Recursed(base, c, n.children[c].nodeIndex, b)
  {
    Schedules(base, n, was);
    MoveFrame(n, was, b, now);
    MidwayMove(base, n, was, b, MovedOut(n, was.nextChildIndex, b), now);
  }

  lemma MoveFrame(n: NodeState, was: NodeSchedule, b: nat, now: NodeSchedule)
    requires LocalOk(n) && FrameOk(n, was)
    requires was.nextChildIndex < |n.children| && n.children[was.nextChildIndex].Node?
    requires b == Min(n.children[was.nextChildIndex].weight, was.budget) && now == Consumed(n, was, now.pendingCount)
    ensures var c := was.nextChildIndex;
            && b <= n.budget && b <= n.remainingWeight && (b >= 1 ==> MoveAllowed(n, c, b))
            && MovedOut(n, c, b)
               == n.(children := n.children[c := Node(n.children[c].weight - b, n.children[c].nodeIndex)],
                                       remainingWeight := n.remainingWeight - b, budget := n.budget - b)
            && LocalOk(MovedOut(n, c, b)) && FrameOk(MovedOut(n, c, b), now)
  {
    FrameMove(n, was, now.pendingCount);
    MovedOutLocal(n, was.nextChildIndex, b);
    MoveMayEmpty(n, was, b);
  }

  lemma MoveMayEmpty(n: NodeState, was: NodeSchedule, b: nat)
    requires LocalOk(n) && was.nextChildIndex < |n.children| && n.children[was.nextChildIndex].Node?
    requires b <= n.budget && b <= n.children[was.nextChildIndex].weight
    requires b >= 1 ==> n.budget >= TotalWeight(n.children[..was.nextChildIndex]) + b
    ensures b >= 1 ==> MoveAllowed(n, was.nextChildIndex, b)
  {
    if n.budget == b && b >= 1 {
      WeightlessBefore(n, was.nextChildIndex);
    }
  }

  /** What a scheduling action means for the node `n`, which becomes `n'`. */
  ghost predicate ActionOk(n: NodeState, s: NodeSchedule, n': NodeState, s': NodeSchedule, action: NodeAction) {
    match action
    case Schedule(c, input) =>
      && s.nextChildIndex <= c < |n.children| && s'.nextChildIndex == c + 1
      && NoNodesBetween(n.children, s.nextChildIndex, c + 1)
      && n.children[c].Unscheduled? && n.children[c].input == input
      && n' == n.(children := n.children[c := Pending(n.children[c].weight)], scheduleNextIndex := n'.scheduleNextIndex)
    case Recurse(c, j, b) =>
      && s.nextChildIndex <= c < |n.children| && s'.nextChildIndex == c + 1 && s'.pendingCount >= 1
      && NoNodesBetween(n.children, s.nextChildIndex, c)
      && n.children[c].Node? && n.children[c].nodeIndex == j
      && b <= n.children[c].weight && b <= n.budget
      && n' == MovedOut(n, c, b).(scheduleNextIndex := n'.scheduleNextIndex)
      && (b >= 1 ==> MoveAllowed(n, c, b))
    case _ =>
      && s'.nextChildIndex == |n.children| && Scanned(n, s, s') && (action.ActionPending? <==> s'.pendingCount > 0)
      && n' == n.(scheduleNextIndex := n'.scheduleNextIndex)
  }

  ghost predicate Acting(n: NodeState, s: NodeSchedule, n': NodeState, s': NodeSchedule, action: NodeAction) {
    forall part {:trigger Look(part)} :: Look(part) && part == Part.NodeAction ==> ActionOk(n, s, n', s', action)
  }

  lemma Acts(n: NodeState, s: NodeSchedule, n': NodeState, s': NodeSchedule, action: NodeAction)
    requires Acting(n, s, n', s', action)
    ensures ActionOk(n, s, n', s', action)
  {
    assert Look(Part.NodeAction);
  }

  // ---------------------------------------------------------------- sums

  ghost predicate Below(t: Tree, top: nat) {
    forall i :: i in t ==> i <= top
  }

  /** Passing surplus up keeps the total budget; from the root the surplus leaves the tree. */
  lemma PassedUpSums(t: Tree, t': Tree, k: nat, top: nat)
    requires PassedUp(t, t', k) && Below(t, top)
    ensures BudgetTotal(t', top) + (if t[k].parent.Some? then 0 else SaturatingSub(t[k].budget, t[k].remainingWeight))
         == BudgetTotal(t, top)
    ensures WeightTotal(t', top) == WeightTotal(t, top)
  {
    var mid := t[k := t'[k]];
    SumChange(Budgets(t), Budgets(mid), k, top + 1);
    if t[k].parent.Some? {
      SumChange(Budgets(mid), Budgets(t'), t[k].parent.value.nodeIndex, top + 1);
    } else {
      SumSame(Budgets(mid), Budgets(t'), top + 1);
    }
    SumSame(Weights(t), Weights(t'), top + 1);
  }

  /** Moving budget into a child keeps the total budget and uses up weight. */
  lemma MovedSums(t: Tree, t': Tree, p: nat, c: nat, b: nat, top: nat)
    requires Moved(t, t', p, c, b) && Below(t, top)
    requires LocalOk(t[p])
    ensures BudgetTotal(t', top) == BudgetTotal(t, top)
    ensures WeightTotal(t', top) + b == WeightTotal(t, top)
  {
    var k := t[p].children[c].nodeIndex;
    var mid := t[p := t'[p]];
    WeightReplaced(t[p].children, c, Node(t[p].children[c].weight - b, k));
    SumChange(Budgets(t), Budgets(mid), p, top + 1);
    SumChange(Budgets(mid), Budgets(t'), k, top + 1);
    SumChange(Weights(t), Weights(t'), p, top + 1);
  }

  /** Only node `k` changes. */
  lemma OneNodeSums(t: Tree, t': Tree, k: nat, top: nat)
    requires k in t && t'.Keys == t.Keys && Below(t, top)
    requires forall i :: i in t && i != k ==> t'[i] == t[i]
    ensures BudgetTotal(t', top) + t[k].budget == BudgetTotal(t, top) + t'[k].budget
    ensures WeightTotal(t', top) + t[k].remainingWeight == WeightTotal(t, top) + t'[k].remainingWeight
    ensures t[k].budget <= BudgetTotal(t, top)
  {
    SumChange(Budgets(t), Budgets(t'), k, top + 1);
    SumChange(Weights(t), Weights(t'), k, top + 1);
    SumAtLeast(Budgets(t), k, top + 1);
  }

  lemma RemovedSums(t: Tree, t': Tree, at: nat, top: nat)
    requires NodeRemoved(t, t', at) && Below(t, top)
    requires var p := t[at].parent.value;
             && t'[p.nodeIndex]
                == SetChild(t[p.nodeIndex], p.childIndex, Yielded).(budget := t[p.nodeIndex].budget + t[at].budget)
    requires LocalOk(t[t[at].parent.value.nodeIndex])
    ensures BudgetTotal(t', top) == BudgetTotal(t, top)
    ensures WeightTotal(t', top) <= WeightTotal(t, top)
  {
    var p := t[at].parent.value;
    var mid := t - {at};
    SumChange(Budgets(t), Budgets(mid), at, top + 1);
    SumChange(Budgets(mid), Budgets(t'), p.nodeIndex, top + 1);
    SumChange(Weights(t), Weights(mid), at, top + 1);
    SumChange(Weights(mid), Weights(t'), p.nodeIndex, top + 1);
    WeightReplaced(t[p.nodeIndex].children, p.childIndex, Yielded);
  }

  /** There are never more unfolds outstanding than there is budget in the tree. */
  lemma OutstandingWithinBudget(t: Tree, top: nat)
    requires forall i :: i in t ==> LocalOk(t[i])
    ensures PendingTotal(t, top) <= BudgetTotal(t, top)
  {
    forall j | 0 <= j < top + 1 ensures At(PendingCounts(t), j) <= At(Budgets(t), j) {
      if j in t {
        PendingWithinBudget(t[j], |t[j].children|);
        assert t[j].children[..|t[j].children|] == t[j].children;
      }
    }
    SumMonotone(PendingCounts(t), Budgets(t), top + 1);
  }
}
