/** The ordered traversal itself: a stream over an execution tree of mutable nodes. */
module OrderedStream {
  import opened Common
  import opened OrderedTree
  import opened OrderedSteps
  import opened OrderedFunding
  import opened OrderedPass
  import opened OrderedFlow
  import opened OrderedNode
  import opened OrderedScheduling
  import opened OrderedRelease
  import opened OrderedCursor
  import opened OrderedQuiet
  import opened OrderedMachine

  /** The result of a poll; `Diverges` stands for a poll that goes round its loop for ever. */
  datatype Poll = Ready(output: Option<Out>) | PollPending | Diverges

  /** The children of a node that was unfolded into `items`. */
  method UnfoldChildren(items: seq<OrderedTraversal>) returns (children: seq<Child>, totalWeight: nat)
    ensures FreshChildren(children, items)
    ensures totalWeight == TotalWeight(children)
  {
    children, totalWeight := [], 0;
    for i := 0 to |items|
      invariant FreshChildren(children, items[..i])
      invariant totalWeight == TotalWeight(children)
    {
      var child := match items[i]
        case Output(out) => Child.Output(out)
        case Recurse(weight, input) => Unscheduled(if weight == 0 then 1 else weight, input);
      assert (children + [child])[..|children|] == children;
      children := children + [child];
      totalWeight := totalWeight + child.Weight();
    }
    assert items[..|items|] == items;
  }

  /** The roots of a traversal, as items of the root node. */
  function Roots(init: seq<(nat, Input)>): (items: seq<OrderedTraversal>)
    ensures |items| == |init|
    ensures forall i :: 0 <= i < |init| ==> items[i] == OrderedTraversal.Recurse(init[i].0, init[i].1)
  {
    seq(|init|, i requires 0 <= i < |init| => OrderedTraversal.Recurse(init[i].0, init[i].1))
  }

  /** The pass after child `ci` of node `x` was started. */
  ghost function StartedPass(p: Pass, x: nat, n': NodeState, s': NodeSchedule, ci: nat, input: Input): Pass
    requires p.stack != [] && x in p.t && x in p.vt
  {
    p.(t := p.t[x := n'], vt := p.vt[x := n'.(budget := p.vt[x].budget)],
       stack := WithLast(p.stack, Last(p.stack).(nodeSchedule := Some(s'))),
       jobs := p.jobs + [Job(NodeLocation(x, ci), input)], pending := p.pending[NodeLocation(x, ci) := input])
  }

  /** Node `x` holds no more budget than it needs. */
  ghost predicate Sated(p: Pass, x: nat) {
    x in p.t && p.t[x].budget <= p.t[x].remainingWeight
  }

  /** What one action does to the pass. */
  ghost predicate Acted(p: Pass, p': Pass, s': NodeSchedule, action: NodeAction)
    requires p.stack != []
  {
    var waiting := WithLast(p.stack, Last(p.stack).(nodeSchedule := Some(s')));
    match action
    case Schedule(_, _) => p'.stack == waiting && p'.visited == p.visited && p'.additional == 0
    case Recurse(ci, j, b) =>
      && j !in p.visited && p'.visited == p.visited + {j} && j in p.t && p'.additional == b
      && p'.stack == waiting + [Frame(j, Some(ci), None, 0)]
    case _ =>
      && p'.visited == p.visited && p'.additional == Last(p.stack).surplus && p'.stack == p.stack[..|p.stack| - 1]
      && (p'.stack != [] ==> Last(p'.stack).nodeSchedule.Some? && Last(p'.stack).nodeSchedule.value.pendingCount >= 1)
  }

  /** Starting unfolds only advances the schedule of the last frame. */
  lemma ActedTwice(p: Pass, q: Pass, p': Pass, s1: NodeSchedule, s2: NodeSchedule, started: NodeAction,
                   action: NodeAction)
    requires p.stack != [] && started.Schedule? && Acted(p, q, s1, started)
    ensures q.stack != [] && Last(q.stack).nodeIndex == Last(p.stack).nodeIndex
    ensures Last(q.stack).nodeSchedule == Some(s1) && q.additional == 0
    ensures q.t.Keys == p.t.Keys && Acted(q, p', s2, action) ==> Acted(p, p', s2, action)
  {
    assert WithLast(q.stack, Last(q.stack).(nodeSchedule := Some(s2)))
        == WithLast(p.stack, Last(p.stack).(nodeSchedule := Some(s2)));
    assert q.stack[..|q.stack| - 1] == p.stack[..|p.stack| - 1];
  }

  /** The effect of an action on a stack whose last frame was updated first. */
  lemma ActedOn(stack: seq<Frame>, f: Frame, p: Pass, p': Pass, s: NodeSchedule, action: NodeAction)
    requires stack != [] && p.stack == WithLast(stack, f) && Acted(p, p', s, action)
    ensures action.Recurse? ==>
              && p'.stack == stack[|stack| - 1 := f.(nodeSchedule := Some(s))]
                             + [Frame(action.nodeIndex, Some(action.childIndex), None, 0)]
              && p.t.Keys - p'.visited < p.t.Keys - p.visited
    ensures action.ActionPending? || action.ActionComplete? ==>
              && p'.stack == stack[..|stack| - 1] && p'.additional == f.surplus && p'.visited == p.visited
              && (p'.stack != []
                  ==> Last(p'.stack).nodeSchedule.Some? && Last(p'.stack).nodeSchedule.value.pendingCount >= 1)
  {
    if action.Recurse? {
      assert action.nodeIndex in p.t.Keys - p.visited && action.nodeIndex !in p.t.Keys - p'.visited;
    }
  }

  lemma ReplacedTwice(stack: seq<Frame>, f: Frame, excess: nat)
    requires stack != []
    ensures Last(WithLast(stack, f)) == f
    ensures WithLast(WithLast(stack, f), f.(surplus := f.surplus + excess))
            == WithLast(stack, f.(surplus := f.surplus + excess))
    ensures Last(WithLast(stack, f.(surplus := f.surplus + excess))) == f.(surplus := f.surplus + excess)
  {
  }

  lemma RemovedNode(m: map<nat, Node>, k: nat)
    requires k in m
    ensures (m - {k}).Values <= m.Values && |m - {k}| < |m|
  {
    assert m.Keys == (m - {k}).Keys + {k} && |m.Keys| == |m| && |(m - {k}).Keys| == |m - {k}|;
  }

  /** Giving up expired budget, and then surplus. */
  lemma BeginsRelease(t: Tree, t1: Tree, t': Tree, at: nat, surplus: nat)
    requires at in t && t1 == t[at := WithoutExpired(t[at])]
    requires t' == t1[at := t1[at].(budget := Min(t1[at].budget, t1[at].remainingWeight))]
    requires surplus == SaturatingSub(t1[at].budget, t1[at].remainingWeight)
    ensures ReleaseUp(t', at, surplus) == Release(t, at)
  {
    var n := WithoutExpired(t[at]);
    assert t' == t[at := n.(budget := Min(n.budget, n.remainingWeight))];
  }

  class BoundedTraversalOrderedStream {
    const scheduledMax: nat
    var totalBudget: nat
    var limit: Option<nat>
    var scheduleQueue: seq<Job>
    var scheduled: seq<Job>
    var executionTree: map<nat, Node>
    var executionTreeIndex: nat
    var yieldNextLocation: Option<Location>

    /** What the stream was created with, and the in-order list of all values below the roots. */
    ghost const queuedMax: nat
    ghost const outputLimit: Option<nat>
    ghost const all: seq<Out>

    /** What has been emitted so far; what the nodes and the pending children stand for; where budget is. */
    ghost var emitted: seq<Out>
    ghost var labels: Labels
    ghost var pending: map<Location, Input>
    ghost var avail: set<nat>
    ghost var dead: set<nat>
    /** Whether budget has expired, because fewer items are to come than there is budget. */
    ghost var expiring: bool

    ghost function Tree(): Tree
      reads `executionTree, executionTree.Values
    {
      map i | i in executionTree :: executionTree[i].State()
    }

    /** What the stream does next depends on this, and on which unfolds complete. */
    ghost function Now(): Situation
      reads `executionTree, executionTree.Values, `executionTreeIndex, `yieldNextLocation, `limit, `totalBudget
    {
      Situation(Tree(), executionTreeIndex, yieldNextLocation, limit, totalBudget)
    }

    /** All unfolds that were started and not completed. */
    ghost function Jobs(): seq<Job>
      reads `scheduled, `scheduleQueue
    {
      scheduled + scheduleQueue
    }

    ghost predicate NodesDistinct()
      reads `executionTree
    {
      forall i, j :: i in executionTree && j in executionTree && i != j ==> executionTree[i] != executionTree[j]
    }

    /** Nodes are not shared; no more unfolds run than allowed, and none waits while another could run. */
    ghost predicate Sound()
      reads `executionTree, `scheduled, `scheduleQueue, `expiring
    {
      && NodesDistinct()
      && (expiring ==> outputLimit.Some?)
      && scheduledMax >= 1
      && |scheduled| <= scheduledMax
      && (scheduleQueue != [] ==> |scheduled| == scheduledMax)
    }

    /** Everything but what was emitted, with the cursor in node `at`. */
    ghost predicate Base(at: nat)
      reads this, executionTree.Values
    {
      && Sound()
      && Consistent(Tree(), executionTreeIndex, labels, pending, at, Jobs())
      && BudgetTotal(Tree(), executionTreeIndex) == totalBudget <= queuedMax
      && (!expiring ==> Unexpired(Tree()))
      && FundedPart(expiring, Tree(), avail, dead)
    }

    lemma BaseFrom(at: nat)
      requires Sound() && (!expiring ==> Unexpired(Tree()))
      requires Consistent(Tree(), executionTreeIndex, labels, pending, at, Jobs())
      requires BudgetTotal(Tree(), executionTreeIndex) == totalBudget <= queuedMax
      requires FundedPart(expiring, Tree(), avail, dead)
      ensures Base(at)
    {
    }

    ghost predicate LimitOk()
      reads this
    {
      && limit.Some? == outputLimit.Some?
      && (limit.Some? ==> limit.value >= 1 && |emitted| + limit.value == outputLimit.value)
      && (expiring ==> limit.Some? && limit.value < queuedMax && emitted != [])
    }

    /** The traversal is under way. */
    ghost predicate Walking(at: nat)
      reads this, executionTree.Values
    {
      Base(at) && LimitOk() && emitted + Remaining(labels, at) == all
    }

    /** What the stream emits before it ends: everything, or as much of it as the limit allows. */
    ghost function Result(): seq<Out> {
      match outputLimit
      case None => all
      case Some(n) => all[..Min(n, |all|)]
    }

    /** The traversal has ended. */
    ghost predicate Ended()
      reads this
    {
      Sound() && Jobs() == [] && emitted == Result()
    }

    /** Between polls the traversal has ended, or continues at the location to yield from. */
    ghost predicate Resting()
      reads this, executionTree.Values
    {
      match yieldNextLocation
      case None => Ended()
      case Some(loc) => Walking(loc.nodeIndex) && loc.childIndex == labels[loc.nodeIndex].done
    }

    /** The invariant of the stream, as a poll passes it on. */
    ghost predicate Valid()
      reads this, executionTree.Values
    {
      forall part {:trigger Look(part)} :: Look(part) && part == Part.Stream ==> Resting()
    }

    lemma Rests(at: nat)
      requires Base(at) && LimitOk() && emitted + Remaining(labels, at) == all
      requires yieldNextLocation == Some(NodeLocation(at, labels[at].done))
      ensures Valid()
    {
    }

    // -------------------------------------------------------------- scheduling

    /** What scheduling leaves alone. */
    twostate predicate Steady()
      reads this
    {
      && executionTree == old(executionTree) && executionTreeIndex == old(executionTreeIndex)
      && totalBudget == old(totalBudget) && limit == old(limit)
      && yieldNextLocation == old(yieldNextLocation)
      && labels == old(labels) && emitted == old(emitted) && expiring == old(expiring)
    }

    /** The ghost state of a pass agrees with the stream. */
    ghost predicate InPass(c: Context, p: Pass)
      reads this, executionTree.Values
    {
      && PassOk(c, p) && p.t == Tree() && p.jobs == Jobs() && p.pending == pending
      && Sound()
      && c.limited == expiring && (!expiring ==> Unexpired(Tree()))
    }

    /** Starts an unfold, or queues it if enough are running. */
    method StartUnfold(location: Location, input: Input)
      requires Sound()
      modifies `scheduled, `scheduleQueue, `pending
      ensures Sound() && Jobs() == old(Jobs()) + [Job(location, input)]
      ensures pending == old(pending)[location := input]
      ensures Steady() && Tree() == old(Tree())
    {
      var job := Job(location, input);
      if |scheduled| >= scheduledMax {
        scheduleQueue := scheduleQueue + [job];
      } else {
        scheduled := scheduled + [job];
      }
      pending := pending[location := input];
    }

    /** Asks node `x`, which was `base` when the pass came to it, for its next action; nothing else changes. */
    method NodeNextAction(node: Node, x: nat, s: NodeSchedule, ghost t: Tree, ghost base: NodeState)
      returns (s': NodeSchedule, action: NodeAction, ghost n': NodeState)
      requires Sound() && x in executionTree && executionTree[x] == node && t == Tree()
      requires Scheduling(base, t[x], s)
      modifies node
      ensures Sound() && Jobs() == old(Jobs()) && pending == old(pending) && Steady()
      ensures Tree() == t[x := n']
      ensures old(Unexpired(Tree())) ==> Unexpired(Tree())
      ensures Scheduling(base, n', s') && LocalOk(n') && FrameOk(n', s') && ActionOk(t[x], s, n', s', action)
      ensures action.Recurse? ==> Recursed(base, action.childIndex, action.nodeIndex, action.budget)
      ensures n'.expired == t[x].expired
    {
      s', action := node.NextAction(s, base);
      n' := node.State();
      Acts(t[x], s, n', s', action);
      Schedules(base, n', s');
      assert Tree() == t[x := n'];
    }

    /** Starts child `ci` of node `x`, which has become `n'`. */
    method StartChild(x: nat, ci: nat, input: Input, ghost c: Context, ghost p: Pass, ghost n': NodeState,
                      ghost s': NodeSchedule) returns (ghost p': Pass)
      requires PassOk(c, p) && p.additional == 0 && Started(p, n', s', ci, input)
      requires Last(p.stack).nodeIndex == x && x in c.t0 && x in p.t && x in p.vt && Scheduling(c.t0[x], n', s')
      requires Sound() && Tree() == p.t[x := n'] && Jobs() == p.jobs && pending == p.pending
      requires c.limited == expiring && (!expiring ==> Unexpired(Tree()))
      modifies `scheduled, `scheduleQueue, `pending
      ensures InPass(c, p') && Steady() && p' == StartedPass(p, x, n', s', ci, input)
    {
      p' := StartedPass(p, x, n', s', ci, input);
      PassSchedule(c, p, n', s', ci, input, p');
      StartUnfold(NodeLocation(x, ci), input);
    }

    /** Performs one scheduling action of node `x`. */
    method ScheduleAction(node: Node, x: nat, s: NodeSchedule, ghost c: Context, ghost p: Pass)
      returns (s': NodeSchedule, action: NodeAction, ghost p': Pass)
      requires InPass(c, p) && p.additional == 0
      requires p.stack != [] && Last(p.stack).nodeIndex == x && Last(p.stack).nodeSchedule == Some(s)
      requires x in executionTree && executionTree[x] == node && Sated(p, x)
      modifies `scheduled, `scheduleQueue, `pending, node
      ensures InPass(c, p') && Steady()
      ensures Acted(p, p', s', action)
      ensures s.nextChildIndex <= s'.nextChildIndex <= |p.t[x].children|
      ensures x in p'.t && |p'.t[x].children| == |p.t[x].children|
      ensures action.Schedule? ==> s.nextChildIndex < s'.nextChildIndex && Sated(p', x)
      ensures p'.t.Keys == p.t.Keys
    {
      PassLast(c, p);
      ghost var n';
      s', action, n' := NodeNextAction(node, x, s, p.t, c.t0[x]);
      match action {
        case Schedule(ci, input) =>
          p' := StartChild(x, ci, input, c, p, n', s');
        case Recurse(ci, j, b) =>
          p' := PassEnter(c, p, n', s', ci, j, b);
        case _ =>
          p' := PassFinish(c, p, n', s', action);
      }
    }

    /** Runs the schedule `s` of node `x` until it recurses into a child or is finished. */
    method ScheduleChildren(node: Node, x: nat, s: NodeSchedule, ghost c: Context, ghost p: Pass)
      returns (s': NodeSchedule, action: NodeAction, ghost p': Pass)
      requires InPass(c, p) && p.additional == 0
      requires p.stack != [] && Last(p.stack).nodeIndex == x && Last(p.stack).nodeSchedule == Some(s)
      requires x in executionTree && executionTree[x] == node && Sated(p, x)
      modifies `scheduled, `scheduleQueue, `pending, node
      ensures InPass(c, p') && Steady()
      ensures !action.Schedule? && Acted(p, p', s', action)
    {
      s', action, p' := ScheduleAction(node, x, s, c, p);
      while action.Schedule?
        invariant InPass(c, p') && Steady()
        invariant Acted(p, p', s', action)
        invariant p'.t.Keys == p.t.Keys && (action.Schedule? ==> Sated(p', x))
        invariant x in p'.t && s'.nextChildIndex <= |p'.t[x].children| == |p.t[x].children|
        decreases action.Schedule?, |p.t[x].children| - s'.nextChildIndex
      {
        ghost var q, s1, started := p', s', action;
        ActedTwice(p, q, q, s1, s1, started, action);
        s', action, p' := ScheduleAction(node, x, s', c, q);
        ActedTwice(p, q, p', s1, s', started, action);
      }
    }

    /** Gives node `x` the budget that was in flight towards it; nothing else changes. */
    method NodeAddBudget(node: Node, x: nat, budget: nat, ghost t: Tree) returns (surplus: nat)
      requires Sound() && x in executionTree && executionTree[x] == node && t == Tree()
      modifies node
      ensures Sound() && Jobs() == old(Jobs()) && pending == old(pending) && Steady()
      ensures Tree() == t[x := t[x].(budget := Min(t[x].budget + budget, t[x].remainingWeight))]
      ensures surplus == SaturatingSub(t[x].budget + budget, t[x].remainingWeight)
      ensures old(Unexpired(Tree())) ==> Unexpired(Tree())
    {
      surplus := node.AddBudget(budget);
      assert Tree() == t[x := node.State()];
    }

    /** The schedule of the last frame when it is looked at again: a new snapshot the first time, and
        without the child that has just completed. */
    static method Resume(frame: Frame, node: Node, completed: Option<nat>, ghost c: Context, ghost p: Pass)
      returns (s: NodeSchedule, ghost p': Pass)
      requires PassOk(c, p) && p.stack != [] && Last(p.stack) == frame
      requires frame.nodeIndex in p.t && p.t[frame.nodeIndex] == node.State()
      requires completed.Some? ==> frame.nodeSchedule.Some? && frame.nodeSchedule.value.pendingCount >= 1
      ensures PassOk(c, p') && p' == p.(stack := WithLast(p.stack, frame.(nodeSchedule := Some(s))))
      ensures match frame.nodeSchedule
              case None => s == NodeSchedule(node.scheduleNextIndex, node.budget, 0)
              case Some(current) =>
                s == current.(pendingCount := s.pendingCount)
                && s.pendingCount + (if completed.Some? then 1 else 0) == current.pendingCount
    {
      match frame.nodeSchedule {
        case None =>
          s := node.NewSchedule();
          p' := Begun(p);
          PassBegin(c, p);
        case Some(current) =>
          s := if completed.Some? then current.(pendingCount := current.pendingCount - 1) else current;
          p' := p.(stack := WithLast(p.stack, frame.(nodeSchedule := Some(s))));
          PassRecount(c, p, s.pendingCount, p');
      }
    }

    /** The node of the last frame receives the budget in flight towards it. */
    method ReceiveBudget(node: Node, x: nat, budget: nat, ghost c: Context, ghost p: Pass)
      returns (excess: nat, ghost p': Pass)
      requires InPass(c, p) && p.additional == budget
      requires p.stack != [] && Last(p.stack).nodeIndex == x && Last(p.stack).nodeSchedule.Some?
      requires x in executionTree && executionTree[x] == node
      modifies node
      ensures InPass(c, p') && Steady()
      ensures p'.stack == WithLast(p.stack, Last(p.stack).(surplus := Last(p.stack).surplus + excess))
      ensures p'.additional == 0 && p'.visited == p.visited && p'.t.Keys == p.t.Keys && Sated(p', x)
    {
      excess := NodeAddBudget(node, x, budget, p.t);
      p' := PassReceive(c, p, Tree(), excess,
                        WithLast(p.stack, Last(p.stack).(surplus := Last(p.stack).surplus + excess)));
    }

    /** The last frame resumes: it takes its schedule up again and receives budget. */
    method ResumeFrame(frame: Frame, completed: Option<nat>, additional: nat, node: Node, ghost c: Context,
                       ghost p: Pass)
      returns (frame': Frame, s: NodeSchedule, ghost p': Pass)
      requires InPass(c, p) && p.additional == additional && p.stack != [] && Last(p.stack) == frame
      requires frame.nodeIndex in executionTree && executionTree[frame.nodeIndex] == node
      requires completed.Some? ==> frame.nodeSchedule.Some? && frame.nodeSchedule.value.pendingCount >= 1
      modifies node
      ensures InPass(c, p') && Steady()
      ensures frame'.nodeIndex == frame.nodeIndex && frame'.nodeSchedule == Some(s)
              && frame'.childIndex == frame.childIndex
      ensures p'.stack == WithLast(p.stack, frame') && Last(p'.stack) == frame'
      ensures p'.additional == 0 && p'.visited == p.visited && p'.t.Keys == p.t.Keys && Sated(p', frame.nodeIndex)
    {
      ghost var p1;
      s, p1 := Resume(frame, node, completed, c, p);
      var excess;
      excess, p' := ReceiveBudget(node, frame.nodeIndex, additional, c, p1);
      ReplacedTwice(p.stack, frame.(nodeSchedule := Some(s)), excess);
      frame' := frame.(nodeSchedule := Some(s), surplus := frame.surplus + excess);
    }

    /** One turn of the pass: the last frame resumes, receives budget, and schedules its children. */
    method VisitFrame(stack: seq<Frame>, completed: Option<nat>, additional: nat, node: Node, ghost c: Context,
                      ghost p: Pass)
      returns (stack': seq<Frame>, completed': Option<nat>, additional': nat, ghost p': Pass)
      requires InPass(c, p) && p.stack == stack && p.additional == additional
      requires stack != [] && Last(stack).nodeIndex in executionTree && executionTree[Last(stack).nodeIndex] == node
      requires completed.Some? ==> Last(stack).nodeSchedule.Some? && Last(stack).nodeSchedule.value.pendingCount >= 1
      modifies `scheduled, `scheduleQueue, `pending, node
      ensures InPass(c, p') && Steady()
      ensures p'.stack == stack' && p'.additional == additional'
      ensures completed'.Some? && stack' != [] ==>
                Last(stack').nodeSchedule.Some? && Last(stack').nodeSchedule.value.pendingCount >= 1
      ensures (p'.visited == p.visited && |stack'| < |stack|)
           || p.t.Keys - p'.visited < p.t.Keys - p.visited
      ensures p'.t.Keys == p.t.Keys
    {
      var frame, s, p1 := ResumeFrame(stack[|stack| - 1], completed, additional, node, c, p);
      var action;
      s, action, p' := ScheduleChildren(node, frame.nodeIndex, s, c, p1);
      ActedOn(stack, frame, p1, p', s, action);
      match action {
        case Recurse(ci, j, b) =>
          completed', additional' := None, b;
          stack' := stack[|stack| - 1 := frame.(nodeSchedule := Some(s))] + [Frame(j, Some(ci), None, 0)];
        case ActionPending =>
          completed', additional', stack' := None, frame.surplus, stack[..|stack| - 1];
        case ActionComplete =>
          completed', additional', stack' := frame.childIndex, frame.surplus, stack[..|stack| - 1];
      }
    }

    /** Budget that has left the tree no longer counts. */
    method DropBudget(budget: nat, ghost avail': set<nat>, ghost dead': set<nat>)
      requires Sound() && budget <= totalBudget
      modifies `totalBudget, `avail, `dead
      ensures totalBudget == old(totalBudget) - budget && avail == avail' && dead == dead'
      ensures Sound() && Tree() == old(Tree()) && Jobs() == old(Jobs()) && executionTree == old(executionTree)
      ensures executionTreeIndex == old(executionTreeIndex) && labels == old(labels) && pending == old(pending)
      ensures limit == old(limit) && emitted == old(emitted) && yieldNextLocation == old(yieldNextLocation)
      ensures expiring == old(expiring)
    {
      totalBudget := totalBudget - budget;
      avail, dead := avail', dead';
    }

    /** The budget left over at the root leaves the total; what is left in the tree adds up to it. */
    method LeaveBudget(ghost at: nat, budget: nat, ghost avail': set<nat>, ghost dead': set<nat>)
      requires Sound() && Consistent(Tree(), executionTreeIndex, labels, pending, at, Jobs())
      requires BudgetTotal(Tree(), executionTreeIndex) + budget == totalBudget <= queuedMax
      requires (!expiring ==> Unexpired(Tree())) && FundedPart(expiring, Tree(), avail', dead')
      modifies `totalBudget, `avail, `dead
      ensures Base(at) && totalBudget == old(totalBudget) - budget
      ensures Tree() == old(Tree()) && Jobs() == old(Jobs()) && executionTree == old(executionTree)
      ensures executionTreeIndex == old(executionTreeIndex) && labels == old(labels) && expiring == old(expiring)
      ensures limit == old(limit) && emitted == old(emitted) && yieldNextLocation == old(yieldNextLocation)
    {
      DropBudget(budget, avail', dead');
      BaseFrom(at);
    }

    /** Visits the frames of a pass until the stack is empty; returns the budget left over at the root. */
    method RunPass(ghost c: Context, ghost p0: Pass) returns (additionalBudget: nat, ghost p: Pass)
      requires InPass(c, p0) && p0.stack == [Frame(0, None, None, 0)] && p0.additional == 0
      modifies `scheduled, `scheduleQueue, `pending, executionTree.Values
      ensures InPass(c, p) && Steady()
      ensures p.stack == [] && p.additional == additionalBudget
    {
      p := p0;
      var stack := [Frame(0, None, None, 0)];
      var completed: Option<nat> := None;
      additionalBudget := 0;
      while stack != []
        invariant InPass(c, p) && Steady()
        invariant p.stack == stack && p.additional == additionalBudget
        invariant completed.Some? && stack != [] ==>
                    Last(stack).nodeSchedule.Some? && Last(stack).nodeSchedule.value.pendingCount >= 1
        decreases p.t.Keys - p.visited, |stack|
      {
        stack, completed, additionalBudget, p := VisitLast(stack, completed, additionalBudget, c, p);
      }
    }

    /** One turn of the pass, whichever node the last frame is for. */
    method VisitLast(stack: seq<Frame>, completed: Option<nat>, additional: nat, ghost c: Context, ghost p: Pass)
      returns (stack': seq<Frame>, completed': Option<nat>, additional': nat, ghost p': Pass)
      requires InPass(c, p) && p.stack == stack != [] && p.additional == additional
      requires completed.Some? ==> Last(stack).nodeSchedule.Some? && Last(stack).nodeSchedule.value.pendingCount >= 1
      modifies `scheduled, `scheduleQueue, `pending, executionTree.Values
      ensures InPass(c, p') && Steady()
      ensures p'.stack == stack' && p'.additional == additional'
      ensures completed'.Some? && stack' != [] ==>
                Last(stack').nodeSchedule.Some? && Last(stack').nodeSchedule.value.pendingCount >= 1
      ensures (p'.visited == p.visited && |stack'| < |stack|)
           || p.t.Keys - p'.visited < p.t.Keys - p.visited
      ensures p'.t.Keys == p.t.Keys
    {
      PassLast(c, p);
      var node := executionTree[stack[|stack| - 1].nodeIndex];
      stack', completed', additional', p' := VisitFrame(stack, completed, additional, node, c, p);
    }

    /** One pass over the part of the tree that may need scheduling.  It does what `PassTree` says, and neither
        loses nor creates budget or work. */
    method ScheduleNext(ghost at: nat)
      requires Base(at)
      modifies `totalBudget, `scheduled, `scheduleQueue, `pending, `avail, `dead, executionTree.Values
      ensures Base(at) && executionTree == old(executionTree)
      ensures executionTreeIndex == old(executionTreeIndex) && labels == old(labels)
      ensures limit == old(limit) && emitted == old(emitted) && yieldNextLocation == old(yieldNextLocation)
      ensures expiring == old(expiring)
      ensures Tree() == PassTree(old(Tree()), executionTreeIndex) && old(Jobs()) <= Jobs()
      ensures 0 in old(Tree()) && totalBudget + Surplus(old(Tree()), executionTreeIndex, 0) == old(totalBudget)
      ensures WeightTotal(Tree(), executionTreeIndex) <= old(WeightTotal(Tree(), executionTreeIndex))
      ensures WorkTotal(Tree(), labels, executionTreeIndex) == old(WorkTotal(Tree(), labels, executionTreeIndex))
    {
      ghost var c := Context(Tree(), Jobs(), executionTreeIndex, labels, at, totalBudget, expiring);
      ghost var p := StartPass(c, pending, avail, dead);
      PassStart(c, pending, avail, dead);
      var additionalBudget;
      additionalBudget, p := RunPass(c, p);
      PassEnd(c, p);
      LeaveBudget(at, additionalBudget, p.avail, p.dead);
    }

    // -------------------------------------------------------------- yielding

    /** Nothing of the stream itself changes. */
    twostate predicate Frozen()
      reads this
    {
      && Steady()
      && scheduled == old(scheduled) && scheduleQueue == old(scheduleQueue) && pending == old(pending)
      && avail == old(avail) && dead == old(dead)
    }

    /** Yields from node `at`; nothing else changes. */
    method NodeYieldNext(node: Node, at: nat, start: nat, ghost t: Tree) returns (y: NodeYield, ghost f: nat)
      requires Sound() && at in executionTree && executionTree[at] == node && t == Tree()
      requires LocalOk(t[at]) && start <= |t[at].children|
      modifies node
      ensures Frozen() && Sound()
      ensures Tree() == t[at := node.State()] && YieldOk(t[at], start, node.State(), y, f)
      ensures !y.YieldOutput? ==> Tree() == t
      ensures old(Unexpired(Tree())) ==> Unexpired(Tree())
    {
      y, f := node.YieldNext(start);
      assert Tree() == t[at := node.State()];
      assert t[at := t[at]] == t;
    }

    ghost method Relabel(labels': Labels)
      requires Sound()
      modifies `labels
      ensures labels == labels' && Sound() && Tree() == old(Tree())
      ensures executionTree == old(executionTree) && executionTreeIndex == old(executionTreeIndex)
      ensures totalBudget == old(totalBudget) && limit == old(limit) && yieldNextLocation == old(yieldNextLocation)
      ensures emitted == old(emitted) && scheduled == old(scheduled) && scheduleQueue == old(scheduleQueue)
      ensures pending == old(pending) && avail == old(avail) && dead == old(dead) && expiring == old(expiring)
    {
      labels := labels';
    }

    /** What moving the cursor leaves alone. */
    twostate predicate CursorSteady()
      reads this
    {
      && executionTreeIndex == old(executionTreeIndex) && totalBudget == old(totalBudget) && limit == old(limit)
      && yieldNextLocation == old(yieldNextLocation) && emitted == old(emitted) && expiring == old(expiring)
      && scheduled == old(scheduled) && scheduleQueue == old(scheduleQueue) && pending == old(pending)
    }

    /** What has to be done, in weight and in unfolds. */
    ghost function Measure(): (nat, nat)
      reads `executionTree, executionTree.Values, `executionTreeIndex, `labels
    {
      (WorkTotal(Tree(), labels, executionTreeIndex), WeightTotal(Tree(), executionTreeIndex))
    }

    /** The cursor skips to child `f` of node `at`. */
    ghost method SkipTo(at: nat, start: nat, f: nat)
      requires Walking(at) && start <= labels[at].done && FirstUnyielded(Tree()[at].children, start, f)
      modifies `labels
      ensures Walking(at) && labels[at].done == f
      ensures executionTree == old(executionTree) && Tree() == old(Tree()) && CursorSteady()
      ensures Measure() == old(Measure())
    {
      SkipConsistent(Tree(), executionTreeIndex, labels, pending, at, Jobs(), start, f);
      Relabel(labels[at := labels[at].(done := f)]);
    }

    /** The cursor enters the child node it points at. */
    ghost method EnterChild(at: nat, j: nat)
      requires Walking(at) && labels[at].done < |Tree()[at].children|
      requires Tree()[at].children[labels[at].done].Node? && Tree()[at].children[labels[at].done].nodeIndex == j
      modifies `labels
      ensures Walking(j) && at < j <= executionTreeIndex
      ensures executionTree == old(executionTree) && Tree() == old(Tree()) && CursorSteady()
      ensures Measure() == old(Measure())
    {
      EnterConsistent(Tree(), executionTreeIndex, labels, pending, at, Jobs());
      Relabel(labels[at := labels[at].(done := labels[at].done + 1)]);
    }

    /** Removes node `at`; its parent gets its budget. */
    method RemoveNode(at: nat, parent: Location, ghost t: Tree)
      requires Sound() && at in executionTree && t == Tree()
      requires parent.nodeIndex in executionTree && parent.nodeIndex != at && t[at].parent == Some(parent)
      requires HasChild(t, parent) && ChildAt(t, parent).Node? && LocalOk(t[parent.nodeIndex])
      modifies `executionTree, executionTree[parent.nodeIndex]
      ensures Sound() && executionTree == old(executionTree) - {at}
      ensures NodeCompleted(t, Tree(), at) && LocalOk(Tree()[parent.nodeIndex])
      ensures executionTreeIndex == old(executionTreeIndex) && totalBudget == old(totalBudget) && limit == old(limit)
      ensures yieldNextLocation == old(yieldNextLocation) && labels == old(labels) && emitted == old(emitted)
      ensures scheduled == old(scheduled) && scheduleQueue == old(scheduleQueue) && pending == old(pending)
      ensures avail == old(avail) && dead == old(dead) && expiring == old(expiring)
      ensures old(Unexpired(Tree())) ==> Unexpired(Tree())
    {
      var node := executionTree[at];
      var parentNode := executionTree[parent.nodeIndex];
      executionTree := executionTree - {at};
      parentNode.ChildComplete(parent.childIndex, node.budget);
      ghost var p := parent.nodeIndex;
      assert Tree()
             == (t - {at})[p := SetChild(t[p], parent.childIndex, Yielded).(budget := t[p].budget + t[at].budget)];
    }

    ghost method Remark(labels': Labels, avail': set<nat>, dead': set<nat>)
      requires Sound()
      modifies `labels, `avail, `dead
      ensures labels == labels' && avail == avail' && dead == dead' && Sound() && Tree() == old(Tree())
      ensures executionTree == old(executionTree) && executionTreeIndex == old(executionTreeIndex)
      ensures totalBudget == old(totalBudget) && limit == old(limit) && yieldNextLocation == old(yieldNextLocation)
      ensures emitted == old(emitted) && scheduled == old(scheduled) && scheduleQueue == old(scheduleQueue)
      ensures pending == old(pending) && expiring == old(expiring)
    {
      labels, avail, dead := labels', avail', dead';
    }

    /** All values of node `at` were yielded: the cursor returns to its parent. */
    method CompleteChild(at: nat, parent: Location)
      requires Walking(at) && labels[at].done == |Tree()[at].children| && Tree()[at].parent == Some(parent)
      requires parent.nodeIndex in executionTree && parent.nodeIndex != at
      modifies `executionTree, `labels, `avail, `dead, executionTree[parent.nodeIndex]
      ensures Walking(parent.nodeIndex) && CursorSteady()
      ensures labels[parent.nodeIndex].done == parent.childIndex + 1
      ensures old(Tree())[at].remainingWeight == 0
      ensures CanComplete(old(Tree()), at) && Tree() == CompletedTree(old(Tree()), at)
      ensures executionTree == old(executionTree) - {at}
      ensures Measure().0 == old(Measure()).0 && Measure().1 <= old(Measure()).1
    {
      ghost var t, top, l := Tree(), executionTreeIndex, labels;
      ghost var limited := expiring;
      ParentSlot(t, top, labels, pending, at, Jobs(), at);
      RemoveNode(at, parent, t);
      CompleteConsistent(t, Tree(), top, labels, pending, at, Jobs());
      CompleteBudget(t, Tree(), top, labels, pending, at, Jobs(), limited, avail, dead);
      Remark(labels - {at}, avail - {at}, dead - {at});
    }

    /** All values of the root were yielded: the traversal is over. */
    method CompleteRoot()
      requires Walking(0) && labels[0].done == |Tree()[0].children|
      modifies `executionTree
      ensures Ended() && executionTree == old(executionTree) - {0} && CursorSteady()
      ensures old(Tree())[0].remainingWeight == 0 && Tree() == old(Tree()) - {0}
    {
      RootCompleteConsistent(Tree(), executionTreeIndex, labels, pending, Jobs());
      assert emitted == all;
      RemoveRoot();
    }

    method RemoveRoot()
      requires Sound()
      modifies `executionTree
      ensures Sound() && Jobs() == old(Jobs()) && executionTree == old(executionTree) - {0} && CursorSteady()
      ensures Tree() == old(Tree()) - {0}
    {
      executionTree := executionTree - {0};
    }

    /** Takes expired budget out of node `at`, and out of the total. */
    method TakeExpired(node: Node, at: nat, ghost t: Tree)
      requires Sound() && at in executionTree && executionTree[at] == node && t == Tree()
      requires t[at].budget <= totalBudget
      modifies `totalBudget, node
      ensures Sound() && CursorSteadyButBudget() && labels == old(labels)
      ensures executionTree == old(executionTree) && avail == old(avail) && dead == old(dead)
      ensures Tree() == t[at := WithoutExpired(t[at])] && totalBudget + ExpiredSurplus(t[at]) == old(totalBudget)
      ensures old(Unexpired(Tree())) ==> Unexpired(Tree())
    {
      var taken := node.TakeExpired();
      totalBudget := totalBudget - taken;
      assert node.State() == WithoutExpired(t[at]);
      assert Tree() == t[at := node.State()];
    }

    /** What releasing budget leaves alone. */
    twostate predicate CursorSteadyButBudget()
      reads this
    {
      && executionTreeIndex == old(executionTreeIndex) && limit == old(limit)
      && yieldNextLocation == old(yieldNextLocation) && emitted == old(emitted) && expiring == old(expiring)
      && scheduled == old(scheduled) && scheduleQueue == old(scheduleQueue) && pending == old(pending)
    }

    method TakeSurplus(node: Node, at: nat, ghost t: Tree) returns (surplus: nat)
      requires Sound() && at in executionTree && executionTree[at] == node && t == Tree()
      modifies node
      ensures Frozen() && Sound()
      ensures Tree() == t[at := t[at].(budget := Min(t[at].budget, t[at].remainingWeight))]
      ensures surplus == SaturatingSub(t[at].budget, t[at].remainingWeight)
      ensures old(Unexpired(Tree())) ==> Unexpired(Tree())
    {
      surplus := node.TakeSurplus();
      assert Tree() == t[at := node.State()];
    }

    /** The parent of node `k` lowers the slot of `k` to what `k` needs and receives its surplus. */
    method LiftSurplus(node: Node, parent: Location, k: nat, needed: nat, surplus: nat, ghost t: Tree)
      returns (surplus': nat)
      requires Sound() && parent.nodeIndex in executionTree && executionTree[parent.nodeIndex] == node && t == Tree()
      requires k in t && t[k].parent == Some(parent) && parent.nodeIndex < k && HasChild(t, parent)
      requires ChildAt(t, parent).Node? && ChildAt(t, parent).nodeIndex == k && LocalOk(t[parent.nodeIndex])
      requires needed == SaturatingSub(t[k].remainingWeight, t[k].budget)
      modifies node
      ensures Frozen() && Sound() && parent.nodeIndex in Tree()
      ensures Lifted(t, Tree(), k, surplus)
      ensures surplus' == SaturatingSub(t[parent.nodeIndex].budget + surplus, Tree()[parent.nodeIndex].remainingWeight)
      ensures old(Unexpired(Tree())) ==> Unexpired(Tree())
    {
      node.ChildYielded(parent.childIndex, needed);
      surplus' := node.AddBudget(surplus);
      assert Tree() == t[parent.nodeIndex := node.State()];
    }

    /** Node `k` is settled and its surplus is on the way up; the cursor is in `at`. */
    ghost predicate Releasing(at: nat, k: nat, surplus: nat, avail': set<nat>, dead': set<nat>)
      reads this, executionTree.Values
    {
      && Sound() && k in executionTree && totalBudget <= queuedMax && (!expiring ==> Unexpired(Tree()))
      && Consistent(Tree(), executionTreeIndex, labels, pending, at, Jobs())
      && SettledPart(Tree(), executionTreeIndex, k, surplus, totalBudget, expiring, avail', dead')
    }

    /** The node under the cursor gives up surplus. */
    method SettleNode(node: Node, at: nat) returns (surplus: nat, ghost avail': set<nat>, ghost dead': set<nat>)
      requires Base(at) && executionTree[at] == node
      modifies node
      ensures Releasing(at, at, surplus, avail', dead') && Frozen()
      ensures at in old(Tree())
           && Tree() == old(Tree())[at :=
                old(Tree())[at].(budget := Min(old(Tree())[at].budget, old(Tree())[at].remainingWeight))]
      ensures at in old(Tree()) && surplus == SaturatingSub(old(Tree())[at].budget, old(Tree())[at].remainingWeight)
      ensures Measure() == old(Measure())
    {
      ghost var t, total := Tree(), totalBudget;
      surplus := TakeSurplus(node, at, t);
      avail', dead' :=
        SettleStart(t, Tree(), executionTreeIndex, labels, pending, at, Jobs(), expiring, avail, dead, surplus, total);
    }

    /** The node under the cursor gives up expired budget, which leaves the tree. */
    method ExpelExpired(node: Node, at: nat)
      requires Base(at) && executionTree[at] == node
      modifies `totalBudget, node
      ensures Base(at) && executionTree == old(executionTree) && labels == old(labels) && CursorSteadyButBudget()
      ensures Measure() == old(Measure())
      ensures at in old(Tree()) && totalBudget + ExpiredSurplus(old(Tree())[at]) == old(totalBudget)
      ensures at in old(Tree()) && Tree() == old(Tree())[at := WithoutExpired(old(Tree())[at])]
    {
      ghost var t := Tree();
      BudgetBound(t, executionTreeIndex, labels, pending, at, Jobs());
      TakeExpired(node, at, t);
      ExpireConsistent(t, Tree(), executionTreeIndex, labels, pending, at, Jobs(), expiring, avail, dead);
      BaseFrom(at);
    }

    /** The node under the cursor gives up expired budget and surplus. */
    method BeginRelease(node: Node, at: nat) returns (surplus: nat, ghost avail': set<nat>, ghost dead': set<nat>)
      requires Base(at) && executionTree[at] == node
      modifies `totalBudget, node
      ensures Releasing(at, at, surplus, avail', dead')
      ensures executionTree == old(executionTree) && labels == old(labels) && CursorSteadyButBudget()
      ensures Measure() == old(Measure())
      ensures at in old(Tree()) && totalBudget + ExpiredSurplus(old(Tree())[at]) == old(totalBudget)
      ensures at in old(Tree()) && ReleaseUp(Tree(), at, surplus) == Release(old(Tree()), at)
    {
      ghost var t := Tree();
      ExpelExpired(node, at);
      ghost var t1 := Tree();
      surplus, avail', dead' := SettleNode(node, at);
      BeginsRelease(t, t1, Tree(), at, surplus);
    }

    /** One step up: the parent of `k` lowers the slot of `k` and receives the surplus. */
    method LiftOnce(node: Node, parent: Location, ghost at: nat, k: nat, needed: nat, surplus: nat,
                    ghost avail0: set<nat>, ghost dead0: set<nat>)
      returns (surplus': nat, ghost avail': set<nat>, ghost dead': set<nat>)
      requires Releasing(at, k, surplus, avail0, dead0) && executionTree[k].parent == Some(parent)
      requires parent.nodeIndex in executionTree && executionTree[parent.nodeIndex] == node
      requires needed == SaturatingSub(executionTree[k].remainingWeight, executionTree[k].budget)
      modifies node
      ensures Frozen() && Releasing(at, parent.nodeIndex, surplus', avail', dead')
      ensures Measure().0 == old(Measure()).0 && Measure().1 <= old(Measure()).1
      ensures ReleaseUp(Tree(), parent.nodeIndex, surplus') == ReleaseUp(old(Tree()), k, surplus)
    {
      ghost var t := Tree();
      ParentSlot(t, executionTreeIndex, labels, pending, at, Jobs(), k);
      surplus' := LiftSurplus(node, parent, k, needed, surplus, t);
      avail', dead' := LiftStep(t, Tree(), executionTreeIndex, labels, pending, at, Jobs(), k, surplus, surplus',
                                totalBudget, expiring, avail0, dead0);
    }

    /** The surplus of node `at` moves up the tree; slots are lowered on the way, and what the root does not
        need leaves the tree.  None of the subtractions from the total can go below zero. */
    method ReleaseSurplus(at: nat)
      requires Base(at)
      modifies `totalBudget, `avail, `dead, executionTree.Values
      ensures Base(at) && executionTree == old(executionTree) && labels == old(labels) && CursorSteadyButBudget()
      ensures Measure().0 == old(Measure()).0 && Measure().1 <= old(Measure()).1
      ensures at in old(Tree()) && Tree() == Release(old(Tree()), at).0
      ensures at in old(Tree())
              && totalBudget + ExpiredSurplus(old(Tree())[at]) + Release(old(Tree()), at).1 == old(totalBudget)
    {
      var node := executionTree[at];
      ghost var avail', dead';
      var surplus;
      surplus, avail', dead' := BeginRelease(node, at);
      surplus, avail', dead' := LiftAll(node, at, surplus, avail', dead');
      LeaveBudget(at, surplus, avail', dead');
    }

    /** The surplus moves up to the root, one ancestor at a time. */
    method LiftAll(start: Node, at: nat, surplus0: nat, ghost avail0: set<nat>, ghost dead0: set<nat>)
      returns (surplus: nat, ghost avail': set<nat>, ghost dead': set<nat>)
      requires Releasing(at, at, surplus0, avail0, dead0) && executionTree[at] == start
      modifies executionTree.Values
      ensures Frozen() && Sound() && (!expiring ==> Unexpired(Tree()))
      ensures Consistent(Tree(), executionTreeIndex, labels, pending, at, Jobs())
      ensures BudgetTotal(Tree(), executionTreeIndex) + surplus == totalBudget
              && FundedPart(expiring, Tree(), avail', dead')
      ensures Measure().0 == old(Measure()).0 && Measure().1 <= old(Measure()).1
      ensures (Tree(), surplus) == ReleaseUp(old(Tree()), at, surplus0)
    {
      var node, k := start, at;
      surplus, avail', dead' := surplus0, avail0, dead0;
      var budgetNeeded := node.BudgetNeeded();
      while node.parent.Some?
        invariant Releasing(at, k, surplus, avail', dead') && executionTree[k] == node && Frozen()
        invariant budgetNeeded == SaturatingSub(node.remainingWeight, node.budget)
        invariant Measure().0 == old(Measure()).0 && Measure().1 <= old(Measure()).1
        invariant ReleaseUp(Tree(), k, surplus) == ReleaseUp(old(Tree()), at, surplus0)
        decreases k
      {
        ParentSlot(Tree(), executionTreeIndex, labels, pending, at, Jobs(), k);
        var parent := node.parent.value;
        node := executionTree[parent.nodeIndex];
        surplus, avail', dead' := LiftOnce(node, parent, at, k, budgetNeeded, surplus, avail', dead');
        budgetNeeded := node.BudgetNeeded();
        k := parent.nodeIndex;
      }
      ReleaseStop(Tree(), k, surplus);
      SettleEnd(Tree(), executionTreeIndex, k, surplus, totalBudget, expiring, avail', dead');
    }

    /** Cancels all further work. */
    method Clear()
      requires Sound()
      modifies `yieldNextLocation, `totalBudget, `executionTree, `scheduleQueue, `scheduled
      ensures yieldNextLocation == None && totalBudget == 0 && executionTree == map[]
      ensures Sound() && Jobs() == []
      ensures emitted == old(emitted) && limit == old(limit)
    {
      yieldNextLocation := None;
      totalBudget := 0;
      executionTree := map[];
      scheduleQueue := [];
      scheduled := [];
    }

    method ExpireBudget(node: Node, at: nat, ghost t: Tree)
      requires Sound() && at in executionTree && executionTree[at] == node && t == Tree()
      modifies node
      ensures Frozen() && Sound()
      ensures Tree() == t[at := t[at].(expired := t[at].expired + 1)]
    {
      node.ExpireBudget(1);
      assert Tree() == t[at := node.State()];
    }

    method LowerLimit()
      requires Sound() && limit.Some? && limit.value >= 1
      modifies `limit
      ensures limit == Some(old(limit).value - 1) && Sound() && Tree() == old(Tree())
      ensures executionTree == old(executionTree) && executionTreeIndex == old(executionTreeIndex)
      ensures totalBudget == old(totalBudget) && yieldNextLocation == old(yieldNextLocation)
      ensures labels == old(labels) && emitted == old(emitted)
      ensures scheduled == old(scheduled) && scheduleQueue == old(scheduleQueue) && pending == old(pending)
      ensures avail == old(avail) && dead == old(dead) && expiring == old(expiring)
    {
      limit := Some(limit.value - 1);
    }

    ghost method MarkExpiring()
      requires Sound() && outputLimit.Some?
      modifies `expiring
      ensures expiring && Sound() && Tree() == old(Tree())
    {
      expiring := true;
    }

    /** A unit of the budget of node `at` expires, and subtrees may be left without budget. */
    method ExpireUnit(node: Node, at: nat)
      requires Base(at) && executionTree[at] == node
      modifies node
      ensures Frozen() && Sound() && Measure() == old(Measure())
      ensures at in old(Tree()) && Tree() == old(Tree())[at := old(Tree())[at].(expired := old(Tree())[at].expired + 1)]
      ensures Consistent(Tree(), executionTreeIndex, labels, pending, at, Jobs())
              && FundedPart(true, Tree(), avail, dead)
      ensures BudgetTotal(Tree(), executionTreeIndex) == totalBudget
    {
      ghost var t := Tree();
      ExpireBudget(node, at, t);
      FundedNoMore(expiring, t, avail, dead);
      ExpireConsistent(t, Tree(), executionTreeIndex, labels, pending, at, Jobs(), true, avail, dead);
    }

    method ExpireOne(node: Node, at: nat)
      requires Base(at) && executionTree[at] == node && outputLimit.Some?
      modifies `expiring, node
      ensures Base(at) && expiring && CursorSteadyButExpiry() && executionTree == old(executionTree)
              && labels == old(labels)
      ensures at in old(Tree()) && Tree() == old(Tree())[at := old(Tree())[at].(expired := old(Tree())[at].expired + 1)]
      ensures Measure() == old(Measure())
    {
      ExpireUnit(node, at);
      MarkExpiring();
    }

    /** What expiry leaves alone. */
    twostate predicate CursorSteadyButExpiry()
      reads this
    {
      && executionTreeIndex == old(executionTreeIndex) && totalBudget == old(totalBudget) && limit == old(limit)
      && yieldNextLocation == old(yieldNextLocation) && emitted == old(emitted)
      && scheduled == old(scheduled) && scheduleQueue == old(scheduleQueue) && pending == old(pending)
    }

    /** A limit goes down with every item; once it is below the budget, budget expires. */
    method CountDown(node: Node, at: nat)
      requires Base(at) && executionTree[at] == node
      requires limit.Some? == outputLimit.Some? && (limit.Some? ==> limit.value >= 1)
      requires expiring ==> limit.Some? && limit.value < queuedMax
      modifies `limit, `expiring, node
      ensures Base(at) && executionTree == old(executionTree) && labels == old(labels) && emitted == old(emitted)
      ensures expiring == (old(expiring) || (limit.Some? && limit.value < totalBudget))
      ensures expiring ==> limit.Some? && limit.value < queuedMax
      ensures executionTreeIndex == old(executionTreeIndex)
      ensures limit == if old(limit).Some? then Some(old(limit).value - 1) else None
      ensures Measure() == old(Measure())
      ensures at in old(Tree()) && Tree() == Expire(old(Tree()), at, limit, totalBudget)
              && totalBudget == old(totalBudget)
    {
      if limit.Some? {
        LowerLimit();
        if limit.value < totalBudget {
          ExpireOne(node, at);
        }
      }
    }

    /** The stream emits `output` and will continue at `location`. */
    method Record(location: Option<Location>, ghost output: Out)
      requires Sound()
      modifies `yieldNextLocation, `emitted
      ensures yieldNextLocation == location && emitted == old(emitted) + [output] && Sound() && Tree() == old(Tree())
      ensures executionTree == old(executionTree) && executionTreeIndex == old(executionTreeIndex)
      ensures totalBudget == old(totalBudget) && limit == old(limit) && labels == old(labels)
      ensures scheduled == old(scheduled) && scheduleQueue == old(scheduleQueue) && pending == old(pending)
      ensures avail == old(avail) && dead == old(dead) && expiring == old(expiring)
    {
      yieldNextLocation := location;
      emitted := emitted + [output];
    }

    /** The cursor skips to child `f`, whose value was taken out of the node, and passes it. */
    ghost method SkipOutput(t: Tree, t': Tree, at: nat, start: nat, f: nat, output: Out)
      requires Sound() && at in executionTree && t' == Tree()
      requires Consistent(t, executionTreeIndex, labels, pending, at, Jobs()) && FundedPart(expiring, t, avail, dead)
      requires BudgetTotal(t, executionTreeIndex) == totalBudget <= queuedMax && (!expiring ==> Unexpired(Tree()))
      requires emitted + Remaining(labels, at) == all
      requires start <= labels[at].done && FirstUnyielded(t[at].children, start, f)
      requires f < |t[at].children| && t[at].children[f] == Child.Output(output)
      requires t' == t[at := SetChild(t[at], f, Yielded)] && LocalOk(t'[at])
      modifies `labels
      ensures Base(at) && labels[at].done == f + 1
      ensures (emitted + [output]) + Remaining(labels, at) == all
      ensures executionTree == old(executionTree) && Tree() == old(Tree()) && CursorSteady()
    {
      SkipConsistent(t, executionTreeIndex, labels, pending, at, Jobs(), start, f);
      ghost var labels1 := labels[at := labels[at].(done := f)];
      OutputConsistent(t, t', executionTreeIndex, labels1, pending, at, Jobs());
      OutputBudget(t, t', executionTreeIndex, labels1, pending, at, Jobs(), expiring, avail, dead);
      ghost var labels2 := labels1[at := labels1[at].(done := f + 1)];
      assert (emitted + [output]) + Remaining(labels2, at) == emitted + ([output] + Remaining(labels2, at));
      Relabel(labels2);
    }

    /** The value at the cursor was taken out of node `at`, which was as in `t`: it is emitted, and the
        stream ends if the limit is reached. */
    method EmitOutput(node: Node, at: nat, ghost start: nat, f: nat, output: Out, ghost t: Tree)
      requires Sound() && at in executionTree && executionTree[at] == node
      requires Consistent(t, executionTreeIndex, labels, pending, at, Jobs()) && FundedPart(expiring, t, avail, dead)
      requires BudgetTotal(t, executionTreeIndex) == totalBudget <= queuedMax && (!expiring ==> Unexpired(Tree()))
      requires LimitOk() && emitted + Remaining(labels, at) == all
      requires start <= labels[at].done && FirstUnyielded(t[at].children, start, f)
      requires f < |t[at].children| && t[at].children[f] == Child.Output(output)
      requires Tree() == t[at := SetChild(t[at], f, Yielded)] && LocalOk(Tree()[at])
      modifies this, executionTree.Values
      ensures Valid() && emitted == old(emitted) + [output]
      ensures executionTree == old(executionTree) || executionTree == map[]
      ensures limit == if old(limit).Some? then Some(old(limit).value - 1) else None
      ensures expiring == (old(expiring) || (limit.Some? && limit.value < old(totalBudget)))
      ensures EmitsTo(old(Now()), old(Tree()), NodeLocation(at, f), Now())
    {
      ghost var s, taken := Now(), Tree();
      SkipOutput(t, taken, at, start, f, output);
      CountDown(node, at);
      GoOn(at, f, output, s, taken);
    }

    /** The item that was counted is the last one, or the stream continues after it. */
    method GoOn(at: nat, f: nat, output: Out, ghost s: Situation, ghost taken: Tree)
      requires Base(at) && labels[at].done == f + 1 && limit.Some? == outputLimit.Some?
      requires limit.Some? ==> |emitted| + 1 + limit.value == outputLimit.value
      requires expiring ==> limit.Some? && limit.value < queuedMax
      requires (emitted + [output]) + Remaining(labels, at) == all
      requires at in taken && Tree() == Expire(taken, at, limit, totalBudget)
      requires limit == LoweredLimit(s.limit) && totalBudget == s.total && executionTreeIndex == s.top
      modifies this, executionTree.Values
      ensures Valid() && emitted == old(emitted) + [output] && limit == old(limit) && expiring == old(expiring)
      ensures executionTree == old(executionTree) || executionTree == map[]
      ensures EmitsTo(s, taken, NodeLocation(at, f), Now())
    {
      if limit == Some(0) {
        EndAtLimit(at, output);
        EmitsLast(s, taken, NodeLocation(at, f));
      } else {
        ContinueAfter(at, f, output, s, taken);
      }
    }

    /** The last item that the limit allows. */
    method EndAtLimit(ghost at: nat, output: Out)
      requires Base(at) && limit == Some(0) && outputLimit == Some(|emitted| + 1)
      requires (emitted + [output]) + Remaining(labels, at) == all
      modifies `yieldNextLocation, `totalBudget, `executionTree, `scheduleQueue, `scheduled, `emitted
      ensures Valid() && emitted == old(emitted) + [output] && yieldNextLocation == None && limit == old(limit)
      ensures executionTree == map[] && executionTreeIndex == old(executionTreeIndex)
      ensures Now() == Situation(map[], executionTreeIndex, None, limit, 0)
    {
      Clear();
      Record(None, output);
      assert emitted == all[..|emitted|];
    }

    /** An item after which the stream, which was in situation `s` with tree `taken`, continues. */
    method ContinueAfter(at: nat, f: nat, output: Out, ghost s: Situation, ghost taken: Tree)
      requires Base(at) && labels[at].done == f + 1 && limit.Some? == outputLimit.Some?
      requires limit.Some? ==> limit.value >= 1 && |emitted| + 1 + limit.value == outputLimit.value
      requires expiring ==> limit.Some? && limit.value < queuedMax
      requires (emitted + [output]) + Remaining(labels, at) == all
      requires at in taken && Tree() == Expire(taken, at, limit, totalBudget)
      requires limit == LoweredLimit(s.limit) && totalBudget == s.total && executionTreeIndex == s.top
      modifies `totalBudget, `avail, `dead, `yieldNextLocation, `emitted, executionTree.Values
      ensures Valid() && emitted == old(emitted) + [output]
      ensures executionTree == old(executionTree)
      ensures EmitsTo(s, taken, NodeLocation(at, f), Now())
    {
      ghost var t1 := Tree();
      ReleaseSurplus(at);
      Record(Some(NodeLocation(at, f + 1)), output);
      Rests(at);
      EmitsOn(s, taken, NodeLocation(at, f), t1, Now());
    }

    /** What holds between the turns of `YieldNext`: the traversal has ended, or continues at `location`. */
    ghost predicate At(location: Option<Location>)
      reads this, executionTree.Values
    {
      match location
      case None => Ended()
      case Some(loc) => Walking(loc.nodeIndex) && loc.childIndex <= labels[loc.nodeIndex].done
    }

    /** The next item to emit is blocked where the cursor stopped. */
    ghost predicate Stopped()
      reads this, executionTree.Values
    {
      yieldNextLocation.Some? && Blocked(Tree(), labels, yieldNextLocation.value.nodeIndex)
    }

    /** All values of node `at` were yielded: it is removed and its parent, if any, is next. */
    method CompleteNode(node: Node, at: nat)
      requires Walking(at) && executionTree[at] == node && labels[at].done == |Tree()[at].children|
      modifies `executionTree, `labels, `avail, `dead, executionTree.Values
      ensures At(node.parent) && CursorSteady()
      ensures executionTree == old(executionTree) - {at}
      ensures if node.parent.Some? then CanComplete(old(Tree()), at) && Tree() == CompletedTree(old(Tree()), at)
              else Tree() == old(Tree()) - {at}
      ensures node.parent.Some? ==> Measure().0 == old(Measure()).0 && Measure().1 <= old(Measure()).1
    {
      ParentSlot(Tree(), executionTreeIndex, labels, pending, at, Jobs(), at);
      if node.parent.Some? {
        CompleteChild(at, node.parent.value);
      } else {
        CompleteRoot();
      }
    }

    /** The next item is in node `j`, a child of node `at`. */
    ghost method Descend(at: nat, start: nat, f: nat, j: nat)
      requires Walking(at) && start <= labels[at].done && FirstUnyielded(Tree()[at].children, start, f)
      requires f < |Tree()[at].children| && Tree()[at].children[f].Node? && Tree()[at].children[f].nodeIndex == j
      modifies `labels
      ensures Walking(j) && at < j <= executionTreeIndex
      ensures executionTree == old(executionTree) && CursorSteady() && Measure() == old(Measure())
      ensures Tree() == old(Tree())
    {
      SkipTo(at, start, f);
      EnterChild(at, j);
    }

    /** Nothing is left to yield in node `at`. */
    method Ascend(node: Node, at: nat, start: nat, ghost f: nat)
      requires Walking(at) && executionTree[at] == node && start <= labels[at].done && yieldNextLocation == None
      requires FirstUnyielded(Tree()[at].children, start, f) && f == |Tree()[at].children|
      modifies `executionTree, `labels, `avail, `dead, executionTree.Values
      ensures At(node.parent) && CursorSteady()
      ensures executionTree.Values <= old(executionTree.Values) && |executionTree| < old(|executionTree|)
      ensures node.parent.Some? ==> Measure().0 == old(Measure()).0 && Measure().1 <= old(Measure()).1
      ensures Searches(old(Now()), NodeLocation(at, start), Now(), None, node.parent)
    {
      ghost var s := Now();
      SkipTo(at, start, f);
      RemovedNode(executionTree, at);
      CompleteNode(node, at);
      SearchCompletes(s, Now(), at, start);
    }

    /** The next item is at child `f` of node `at`, and is not available yet. */
    method Stop(at: nat, start: nat, f: nat)
      requires Walking(at) && start <= labels[at].done && FirstUnyielded(Tree()[at].children, start, f)
      requires WaitsAt(Tree(), NodeLocation(at, f))
      modifies `labels, `yieldNextLocation
      ensures Valid() && Stopped() && executionTree == old(executionTree) && emitted == old(emitted)
              && Jobs() == old(Jobs())
      ensures executionTreeIndex == old(executionTreeIndex) && Measure() == old(Measure()) && expiring == old(expiring)
      ensures Searches(old(Now()), NodeLocation(at, start), Now(), Some(NotReady), None)
    {
      SearchStops(Now(), at, start, f);
      SkipTo(at, start, f);
      SetLocation(NodeLocation(at, f));
    }

    /** One turn of `YieldNext`, from child `start` of node `at`. */
    method YieldFrom(at: nat, start: nat) returns (y: Option<Yield>, location: Option<Location>)
      requires Walking(at) && start <= labels[at].done && yieldNextLocation == None
      modifies this, executionTree.Values
      ensures executionTree.Values <= old(executionTree.Values)
      ensures Searches(old(Now()), NodeLocation(at, start), Now(), y, location)
      ensures match y
              case None =>
                && At(location) && yieldNextLocation == None && CursorSteady() && expiring == old(expiring)
                && (location.Some? ==> Measure().0 == old(Measure()).0 && Measure().1 <= old(Measure()).1)
                && (|executionTree| < |old(executionTree)|
                    || (executionTree == old(executionTree) && location.Some?
                        && at < location.value.nodeIndex <= executionTreeIndex))
              case Some(NotReady) =>
                && Valid() && Stopped() && emitted == old(emitted) && Jobs() == old(Jobs())
                && executionTreeIndex == old(executionTreeIndex) && expiring == old(expiring)
                && Measure().0 == old(Measure()).0 && Measure().1 <= old(Measure()).1
              case Some(Produced(output)) => Valid() && output.Some? && emitted == old(emitted) + [output.value]
    {
      ghost var t, s := Tree(), Now();
      var node := executionTree[at];
      CursorNode(t, executionTreeIndex, labels, pending, at, Jobs());
      ghost var f;
      var step;
      step, f := NodeYieldNext(node, at, start, t);
      match step {
        case FromChild(j) =>
          Descend(at, start, f, j);
          SearchEnters(s, at, start, f);
          return None, Some(NodeLocation(j, 0));
        case YieldComplete =>
          Ascend(node, at, start, f);
          return None, node.parent;
        case YieldPending(childIndex) =>
          Stop(at, start, childIndex);
          return Some(NotReady), None;
        case YieldOutput(childIndex, output) =>
          ghost var t1 := Tree();
          EmitOutput(node, at, start, childIndex, output, t);
          SearchEmits(s, at, start, f, output, t1, Now());
          return Some(Produced(Some(output))), None;
      }
    }

    method SetLocation(location: Location)
      requires Sound()
      modifies `yieldNextLocation
      ensures yieldNextLocation == Some(location) && emitted == old(emitted) && Sound() && Tree() == old(Tree())
      ensures executionTree == old(executionTree) && executionTreeIndex == old(executionTreeIndex)
      ensures totalBudget == old(totalBudget) && limit == old(limit) && labels == old(labels)
      ensures scheduled == old(scheduled) && scheduleQueue == old(scheduleQueue) && pending == old(pending)
      ensures avail == old(avail) && dead == old(dead) && expiring == old(expiring)
    {
      yieldNextLocation := Some(location);
    }

    method TakeLocation() returns (location: Option<Location>)
      requires Valid()
      modifies `yieldNextLocation
      ensures location == old(yieldNextLocation) && yieldNextLocation == None
      ensures At(location) && (location.Some? ==> location.value.childIndex == labels[location.value.nodeIndex].done)
      ensures executionTree == old(executionTree) && Tree() == old(Tree())
              && executionTreeIndex == old(executionTreeIndex)
      ensures labels == old(labels) && emitted == old(emitted) && Now() == old(Now()).(location := None)
      ensures scheduled == old(scheduled) && scheduleQueue == old(scheduleQueue)
    {
      assert Look(Part.Stream);
      location := yieldNextLocation;
      assert At(location);
      yieldNextLocation := None;
      assert Tree() == old(Tree()) && Jobs() == old(Jobs());
    }

    /** The next item of the stream, if it is available.  An item is the next value of the in-order list;
        the end is reported only when everything was emitted, or as much as the limit allows. */
    method YieldNext() returns (y: Yield)
      requires Valid()
      modifies this, executionTree.Values
      ensures Valid() && executionTree.Values <= old(executionTree.Values)
      ensures Yields(old(Now()), Now(), y)
      ensures match y
              case NotReady =>
                && Stopped() && emitted == old(emitted) && Jobs() == old(Jobs())
                && executionTreeIndex == old(executionTreeIndex) && expiring == old(expiring)
                && Measure().0 == old(Measure()).0 && Measure().1 <= old(Measure()).1
              case Produced(Some(output)) => emitted == old(emitted) + [output]
              case Produced(None) =>
                emitted == old(emitted) == Result() && yieldNextLocation == None && Jobs() == []
                  && expiring == old(expiring)
    {
      ghost var s0 := Now();
      FoundStart(s0);
      var location := TakeLocation();
      while location.Some?
        invariant At(location) && yieldNextLocation == None && emitted == old(emitted) && expiring == old(expiring)
        invariant executionTree.Values <= old(executionTree.Values)
        invariant Found(s0, Now(), location)
        invariant location.Some? ==>
                    && Jobs() == old(Jobs()) && executionTreeIndex == old(executionTreeIndex)
                    && Measure().0 == old(Measure()).0 && Measure().1 <= old(Measure()).1
        decreases |executionTree|, location.Some?,
                  if location.Some? then SaturatingSub(executionTreeIndex + 1, location.value.nodeIndex) else 0
      {
        ghost var s, loc := Now(), location.value;
        var turn;
        turn, location := YieldFrom(location.value.nodeIndex, location.value.childIndex);
        FoundNext(s0, s, loc, Now(), turn, location);
        if turn.Some? {
          return turn.value;
        }
      }
      FoundEnd(s0, Now());
      return Produced(None);
    }

    // -------------------------------------------------------------- completed unfolds

    /** The child at `loc` of `parent` unfolded into nothing. */
    method ReplaceByNothing(parent: Node, loc: Location, ghost t: Tree)
      requires Sound() && loc.nodeIndex in executionTree && executionTree[loc.nodeIndex] == parent && t == Tree()
      requires PendingAt(t, loc) && LocalOk(t[loc.nodeIndex])
      modifies parent
      ensures Frozen() && Sound() && loc.nodeIndex in Tree()
      ensures Tree() == t[loc.nodeIndex := SetChild(t[loc.nodeIndex], loc.childIndex, Yielded)]
      ensures LocalOk(Tree()[loc.nodeIndex])
      ensures old(Unexpired(Tree())) ==> Unexpired(Tree())
    {
      var originalWeight := parent.children[loc.childIndex].Weight();
      SetLighterChild(t[loc.nodeIndex], loc.childIndex, Yielded);
      parent.children := parent.children[loc.childIndex := Yielded];
      parent.remainingWeight := parent.remainingWeight - originalWeight;
      assert Tree() == t[loc.nodeIndex := parent.State()];
    }

    /** The slot of the child at `loc` of `parent` becomes node `j`, with no more weight than it had. */
    method ReplaceByNode(parent: Node, loc: Location, j: nat, totalWeight: nat, ghost t: Tree) returns (ghost w: nat)
      requires Sound() && loc.nodeIndex in executionTree && executionTree[loc.nodeIndex] == parent && t == Tree()
      requires PendingAt(t, loc) && LocalOk(t[loc.nodeIndex])
      modifies parent
      ensures Frozen() && Sound() && loc.nodeIndex in Tree()
      ensures w == Min(totalWeight, ChildAt(t, loc).Weight())
      ensures Tree() == t[loc.nodeIndex := SetChild(t[loc.nodeIndex], loc.childIndex, Child.Node(w, j))]
      ensures LocalOk(Tree()[loc.nodeIndex])
      ensures old(Unexpired(Tree())) ==> Unexpired(Tree())
    {
      var originalWeight := parent.children[loc.childIndex].Weight();
      var childWeight := Min(totalWeight, originalWeight);
      var releasedBudget := originalWeight - childWeight;
      SetLighterChild(t[loc.nodeIndex], loc.childIndex, Child.Node(childWeight, j));
      parent.remainingWeight := parent.remainingWeight - releasedBudget;
      parent.children := parent.children[loc.childIndex := Child.Node(childWeight, j)];
      w := childWeight;
      assert Tree() == t[loc.nodeIndex := parent.State()];
    }

    /** Stores a new node. */
    method InsertNode(j: nat, parent: Location, children: seq<Child>, totalWeight: nat, ghost t: Tree)
      requires Sound() && j !in executionTree && t == Tree()
      modifies `executionTree
      ensures Sound() && j in executionTree && executionTree == old(executionTree)[j := executionTree[j]]
      ensures fresh(executionTree[j])
      ensures Tree() == t[j := NodeState(Some(parent), children, totalWeight, 0, 0, 0)]
      ensures executionTreeIndex == old(executionTreeIndex) && labels == old(labels) && CursorSteady()
      ensures avail == old(avail) && dead == old(dead) && expiring == old(expiring)
      ensures old(Unexpired(Tree())) ==> Unexpired(Tree())
    {
      var node := new Node(Some(parent), children, totalWeight);
      executionTree := executionTree[j := node];
      assert Tree() == t[j := node.State()];
    }

    /** Allocates an index for an unfolded node. */
    method NextIndex()
      requires Sound()
      modifies `executionTreeIndex
      ensures executionTreeIndex == old(executionTreeIndex) + 1 && Sound() && Tree() == old(Tree())
      ensures executionTree == old(executionTree) && labels == old(labels) && totalBudget == old(totalBudget)
      ensures limit == old(limit) && yieldNextLocation == old(yieldNextLocation) && emitted == old(emitted)
      ensures scheduled == old(scheduled) && scheduleQueue == old(scheduleQueue) && pending == old(pending)
      ensures avail == old(avail) && dead == old(dead) && expiring == old(expiring)
    {
      executionTreeIndex := executionTreeIndex + 1;
    }

    ghost method Retire(labels': Labels, pending': map<Location, Input>)
      requires Sound()
      modifies `labels, `pending
      ensures labels == labels' && pending == pending' && Sound() && Tree() == old(Tree())
      ensures executionTree == old(executionTree) && executionTreeIndex == old(executionTreeIndex)
      ensures totalBudget == old(totalBudget) && limit == old(limit) && yieldNextLocation == old(yieldNextLocation)
      ensures emitted == old(emitted) && scheduled == old(scheduled) && scheduleQueue == old(scheduleQueue)
      ensures avail == old(avail) && dead == old(dead) && expiring == old(expiring)
    {
      labels, pending := labels', pending';
    }

    /** What completed unfolds leave alone. */
    twostate predicate UnfoldSteady()
      reads this
    {
      && totalBudget == old(totalBudget) && limit == old(limit)
      && yieldNextLocation == old(yieldNextLocation) && emitted == old(emitted) && expiring == old(expiring)
      && scheduled == old(scheduled) && scheduleQueue == old(scheduleQueue)
    }

    /** The unfold `jobs[a]`, which is no longer among the running and queued ones, has completed. */
    ghost predicate Unfolding(at: nat, jobs: seq<Job>, a: nat)
      reads this, executionTree.Values
    {
      && Sound() && a < |jobs| && Jobs() == jobs[..a] + jobs[a + 1..]
      && Consistent(Tree(), executionTreeIndex, labels, pending, at, jobs)
      && BudgetTotal(Tree(), executionTreeIndex) == totalBudget <= queuedMax
      && (!expiring ==> Unexpired(Tree()))
      && FundedPart(expiring, Tree(), avail, dead)
    }

    method UnfoldEmpty(location: Location, ghost at: nat, ghost jobs: seq<Job>, ghost a: nat)
      requires Unfolding(at, jobs, a) && jobs[a].location == location && jobs[a].input.items == []
      modifies `executionTreeIndex, `labels, `pending, executionTree.Values
      ensures Base(at) && executionTree == old(executionTree) && labels == old(labels) && UnfoldSteady()
      ensures Unfolds(old(Now()), location, [], Now())
      ensures WorkTotal(Tree(), labels, executionTreeIndex) < old(WorkTotal(Tree(), labels, executionTreeIndex))
    {
      ghost var s, t, top := Now(), Tree(), executionTreeIndex;
      PendingJob(t, top, labels, pending, at, jobs, a);
      NextIndex();
      var parent := executionTree[location.nodeIndex];
      ReplaceByNothing(parent, location, t);
      UnfoldEmptyConsistent(t, Tree(), top, labels, pending, at, jobs, a);
      UnfoldEmptyBudget(t, Tree(), top, labels, pending, at, jobs, location, expiring, avail, dead);
      IndexSkipped(Tree(), top, executionTreeIndex, labels, pending - {location}, at, jobs[..a] + jobs[a + 1..]);
      Retire(labels, pending - {location});
      UnfoldsToNothing(s, Now(), location);
    }

    /** Node `j`, and nothing else, is new in the execution tree. */
    twostate predicate Added(j: nat)
      reads `executionTree
    {
      && j in executionTree && executionTree == old(executionTree)[j := executionTree[j]]
      && fresh(executionTree[j])
    }

    /** Nodes that were not in the execution tree before are new. */
    twostate predicate NewNodes()
      reads `executionTree
    {
      forall node :: node in executionTree.Values && node !in old(executionTree.Values) ==> fresh(node)
    }

    /** The child at `location` becomes a new node. */
    method GrowTree(location: Location, children: seq<Child>, totalWeight: nat, ghost items: seq<OrderedTraversal>,
                    ghost t: Tree)
      returns (j: nat, ghost w: nat)
      requires Sound() && t == Tree() && PendingAt(t, location) && LocalOk(t[location.nodeIndex])
      requires ChildAt(t, location).weight >= 1 && executionTreeIndex + 1 !in t && items != []
      requires FreshChildren(children, items) && totalWeight == TotalWeight(children)
      modifies `executionTree, `executionTreeIndex, executionTree.Values
      ensures Sound() && j == executionTreeIndex == old(executionTreeIndex) + 1
      ensures w == Min(totalWeight, ChildAt(t, location).Weight())
      ensures w >= 1
              && Unfolded(t, Tree(), j, location, w, NodeState(Some(location), children, totalWeight, 0, 0, 0), items)
      ensures Added(j) && UnfoldSteady()
      ensures labels == old(labels) && pending == old(pending) && avail == old(avail) && dead == old(dead)
      ensures old(Unexpired(Tree())) ==> Unexpired(Tree())
    {
      NextIndex();
      j := executionTreeIndex;
      w := ReplaceByNode(executionTree[location.nodeIndex], location, j, totalWeight, t);
      ghost var t1 := Tree();
      InsertNode(j, location, children, totalWeight, t1);
      UnfoldedInTwoSteps(t, t1, Tree(), j, location, w, NodeState(Some(location), children, totalWeight, 0, 0, 0),
                         items);
    }

    method UnfoldNode(location: Location, children: seq<Child>, totalWeight: nat,
                      ghost at: nat, ghost jobs: seq<Job>, ghost a: nat)
      requires Unfolding(at, jobs, a) && jobs[a].location == location && children != []
      requires FreshChildren(children, jobs[a].input.items) && totalWeight == TotalWeight(children)
      modifies `executionTree, `executionTreeIndex, `labels, `pending, executionTree.Values
      ensures Base(at) && Added(executionTreeIndex) && UnfoldSteady()
      ensures Unfolds(old(Now()), location, jobs[a].input.items, Now())
      ensures at in labels && at in old(labels) && labels[at] == old(labels)[at]
      ensures at in labels && labels[at].done <= |labels[at].items|
           && at in old(labels) && old(labels)[at].done <= |old(labels)[at].items|
           && Remaining(labels, at) == Remaining(old(labels), at)
      ensures WorkTotal(Tree(), labels, executionTreeIndex) < old(WorkTotal(Tree(), labels, executionTreeIndex))
    {
      ghost var s, t, top, items := Now(), Tree(), executionTreeIndex, jobs[a].input.items;
      PendingJob(t, top, labels, pending, at, jobs, a);
      ghost var n := NodeState(Some(location), children, totalWeight, 0, 0, 0);
      var nodeIndex;
      ghost var w;
      nodeIndex, w := GrowTree(location, children, totalWeight, items, t);
      UnfoldNodeConsistent(t, Tree(), top, nodeIndex, labels, pending, at, jobs, a, w, n);
      UnfoldNodeBudget(t, Tree(), top, nodeIndex, labels, pending, at, jobs, location, w, n, items, expiring, avail,
                       dead);
      Retire(labels[nodeIndex := UnfoldedLabel(labels, location, items)], pending - {location});
      UnfoldsToNode(s, Now(), nodeIndex, location, w, n, items);
    }

    /** Inserts the result of a completed unfold into the execution tree. */
    method ProcessUnfold(location: Location, items: seq<OrderedTraversal>, ghost at: nat, ghost jobs: seq<Job>,
                         ghost a: nat)
      requires Unfolding(at, jobs, a) && jobs[a].location == location && jobs[a].input.items == items
      modifies `executionTree, `executionTreeIndex, `labels, `pending, executionTree.Values
      ensures Base(at) && NewNodes() && UnfoldSteady()
      ensures Unfolds(old(Now()), location, items, Now())
      ensures at in labels && labels[at].done <= |labels[at].items|
           && at in old(labels) && old(labels)[at].done <= |old(labels)[at].items|
           && labels[at].done == old(labels)[at].done && Remaining(labels, at) == Remaining(old(labels), at)
      ensures WorkTotal(Tree(), labels, executionTreeIndex) < old(WorkTotal(Tree(), labels, executionTreeIndex))
    {
      var children, totalWeight := UnfoldChildren(items);
      if children == [] {
        UnfoldEmpty(location, at, jobs, a);
      } else {
        UnfoldNode(location, children, totalWeight, at, jobs, a);
      }
    }

    // -------------------------------------------------------------- polling

    /** Running unfold `k` has completed: it leaves the running ones, and a queued one takes its place. */
    method TakeCompleted(k: nat) returns (job: Job)
      requires Sound() && k < |scheduled|
      modifies `scheduled, `scheduleQueue
      ensures Sound() && job == old(scheduled)[k] == old(Jobs())[k]
      ensures Jobs() == old(Jobs())[..k] + old(Jobs())[k + 1..]
      ensures Tree() == old(Tree()) && Steady() && Now() == old(Now())
      ensures pending == old(pending) && avail == old(avail) && dead == old(dead) && expiring == old(expiring)
    {
      job := scheduled[k];
      scheduled := scheduled[..k] + scheduled[k + 1..];
      if scheduleQueue != [] {
        scheduled := scheduled + [scheduleQueue[0]];
        scheduleQueue := scheduleQueue[1..];
      }
      assert Jobs() == old(Jobs())[..k] + old(Jobs())[k + 1..];
    }

    /** The result of running unfold `k` enters the execution tree. */
    method CompleteUnfold(k: nat, ghost at: nat)
      requires Walking(at) && k < |scheduled|
      modifies `scheduled, `scheduleQueue, `executionTree, `executionTreeIndex, `labels, `pending, executionTree.Values
      ensures Walking(at) && NewNodes()
      ensures at in old(labels) && labels[at].done == old(labels)[at].done
      ensures emitted == old(emitted) && yieldNextLocation == old(yieldNextLocation)
      ensures k < |old(Jobs())| && Jobs() == old(Jobs())[..k] + old(Jobs())[k + 1..]
      ensures Unfolds(old(Now()), old(scheduled)[k].location, old(scheduled)[k].input.items, Now())
      ensures WorkTotal(Tree(), labels, executionTreeIndex) < old(WorkTotal(Tree(), labels, executionTreeIndex))
    {
      ghost var jobs := Jobs();
      var job := TakeCompleted(k);
      ProcessUnfold(job.location, job.input.items, at, jobs, k);
    }

    /** Running unfold `k` has completed. */
    method CompleteNext(k: nat)
      requires Valid() && yieldNextLocation.Some? && k < |scheduled|
      modifies `scheduled, `scheduleQueue, `executionTree, `executionTreeIndex, `labels, `pending, executionTree.Values
      ensures Valid() && NewNodes()
      ensures emitted == old(emitted) && yieldNextLocation == old(yieldNextLocation)
      ensures k < |old(Jobs())| && Jobs() == old(Jobs())[..k] + old(Jobs())[k + 1..]
      ensures Unfolds(old(Now()), old(scheduled)[k].location, old(scheduled)[k].input.items, Now())
      ensures Measure().0 < old(Measure()).0
    {
      assert Look(Part.Stream);
      CompleteUnfold(k, yieldNextLocation.value.nodeIndex);
    }

    /** What is left to do. */
    ghost function Left(): (nat, nat, nat, nat)
      reads `executionTree, executionTree.Values, `executionTreeIndex, `labels, `yieldNextLocation, `limit, `totalBudget
    {
      LeftIn(Now(), Measure().0)
    }

    /** Nothing runs, the next item waits, and a scheduling pass would find nothing to do. */
    predicate Stalled()
      reads this, executionTree.Values
    {
      && scheduled == [] && scheduleQueue == [] && yieldNextLocation.Some?
      && yieldNextLocation.value.nodeIndex in executionTree
      && WaitsIn(executionTree[yieldNextLocation.value.nodeIndex].State(), yieldNextLocation.value.childIndex)
      && forall i | i in executionTree :: Quiet(executionTree[i].State())
    }

    /** The stream is stalled, for which it takes expired budget, and a limit and a queue bound of at least two. */
    ghost predicate Starved()
      reads this, executionTree.Values
    {
      Stalled() && expiring && outputLimit.Some? && outputLimit.value >= 2 && queuedMax >= 2
    }

    lemma StalledStands()
      ensures Stalled() <==> Jobs() == [] && StandsStill(Now())
    {
      if Stalled() {
        forall i | i in Tree() ensures Quiet(Tree()[i]) {
        }
      }
      if StandsStill(Now()) {
        forall i | i in executionTree ensures Quiet(executionTree[i].State()) {
          assert Quiet(Tree()[i]);
        }
      }
    }

    /** The execution tree is one, its nodes are in order, and every pending child has its unfold outstanding. */
    lemma TreeInOrder()
      requires Valid() && yieldNextLocation.Some?
      ensures InOrder(Now())
      ensures |Jobs()| == PendingTotal(Tree(), executionTreeIndex)
    {
      assert Look(Part.Stream);
      assert Look(Part.TreeShape);
    }

    /** Every outstanding unfold is that of another pending child, and none is queued while another could run. */
    lemma JobsPending()
      requires Valid() && yieldNextLocation.Some?
      ensures forall a :: 0 <= a < |Jobs()| ==> PendingAt(Tree(), Jobs()[a].location)
      ensures forall a, b :: 0 <= a < b < |Jobs()| ==> Jobs()[a].location != Jobs()[b].location
      ensures |Jobs()| <= scheduledMax ==> scheduled == Jobs()
    {
      assert Look(Part.Stream);
      assert Look(Part.TreeShape);
      forall a | 0 <= a < |Jobs()| ensures PendingAt(Tree(), Jobs()[a].location) {
        assert Jobs()[a].location in pending;
      }
    }

    /** As long as no budget has expired, the stream does not stall. */
    lemma NotStalled()
      requires Valid() && Stopped() && !expiring
      ensures !Stalled()
    {
      assert Look(Part.Stream);
      if Stalled() {
        StalledStands();
        NotStarvedConsistent(Tree(), executionTreeIndex, labels, pending, yieldNextLocation.value.nodeIndex, Jobs(),
                             avail, dead);
      }
    }

    /** When the next item is blocked and nothing is outstanding, the stream makes progress if and only if it is not
        stalled. */
    lemma ProgressUnlessStalled()
      requires Valid() && yieldNextLocation.Some? && WaitsAt(Tree(), yieldNextLocation.value) && Jobs() == []
      ensures MakesProgress(Now(), Measure().0) <==> !Stalled()
    {
      StalledStands();
      TreeInOrder();
      assert Look(Part.Machine);
      ProgressUnlessQuiet(Now(), Measure().0);
    }

    /** Schedules while the next item is blocked. */
    method ScheduleBlocked()
      requires Valid() && Stopped()
      modifies `totalBudget, `scheduled, `scheduleQueue, `pending, `avail, `dead, executionTree.Values
      ensures Valid() && emitted == old(emitted) && executionTree == old(executionTree)
      ensures expiring == old(expiring) && labels == old(labels)
      ensures Passes(old(Now()), Now()) && old(Jobs()) <= Jobs() && JobsFrom(old(Tree()), Jobs())
      ensures Measure().0 == old(Measure()).0 && Measure().1 <= old(Measure()).1
    {
      assert Look(Part.Stream);
      ghost var s, p0, jobs0, at := Now(), pending, Jobs(), yieldNextLocation.value.nodeIndex;
      ScheduleNext(at);
      Rests(at);
      PassesTo(s, Now());
      JobsStarted(s.tree, Tree(), executionTreeIndex, labels, p0, pending, at, jobs0, Jobs());
    }

    /** The part of a poll that does not wait: yield, schedule, and yield again.  When it has nothing to emit, either
        an unfold is running, or less is left to do, or the stream is stalled. */
    method Advance() returns (y: Yield)
      requires Valid()
      modifies this, executionTree.Values
      ensures Valid() && executionTree.Values <= old(executionTree.Values)
      ensures Advances(old(Now()), Now(), y)
      ensures old(Stalled()) ==> y == NotReady && Stalled()
      ensures match y
              case NotReady =>
                && Stopped() && emitted == old(emitted) && old(Jobs()) <= Jobs() && expiring == old(expiring)
                && Measure().0 == old(Measure()).0 && Measure().1 <= old(Measure()).1
                && |Jobs()| == PendingTotal(Tree(), executionTreeIndex) && StartedFrom(old(Now()), Jobs())
                && Served(old(Tree()), Tree())
                && (scheduled == [] ==> Stalled() || Less(Left(), old(Left())))
              case Produced(Some(output)) => emitted == old(emitted) + [output]
              case Produced(None) =>
                emitted == old(emitted) == Result() && yieldNextLocation == None && Jobs() == []
                  && expiring == old(expiring)
    {
      StalledStands();
      StalledAdvances();
      ghost var s := Now();
      y := YieldNext();
      if y.NotReady? {
        y := AdvanceBlocked(s);
        StalledStands();
      } else {
        AdvancedAtOnce(s, Now(), y);
      }
    }

    /** The rest of it, after the stream came from `s` to an item that is not ready. */
    method AdvanceBlocked(ghost s: Situation) returns (y: Yield)
      requires Valid() && Stopped() && Yields(s, Now(), NotReady)
      requires s.top == executionTreeIndex && WeightTotal(Tree(), s.top) <= WeightTotal(s.tree, s.top)
      modifies this, executionTree.Values
      ensures Valid() && executionTree.Values <= old(executionTree.Values)
      ensures Advances(s, Now(), y)
      ensures match y
              case NotReady =>
                && Stopped() && emitted == old(emitted) && old(Jobs()) <= Jobs() && expiring == old(expiring)
                && Measure().0 == old(Measure()).0 && Measure().1 <= old(Measure()).1
                && |Jobs()| == PendingTotal(Tree(), executionTreeIndex) && StartedFrom(s, Jobs())
                && Served(s.tree, Tree())
                && (scheduled == [] ==> Jobs() == [] && (StandsStill(s) || Less(Left(), LeftIn(s, Measure().0))))
              case Produced(Some(output)) => emitted == old(emitted) + [output]
              case Produced(None) =>
                emitted == old(emitted) == Result() && yieldNextLocation == None && Jobs() == []
                  && expiring == old(expiring)
    {
      ghost var s1 := Now();
      TreeInOrder();
      ScheduleBlocked();
      ghost var s2, jobs := Now(), Jobs();
      StartedAfter(s, s1, jobs);
      TreeInOrder();
      y := YieldNext();
      Advanced(s, s1, s2, Now(), y);
      if y.NotReady? {
        NoneWaits();
        TreeInOrder();
        AdvanceServes(s, s1, s2, Now());
        if Jobs() == [] {
          AdvanceLess(s, s1, s2, Now(), Measure().0);
        }
      }
    }

    /** A stalled stream would advance to a stalled situation, with nothing to emit. */
    lemma StalledAdvances()
      requires Valid()
      ensures Stalled() ==>
                forall s', y {:trigger Advances(Now(), s', y)} :: Advances(Now(), s', y) ==>
                  y == NotReady && StandsStill(s') && PendingTotal(s'.tree, s'.top) == 0
    {
      if Stalled() {
        StalledStands();
        TreeInOrder();
        assert Look(Part.Machine);
        StandsStillForever(Now());
        SamePending(Tree(), AdvanceStep(Now()).0.tree, executionTreeIndex);
      }
    }

    /** There are never more unfolds outstanding than there is budget, and the budget never grows; the
        execution tree holds all of it. */
    lemma OutstandingWithinBudget()
      requires Valid() && yieldNextLocation.Some?
      ensures |Jobs()| <= totalBudget <= queuedMax && |scheduled| <= scheduledMax
      ensures BudgetTotal(Tree(), executionTreeIndex) == totalBudget
    {
      assert Look(Part.Stream);
      JobsWithinBudget(Tree(), executionTreeIndex, labels, pending, yieldNextLocation.value.nodeIndex, Jobs());
    }

    /** Unfolds are only queued while others run. */
    lemma NoneWaits()
      requires Valid() && yieldNextLocation.Some?
      ensures scheduled == [] ==> Jobs() == []
    {
      assert Look(Part.Stream);
    }

    /** One turn of a poll: unless there is something to emit, running unfold `k` completes if there is one.  A turn
        without a result leaves less to do, unless the stream was stalled; then it is stalled again. */
    method PollTurn(k: nat) returns (r: Option<Poll>)
      requires Valid()
      modifies this, executionTree.Values
      ensures Valid() && NewNodes()
      ensures old(Stalled()) ==> r == None && Stalled()
      ensures match r
              case None =>
                && yieldNextLocation.Some? && emitted == old(emitted) && expiring == old(expiring)
                && (Stalled() || Less(Left(), old(Left()))) && TurnOf(old(Now()), Now())
              case Some(PollPending) =>
                && emitted == old(emitted) && scheduled != [] && expiring == old(expiring)
                && Measure().0 == old(Measure()).0 && Measure().1 <= old(Measure()).1
                && BlockedHere() && old(Jobs()) <= Jobs() && Served(old(Tree()), Tree())
                && Advances(old(Now()), Now(), NotReady)
              case Some(Ready(Some(output))) =>
                emitted == old(emitted) + [output] && Advances(old(Now()), Now(), Produced(Some(output)))
              case Some(Ready(None)) =>
                emitted == old(emitted) == Result() && yieldNextLocation == None && Jobs() == []
                  && expiring == old(expiring) && Advances(old(Now()), Now(), Produced(None))
              case Some(Diverges) => false
    {
      ghost var s := Now();
      var y := Advance();
      match y {
        case Produced(output) => return Some(Ready(output));
        case NotReady =>
          assert Advances(s, Now(), NotReady);
          BlockedWhereStopped();
          var waits := EndTurn(k, s, old(Left()), old(Stalled()));
          return if waits then Some(PollPending) else None;
      }
    }

    /** The turn that came from situation `s` ends: the poll waits, or an unfold completes, if any is running. */
    method EndTurn(k: nat, ghost s: Situation, ghost left: (nat, nat, nat, nat), ghost stalled: bool)
      returns (waits: bool)
      requires Valid() && yieldNextLocation.Some? && Advances(s, Now(), NotReady)
      requires |Jobs()| == PendingTotal(Tree(), executionTreeIndex) && (stalled ==> Stalled())
      requires Left().0 == left.0 && (scheduled == [] ==> Stalled() || Less(Left(), left))
      modifies `scheduled, `scheduleQueue, `executionTree, `executionTreeIndex, `labels, `pending, executionTree.Values
      ensures Valid() && NewNodes() && yieldNextLocation == old(yieldNextLocation)
      ensures emitted == old(emitted) && expiring == old(expiring) && (stalled ==> !waits && Stalled())
      ensures waits ==>
                && scheduled == old(scheduled) != [] && scheduleQueue == old(scheduleQueue)
                && Measure() == old(Measure()) && Now() == old(Now()) && BlockedHere() == old(BlockedHere())
      ensures !waits ==> TurnOf(s, Now()) && (Stalled() || Less(Left(), left))
    {
      ghost var m := Now();
      NoneWaits();
      waits := AwaitUnfold(k);
      if !waits {
        TurnEnds(s, m, Now());
      }
    }

    /** The item at the cursor cannot be emitted: it is not unfolded, or there is no budget for it.  As many unfolds
        run as allowed, or none is queued. */
    predicate BlockedHere()
      reads this, executionTree.Values
    {
      && yieldNextLocation.Some? && yieldNextLocation.value.nodeIndex in executionTree
      && WaitsIn(executionTree[yieldNextLocation.value.nodeIndex].State(), yieldNextLocation.value.childIndex)
      && (|scheduled| == scheduledMax || scheduleQueue == [])
    }

    lemma BlockedWhereStopped()
      requires Valid() && Stopped()
      ensures BlockedHere()
    {
      assert Look(Part.Stream);
    }

    /** Running unfold `k` completes, if there is one; otherwise the poll waits for the running ones, if any. */
    method AwaitUnfold(k: nat) returns (waits: bool)
      requires Valid() && yieldNextLocation.Some?
      modifies `scheduled, `scheduleQueue, `executionTree, `executionTreeIndex, `labels, `pending, executionTree.Values
      ensures Valid() && NewNodes() && yieldNextLocation == old(yieldNextLocation)
      ensures emitted == old(emitted) && expiring == old(expiring)
      ensures waits ==>
                && scheduled == old(scheduled) != [] && scheduleQueue == old(scheduleQueue)
                && Measure() == old(Measure()) && Now() == old(Now()) && BlockedHere() == old(BlockedHere())
                && executionTree == old(executionTree)
      ensures !waits ==>
                if old(scheduled) == [] then Stalled() == old(Stalled()) && Left() == old(Left()) && Now() == old(Now())
                else Measure().0 < old(Measure()).0 && SomeUnfolds(old(Now()), Now())
    {
      if scheduled == [] {
        return false;
      }
      if k >= |scheduled| {
        return true;
      }
      ghost var job := scheduled[k];
      JobsPending();
      assert job == Jobs()[k];
      CompleteNext(k);
      return false;
    }

    /** Polls the stream.  Which running unfold has completed, if any, is arbitrary.  The poll comes to an end with the
        next item, with the end of the stream, or with an unfold running, unless it gets to a situation in which the
        stream is stalled; from there it would go on for ever.  As long as no budget has expired it never does.
        Budget expires only with an item after which the limit allows fewer items than there is budget, and so
        fewer than `queuedMax`; without a limit it never expires. */
    method PollNext() returns (r: Poll)
      requires Valid()
      modifies this, executionTree.Values
      ensures Valid() && NewNodes()
      ensures old(Stalled()) ==> r == Diverges
      ensures expiring && !old(expiring) ==> r.Ready? && r.output.Some?
      ensures expiring && yieldNextLocation.Some? ==> limit.Some? && limit.value < queuedMax
      ensures match r
              case PollPending =>
                emitted == old(emitted) && scheduled != [] && BlockedHere() && Polled(old(Now()), Now(), NotReady)
              case Ready(Some(output)) =>
                emitted == old(emitted) + [output] && Polled(old(Now()), Now(), Produced(Some(output)))
              case Ready(None) =>
                && emitted == old(emitted) == Result() && yieldNextLocation == None && Jobs() == []
                && Polled(old(Now()), Now(), Produced(None))
              case Diverges => emitted == old(emitted) && Starved()
    {
      ghost var s := Now();
      LeadsNowhere(s);
      while true
        invariant Valid() && emitted == old(emitted) && NewNodes()
        invariant expiring == old(expiring) && (old(Stalled()) ==> Stalled())
        invariant LeadsTo(s, Now())
        decreases Left().0, Left().1, Left().2, Left().3
      {
        var k: nat := *;
        var turn := PollOnce(k, s);
        if turn.Some? {
          return turn.value;
        }
      }
    }

    /** One turn of a poll that began in situation `s`. */
    method PollOnce(k: nat, ghost s: Situation) returns (r: Option<Poll>)
      requires Valid() && LeadsTo(s, Now())
      modifies this, executionTree.Values
      ensures Valid() && NewNodes()
      ensures old(Stalled()) ==> r == Some(Diverges)
      ensures expiring && !old(expiring) ==> r.Some? && r.value.Ready? && r.value.output.Some?
      ensures expiring && yieldNextLocation.Some? ==> limit.Some? && limit.value < queuedMax
      ensures match r
              case None =>
                && emitted == old(emitted) && expiring == old(expiring) && Less(Left(), old(Left()))
                && LeadsTo(s, Now())
              case Some(PollPending) =>
                emitted == old(emitted) && scheduled != [] && BlockedHere() && Polled(s, Now(), NotReady)
              case Some(Ready(Some(output))) =>
                emitted == old(emitted) + [output] && Polled(s, Now(), Produced(Some(output)))
              case Some(Ready(None)) =>
                && emitted == old(emitted) == Result() && yieldNextLocation == None && Jobs() == []
                && Polled(s, Now(), Produced(None))
              case Some(Diverges) => emitted == old(emitted) && Starved()
    {
      ghost var last := Now();
      r := PollTurn(k);
      ExpiringLate();
      match r {
        case Some(Ready(Some(output))) => PollEnds(s, last, Now(), Produced(Some(output)));
        case Some(Ready(None)) => PollEnds(s, last, Now(), Produced(None));
        case Some(_) => PollEnds(s, last, Now(), NotReady);
        case None =>
          LeadsOn(s, last, Now());
          if Stalled() {
            StalledExpiring();
            return Some(Diverges);
          }
      }
    }

    /** A stream stalls only when budget has expired.  So no stream whose limit or queue bound is one stalls. */
    lemma StalledExpiring()
      requires Valid() && Stalled()
      ensures Starved()
    {
      assert Look(Part.Stream);
      StalledStands();
      assert WaitsAt(Tree(), yieldNextLocation.value);
      if !expiring {
        NotStalled();
      }
    }

    /** Budget expires only when there is a limit, and fewer items are to come than could be queued. */
    lemma ExpiringLate()
      requires Valid()
      ensures expiring ==> outputLimit.Some? && (yieldNextLocation.Some? ==> limit.Some? && limit.value < queuedMax)
    {
      assert Look(Part.Stream);
    }

    /** What was emitted is the beginning of what is to be emitted. */
    lemma EmittedFirst()
      requires Valid()
      ensures emitted <= Result()
    {
      assert Look(Part.Stream);
      assert yieldNextLocation.Some? ==> emitted <= all;
    }

    /** One turn in which some running unfold does complete, unless there is something to emit. */
    method RunTurn() returns (turn: Option<Option<Out>>)
      requires Valid()
      modifies this, executionTree.Values
      ensures Valid() && NewNodes()
      ensures match turn
              case None => emitted == old(emitted) && (Starved() || (!Stalled() && Less(Left(), old(Left()))))
              case Some(Some(output)) => emitted == old(emitted) + [output]
              case Some(None) => emitted == old(emitted) == Result()
    {
      var k: nat := *;
      var r := PollTurn(k);
      if r == Some(PollPending) {
        var running: nat :| running < |scheduled|;
        CompleteNext(running);
      }
      if Stalled() {
        StalledExpiring();
      }
      return match r
        case Some(Ready(output)) => Some(output)
        case _ => None;
    }

    /** Runs the stream to its next item, or to its end, in whatever order unfolds complete, unless it stalls. */
    method RunNext() returns (next: Option<Option<Out>>)
      requires Valid()
      modifies this, executionTree.Values
      ensures Valid() && NewNodes()
      ensures match next
              case None => emitted == old(emitted) && Starved()
              case Some(Some(output)) => emitted == old(emitted) + [output]
              case Some(None) => emitted == old(emitted) == Result()
    {
      while true
        invariant Valid() && emitted == old(emitted) && NewNodes()
        decreases Left().0, Left().1, Left().2, Left().3
      {
        next := RunTurn();
        if next.Some? || Stalled() {
          return;
        }
      }
    }

    /** Runs the stream to its end, in whatever order unfolds complete: the outputs are the in-order list of all
        values, or as much of it as the limit allows.  It gets there unless it stalls, which it only does after budget
        has expired, and if both the limit and the queue bound are at least two. */
    method Collect() returns (outputs: seq<Out>, finished: bool)
      requires Valid()
      modifies this, executionTree.Values
      ensures Valid() && old(emitted) + outputs == emitted <= Result()
      ensures if finished then emitted == Result()
              else Starved()
    {
      outputs := [];
      EmittedFirst();
      while true
        invariant Valid() && emitted == old(emitted) + outputs && emitted <= Result()
        invariant NewNodes()
        decreases |Result()| - |emitted|
      {
        var next := RunNext();
        if next == None {
          return outputs, false;
        }
        if next.value == None {
          return outputs, true;
        }
        EmittedFirst();
        outputs := outputs + [next.value.value];
      }
    }

    /** The root of the tree stands for all roots of the traversal, and has as much of the budget as it needs. */
    constructor (scheduledMax: nat, queuedMax: nat, limit: Option<nat>, init: seq<(nat, Input)>)
      requires scheduledMax >= 1 && queuedMax >= 1
      ensures Valid() && fresh(executionTree.Values)
      ensures this.scheduledMax == scheduledMax && this.queuedMax == queuedMax && outputLimit == limit
      ensures emitted == [] && all == Flatten(Roots(init)) && !expiring
      ensures Now() == InitialSituation(queuedMax, limit, Roots(init)) && Jobs() == []
    {
      var items := Roots(init);
      var children, totalWeight := UnfoldChildren(items);
      var root := new Node(None, children, totalWeight);
      var unused := root.AddBudget(queuedMax);
      this.scheduledMax := scheduledMax;
      this.totalBudget := queuedMax - unused;
      this.limit := limit;
      scheduleQueue := [];
      scheduled := [];
      executionTree := map[0 := root];
      executionTreeIndex := 0;
      yieldNextLocation := if limit == Some(0) then None else Some(NodeLocation(0, 0));
      this.queuedMax := queuedMax;
      outputLimit := limit;
      all := Flatten(items);
      emitted := [];
      expiring := false;
      labels := InitialLabels(items);
      pending := map[];
      avail := if items == [] then {} else {0};
      dead := if items == [] then {0} else {};
      new;
      FreshUnique(children, items);
      assert Tree() == map[0 := root.State()];
      assert Now() == InitialSituation(queuedMax, limit, items);
      StartsValid(items);
    }

    /** The root alone satisfies the invariant. */
    lemma StartsValid(items: seq<OrderedTraversal>)
      requires Now() == InitialSituation(queuedMax, limit, items) && queuedMax >= 1 && scheduledMax >= 1
      requires executionTree.Keys == {0} && scheduled == [] && scheduleQueue == []
      requires labels == InitialLabels(items) && pending == map[]
      requires avail == (if items == [] then {} else {0}) && dead == (if items == [] then {0} else {})
      requires limit == outputLimit && emitted == [] && all == Flatten(items) && !expiring
      ensures Valid()
    {
      InitialIs(queuedMax, limit, items);
      InitialConsistent(Tree(), items, queuedMax);
      InitialFunded(Tree(), items, queuedMax, expiring);
      assert Jobs() == [];
      assert emitted + Remaining(labels, 0) == all;
      assert all[..0] == [];
      if limit != Some(0) {
        BaseFrom(0);
        Rests(0);
      }
    }
  }

  ghost predicate Unexpired(t: Tree) {
    forall i :: i in t ==> t[i].expired == 0
  }
}
