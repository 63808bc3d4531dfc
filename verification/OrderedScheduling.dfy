/** The state of a scheduling pass as one value, and the steps that keep all of it consistent. */
module OrderedScheduling {
  import opened Common
  import opened OrderedTree
  import opened OrderedSteps
  import opened OrderedFunding
  import opened OrderedPass
  import opened OrderedFlow
  import opened OrderedNode

  /** What a pass starts from and does not change. */
  datatype Context = Context(
    t0: Tree, jobs0: seq<Job>, top: nat, labels: Labels, at: nat, total: nat, limited: bool)

  /** What a pass changes.  `vt` is `t` with the budget in flight credited. */
  datatype Pass = Pass(
    t: Tree, vt: Tree, stack: seq<Frame>, additional: nat, visited: set<nat>,
    jobs: seq<Job>, pending: map<Location, Input>, avail: set<nat>, dead: set<nat>)

  /** The tree, its labels and the outstanding unfolds fit together. */
  ghost predicate Consistent(t: Tree, top: nat, labels: Labels, pending: map<Location, Input>, at: nat,
                             jobs: seq<Job>) {
    && 0 in t && at in t && at in labels
    && labels[at].done <= |labels[at].items| == |t[at].children|
    && forall part {:trigger Look(part)} :: Look(part) && part == Part.TreeShape ==>
        TreeOk(t, top, labels, pending, at) && JobsOk(t, top, jobs, pending) && AllLocalOk(t)
  }

  /** In an unlimited traversal every subtree is funded and nothing ever expires. */
  ghost predicate FundedPart(limited: bool, t: Tree, avail: set<nat>, dead: set<nat>) {
    forall part {:trigger Look(part)} :: Look(part) && part == Part.Funds ==> limited || Funded(t, avail, dead)
  }

  /** Unfolds are only added, weight is only used up, and no work is lost. */
  ghost predicate Measured(c: Context, t: Tree, jobs: seq<Job>) {
    && c.jobs0 <= jobs
    && WeightTotal(t, c.top) <= WeightTotal(c.t0, c.top)
    && WorkTotal(t, c.labels, c.top) == WorkTotal(c.t0, c.labels, c.top)
  }

  /** All budget is accounted for, in the tree, in flight, or collected as surplus of the root. */
  ghost predicate Budgeted(c: Context, t: Tree, vt: Tree, stack: seq<Frame>, additional: nat,
                           avail: set<nat>, dead: set<nat>)
  {
    && Credited(t, vt, stack, additional)
    && BudgetTotal(vt, c.top) + (if stack == [] then additional else stack[0].surplus) == c.total
    && (c.limited || Funded(vt, avail, dead))
  }

  // The invariant of a pass in five parts, each looked into only where it is mentioned by name.

  ghost predicate TreePart(c: Context, t: Tree, jobs: seq<Job>, pending: map<Location, Input>) {
    forall part {:trigger Look(part)} :: Look(part) && part == Part.PassShape ==>
      TreeOk(t, c.top, c.labels, pending, c.at) && JobsOk(t, c.top, jobs, pending)
  }

  ghost predicate StackPart(t: Tree, stack: seq<Frame>) {
    forall part {:trigger Look(part)} :: Look(part) && part == Part.PassStack ==> AllLocalOk(t) && Stacked(t, stack)
  }

  ghost predicate ExploredPart(c: Context, t: Tree, stack: seq<Frame>, visited: set<nat>) {
    forall part {:trigger Look(part)} :: Look(part) && part == Part.PassVisits ==> Explored(c.t0, t, stack, visited)
  }

  ghost predicate FlowPart(c: Context, t: Tree, stack: seq<Frame>, additional: nat, visited: set<nat>) {
    forall part {:trigger Look(part)} :: Look(part) && part == Part.PassFlow
      ==> Flow(c.t0, c.top, t, stack, additional, visited)
  }

  ghost predicate BudgetPart(c: Context, t: Tree, vt: Tree, stack: seq<Frame>, additional: nat,
                             avail: set<nat>, dead: set<nat>)
  {
    forall part {:trigger Look(part)} :: Look(part) && part == Part.PassBudget
      ==> Budgeted(c, t, vt, stack, additional, avail, dead)
  }

  /** The invariant of a scheduling pass. */
  ghost predicate PassOk(c: Context, p: Pass) {
    && TreePart(c, p.t, p.jobs, p.pending)
    && StackPart(p.t, p.stack)
    && ExploredPart(c, p.t, p.stack, p.visited)
    && FlowPart(c, p.t, p.stack, p.additional, p.visited)
    && BudgetPart(c, p.t, p.vt, p.stack, p.additional, p.avail, p.dead)
    && Measured(c, p.t, p.jobs)
  }

  /** The node of the last frame and its schedule are in order. */
  lemma PassLast(c: Context, p: Pass)
    requires PassOk(c, p) && p.stack != []
    ensures Last(p.stack).nodeIndex in p.t && LocalOk(p.t[Last(p.stack).nodeIndex])
    ensures p.vt.Keys == p.t.Keys && Last(p.stack).nodeIndex in c.t0
    ensures Last(p.stack).nodeSchedule.Some? ==>
              Scheduling(c.t0[Last(p.stack).nodeIndex], p.t[Last(p.stack).nodeIndex], Last(p.stack).nodeSchedule.value)
  {
    PassLastFrame(c, p);
    PassLastFlow(c, p);
    assert Look(Part.PassBudget);
  }

  lemma PassLastFrame(c: Context, p: Pass)
    requires StackPart(p.t, p.stack) && p.stack != []
    ensures FrameAt(p.t, Last(p.stack)) && LocalOk(p.t[Last(p.stack).nodeIndex])
  {
    assert Look(Part.PassStack);
    assert FrameAt(p.t, p.stack[|p.stack| - 1]);
  }

  lemma PassLastFlow(c: Context, p: Pass)
    requires FlowPart(c, p.t, p.stack, p.additional, p.visited) && p.stack != []
    ensures LastFlow(c.t0, c.top, p.t, Last(p.stack), p.additional)
  {
    assert Look(Part.PassFlow);
  }

  ghost const ROOT_FRAME := Frame(0, None, None, 0)

  ghost function StartPass(c: Context, pending: map<Location, Input>, avail: set<nat>, dead: set<nat>): Pass {
    Pass(c.t0, c.t0, [ROOT_FRAME], 0, {0}, c.jobs0, pending, avail, dead)
  }

  lemma PassStart(c: Context, pending: map<Location, Input>, avail: set<nat>, dead: set<nat>)
    requires Consistent(c.t0, c.top, c.labels, pending, c.at, c.jobs0)
    requires BudgetTotal(c.t0, c.top) == c.total
    requires FundedPart(c.limited, c.t0, avail, dead)
    ensures PassOk(c, StartPass(c, pending, avail, dead))
  {
    StartStack(c, pending);
    StartBudget(c, pending, avail, dead);
  }

  lemma StartStack(c: Context, pending: map<Location, Input>)
    requires Consistent(c.t0, c.top, c.labels, pending, c.at, c.jobs0)
    ensures TreePart(c, c.t0, c.jobs0, pending) && StackPart(c.t0, [ROOT_FRAME])
            && ExploredPart(c, c.t0, [ROOT_FRAME], {0})
    ensures FlowPart(c, c.t0, [ROOT_FRAME], 0, {0})
  {
    assert Look(Part.TreeShape);
    assert [ROOT_FRAME][0].nodeIndex == 0;
    FlowStart(c.t0, c.top, ROOT_FRAME);
  }

  lemma StartBudget(c: Context, pending: map<Location, Input>, avail: set<nat>, dead: set<nat>)
    requires BudgetTotal(c.t0, c.top) == c.total && FundedPart(c.limited, c.t0, avail, dead)
    ensures BudgetPart(c, c.t0, c.t0, [ROOT_FRAME], 0, avail, dead)
  {
    assert Look(Part.Funds);
    assert forall x :: InFlight([ROOT_FRAME], 0, x) == 0;
  }

  /** The invariant at the end of a pass. */
  lemma PassEnd(c: Context, p: Pass)
    requires PassOk(c, p) && p.stack == []
    ensures p.vt == p.t
    ensures BudgetTotal(p.t, c.top) + p.additional == c.total
    ensures FundedPart(c.limited, p.t, p.avail, p.dead)
    ensures Consistent(p.t, c.top, c.labels, p.pending, c.at, p.jobs)
    ensures p.t == PassTree(c.t0, c.top) && p.additional == Surplus(c.t0, c.top, 0)
  {
    PassEndBudget(c, p);
    PassEndFlow(c, p);
    assert Look(Part.PassShape) && Look(Part.PassStack);
  }

  lemma PassEndBudget(c: Context, p: Pass)
    requires BudgetPart(c, p.t, p.vt, p.stack, p.additional, p.avail, p.dead) && p.stack == []
    ensures p.vt == p.t
    ensures BudgetTotal(p.t, c.top) + p.additional == c.total
    ensures c.limited || Funded(p.t, p.avail, p.dead)
  {
    assert Look(Part.PassBudget);
    assert forall x :: InFlight(p.stack, p.additional, x) == 0;
  }

  lemma PassEndFlow(c: Context, p: Pass)
    requires TreePart(c, p.t, p.jobs, p.pending) && ExploredPart(c, p.t, p.stack, p.visited) && p.stack == []
    requires FlowPart(c, p.t, p.stack, p.additional, p.visited)
    ensures 0 in c.t0 && p.t == PassTree(c.t0, c.top) && p.additional == Surplus(c.t0, c.top, 0)
  {
    AllVisitedAtEnd(c, p);
    assert Look(Part.PassFlow);
    FlowEnd(c.t0, c.top, p.t, p.additional, p.visited);
  }

  lemma AllVisitedAtEnd(c: Context, p: Pass)
    requires TreePart(c, p.t, p.jobs, p.pending) && ExploredPart(c, p.t, p.stack, p.visited) && p.stack == []
    ensures 0 in c.t0 && p.t.Keys == c.t0.Keys == p.visited
  {
    assert Look(Part.PassShape) && Look(Part.PassVisits);
    forall i | i in p.t ensures i in p.visited {
      AllVisited(c.t0, p.t, c.top, p.visited, i);
    }
  }

  // ---------------------------------------------------------------- a frame takes its snapshot

  ghost function Begun(p: Pass): Pass
    requires p.stack != [] && Last(p.stack).nodeIndex in p.t
  {
    var n := p.t[Last(p.stack).nodeIndex];
    p.(stack := WithLast(p.stack,
         Last(p.stack).(nodeSchedule := Some(NodeSchedule(n.scheduleNextIndex, n.budget, 0)))))
  }

  lemma PassBegin(c: Context, p: Pass)
    requires PassOk(c, p) && p.stack != [] && Last(p.stack).nodeSchedule == None && Last(p.stack).nodeIndex in p.t
    ensures PassOk(c, Begun(p))
  {
    BegunStack(c, p, Begun(p).stack);
    BegunFlow(c, p, Last(Begun(p).stack));
    BegunBudget(c, p, Last(Begun(p).stack));
  }

  lemma BegunFlow(c: Context, p: Pass, f: Frame)
    requires StackPart(p.t, p.stack) && ExploredPart(c, p.t, p.stack, p.visited)
    requires FlowPart(c, p.t, p.stack, p.additional, p.visited)
    requires p.stack != [] && Last(p.stack).nodeSchedule == None && Last(p.stack).nodeIndex in p.t
    requires f == Last(Begun(p).stack)
    ensures FlowPart(c, p.t, WithLast(p.stack, f), p.additional, p.visited)
  {
    assert Look(Part.PassStack) && Look(Part.PassVisits) && Look(Part.PassFlow);
    assert LocalOk(p.t[f.nodeIndex]) && FrameExplored(c.t0, p.t, p.visited, p.stack[|p.stack| - 1]);
    LastBegins(c.t0, c.top, p.t, Last(p.stack), p.additional);
    FlowLast(c.t0, c.top, p.t, p.t, p.stack, f, p.additional, p.additional, p.visited);
  }

  lemma BegunStack(c: Context, p: Pass, stack': seq<Frame>)
    requires StackPart(p.t, p.stack) && ExploredPart(c, p.t, p.stack, p.visited)
    requires p.stack != [] && Last(p.stack).nodeSchedule == None && Last(p.stack).nodeIndex in p.t
    requires stack' == Begun(p).stack
    ensures StackPart(p.t, stack') && ExploredPart(c, p.t, stack', p.visited)
  {
    assert Look(Part.PassStack) && Look(Part.PassVisits);
    assert LocalOk(p.t[Last(p.stack).nodeIndex]);
    BeginStep(c.t0, p.t, p.stack, p.visited);
  }

  lemma BegunBudget(c: Context, p: Pass, f: Frame)
    requires p.stack != [] && f.nodeIndex == Last(p.stack).nodeIndex && f.surplus == Last(p.stack).surplus
    requires BudgetPart(c, p.t, p.vt, p.stack, p.additional, p.avail, p.dead)
    ensures BudgetPart(c, p.t, p.vt, WithLast(p.stack, f), p.additional, p.avail, p.dead)
  {
    assert Look(Part.PassBudget);
    CreditedKept(p.t, p.vt, p.stack, f, p.additional);
  }

  lemma CreditedKept(t: Tree, vt: Tree, stack: seq<Frame>, f: Frame, additional: nat)
    requires stack != [] && f.nodeIndex == Last(stack).nodeIndex && f.surplus == Last(stack).surplus
    requires Credited(t, vt, stack, additional)
    ensures Credited(t, vt, WithLast(stack, f), additional)
  {
    forall x | x in t ensures InFlight(WithLast(stack, f), additional, x) == InFlight(stack, additional, x) {
      InFlightLast(stack, f, additional, x);
    }
  }

  // ---------------------------------------------------------------- budget arrives

  ghost function CreditedTree(t: Tree, stack: seq<Frame>, additional: nat): Tree {
    map x | x in t :: t[x].(budget := t[x].budget + InFlight(stack, additional, x))
  }

  lemma CreditedTreeOk(t: Tree, stack: seq<Frame>, additional: nat)
    ensures Credited(t, CreditedTree(t, stack, additional), stack, additional)
  {
  }

  /** A change of one node's budget alone leaves everything but the budgets as it is. */
  lemma BudgetStep(t: Tree, t': Tree, top: nat, labels: Labels, pending: map<Location, Input>, at: nat, jobs: seq<Job>,
                   x: nat, budget: nat)
    requires TreeOk(t, top, labels, pending, at) && JobsOk(t, top, jobs, pending)
    requires x in t && t' == t[x := t[x].(budget := budget)]
    ensures TreeOk(t', top, labels, pending, at) && JobsOk(t', top, jobs, pending)
    ensures WorkTotal(t', labels, top) == WorkTotal(t, labels, top)
    ensures WeightTotal(t', top) == WeightTotal(t, top)
  {
    SameShapeKeepsTree(t, t', top, labels, pending, at);
    SameShapeKeepsJobs(t, t', top, jobs, pending);
    SameShapeKeepsWorks(t, t', labels, top);
    SumSame(Weights(t), Weights(t'), top + 1);
  }

  /** The node of the last frame receives the budget headed for it and keeps what it needs. */
  ghost predicate Arrived(p: Pass, t': Tree, excess: nat) {
    && p.stack != [] && Last(p.stack).nodeSchedule.Some? && Last(p.stack).nodeIndex in p.t
    && var x := Last(p.stack).nodeIndex;
      && t' == p.t[x := p.t[x].(budget := Min(p.t[x].budget + p.additional, p.t[x].remainingWeight))]
      && excess == SaturatingSub(p.t[x].budget + p.additional, p.t[x].remainingWeight)
  }

  lemma ArrivedTree(c: Context, p: Pass, t': Tree, excess: nat)
    requires TreePart(c, p.t, p.jobs, p.pending) && Measured(c, p.t, p.jobs)
    requires Arrived(p, t', excess)
    ensures TreePart(c, t', p.jobs, p.pending) && Measured(c, t', p.jobs)
  {
    assert Look(Part.PassShape);
    var x := Last(p.stack).nodeIndex;
    BudgetStep(p.t, t', c.top, c.labels, p.pending, c.at, p.jobs, x, t'[x].budget);
  }

  lemma ArrivedStack(c: Context, p: Pass, t': Tree, excess: nat, stack': seq<Frame>)
    requires StackPart(p.t, p.stack) && ExploredPart(c, p.t, p.stack, p.visited)
    requires Arrived(p, t', excess)
    requires stack' == WithLast(p.stack, Last(p.stack).(surplus := Last(p.stack).surplus + excess))
    ensures StackPart(t', stack') && ExploredPart(c, t', stack', p.visited)
  {
    assert Look(Part.PassStack) && Look(Part.PassVisits);
    var x := Last(p.stack).nodeIndex;
    assert LocalOk(p.t[x]) && FrameAt(p.t, p.stack[|p.stack| - 1]);
    FrameReceive(p.t[x], Last(p.stack).nodeSchedule.value, p.additional);
    AllLocalUpdate(p.t, t', x);
    StackedStep(p.t, t', p.stack, stack');
    assert FrameExplored(c.t0, p.t, p.visited, p.stack[|p.stack| - 1]);
    ExploredStep(c.t0, p.t, t', p.stack, stack', p.visited, p.visited);
  }

  lemma AllLocalUpdate(t: Tree, t': Tree, x: nat)
    requires AllLocalOk(t) && x in t && x in t' && t' == t[x := t'[x]] && LocalOk(t'[x])
    ensures AllLocalOk(t')
  {
    forall i | i in t' ensures LocalOk(t'[i]) {
      assert LocalOk(t[i]);
    }
  }

  /** What is known of the tree and the stack when the budget of a node changes. */
  lemma BudgetFacts(c: Context, p: Pass, additional: nat)
    requires TreePart(c, p.t, p.jobs, p.pending) && StackPart(p.t, p.stack)
    requires BudgetPart(c, p.t, p.vt, p.stack, additional, p.avail, p.dead)
    requires p.stack != [] && Last(p.stack).nodeIndex in p.t
    ensures Stacked(p.t, p.stack) && Credited(p.t, p.vt, p.stack, additional)
    ensures LocalOk(p.t[Last(p.stack).nodeIndex]) && 0 in p.t && p.t[0].parent.None? && Below(p.vt, c.top)
    ensures BudgetTotal(p.vt, c.top) + p.stack[0].surplus == c.total
  {
    assert Look(Part.PassShape) && Look(Part.PassStack) && Look(Part.PassBudget);
  }

  lemma FundedFacts(c: Context, p: Pass, additional: nat)
    requires TreePart(c, p.t, p.jobs, p.pending) && BudgetPart(c, p.t, p.vt, p.stack, additional, p.avail, p.dead)
             && !c.limited
    ensures Linked(p.vt, c.top) && Funded(p.vt, p.avail, p.dead)
  {
    assert Look(Part.PassShape) && Look(Part.PassBudget);
    SameShapeLinked(p.t, p.vt, c.top);
  }

  lemma ArrivedFunded(c: Context, p: Pass, vt': Tree, x: nat) returns (avail': set<nat>, dead': set<nat>)
    requires TreePart(c, p.t, p.jobs, p.pending) && BudgetPart(c, p.t, p.vt, p.stack, p.additional, p.avail, p.dead)
    requires x in p.vt && LocalOk(p.vt[x]) && PassedUp(p.vt, vt', x)
    ensures c.limited || Funded(vt', avail', dead')
  {
    avail', dead' := p.avail, p.dead;
    if !c.limited {
      FundedFacts(c, p, p.additional);
      avail', dead' := PassUpFunded(p.vt, vt', c.top, p.avail, p.dead, x);
    }
  }

  /** The arrival in terms of credited budgets. */
  lemma ArrivedCredit(p: Pass, t': Tree, excess: nat, stack': seq<Frame>) returns (vt': Tree)
    requires Arrived(p, t', excess) && Stacked(p.t, p.stack) && Credited(p.t, p.vt, p.stack, p.additional)
    requires 0 in p.t && p.t[0].parent.None?
    requires stack' == WithLast(p.stack, Last(p.stack).(surplus := Last(p.stack).surplus + excess))
    ensures Credited(t', vt', stack', 0) && PassedUp(p.vt, vt', Last(p.stack).nodeIndex)
  {
    vt' := CreditedTree(t', stack', 0);
    CreditedTreeOk(t', stack', 0);
    ReceiveStep(p.t, t', p.vt, vt', p.stack, stack', p.additional, excess);
  }

  lemma ArrivedTotals(c: Context, p: Pass, t': Tree, excess: nat, stack': seq<Frame>) returns (vt': Tree)
    requires TreePart(c, p.t, p.jobs, p.pending) && StackPart(p.t, p.stack)
    requires BudgetPart(c, p.t, p.vt, p.stack, p.additional, p.avail, p.dead)
    requires Arrived(p, t', excess)
    requires stack' == WithLast(p.stack, Last(p.stack).(surplus := Last(p.stack).surplus + excess))
    ensures Credited(t', vt', stack', 0) && PassedUp(p.vt, vt', Last(p.stack).nodeIndex)
    ensures BudgetTotal(vt', c.top) + stack'[0].surplus == c.total
    ensures Last(p.stack).nodeIndex in p.vt && LocalOk(p.vt[Last(p.stack).nodeIndex])
  {
    BudgetFacts(c, p, p.additional);
    vt' := ArrivedCredit(p, t', excess, stack');
    var x := Last(p.stack).nodeIndex;
    CreditedLocal(p.t, p.vt, p.stack, p.additional, x);
    PassedUpSums(p.vt, vt', x, c.top);
    RootSurplus(p);
  }

  lemma ArrivedBudget(c: Context, p: Pass, t': Tree, excess: nat, stack': seq<Frame>)
    returns (vt': Tree, avail': set<nat>, dead': set<nat>)
    requires TreePart(c, p.t, p.jobs, p.pending) && StackPart(p.t, p.stack)
    requires BudgetPart(c, p.t, p.vt, p.stack, p.additional, p.avail, p.dead)
    requires Arrived(p, t', excess)
    requires stack' == WithLast(p.stack, Last(p.stack).(surplus := Last(p.stack).surplus + excess))
    ensures BudgetPart(c, t', vt', stack', 0, avail', dead')
  {
    vt' := ArrivedTotals(c, p, t', excess, stack');
    avail', dead' := ArrivedFunded(c, p, vt', Last(p.stack).nodeIndex);
  }

  lemma PassReceive(c: Context, p: Pass, t': Tree, excess: nat, stack': seq<Frame>) returns (p': Pass)
    requires PassOk(c, p) && Arrived(p, t', excess)
    requires stack' == WithLast(p.stack, Last(p.stack).(surplus := Last(p.stack).surplus + excess))
    ensures PassOk(c, p')
            && p' == p.(t := t', stack := stack', additional := 0, vt := p'.vt, avail := p'.avail, dead := p'.dead)
  {
    ArrivedTree(c, p, t', excess);
    ArrivedStack(c, p, t', excess, stack');
    ArrivedFlow(c, p, t', excess, stack');
    var vt', avail', dead' := ArrivedBudget(c, p, t', excess, stack');
    p' := p.(t := t', vt := vt', stack := stack', additional := 0, avail := avail', dead := dead');
  }

  lemma ArrivedFlow(c: Context, p: Pass, t': Tree, excess: nat, stack': seq<Frame>)
    requires StackPart(p.t, p.stack) && FlowPart(c, p.t, p.stack, p.additional, p.visited)
    requires Arrived(p, t', excess)
    requires stack' == WithLast(p.stack, Last(p.stack).(surplus := Last(p.stack).surplus + excess))
    ensures FlowPart(c, t', stack', 0, p.visited)
  {
    assert Look(Part.PassStack) && Look(Part.PassFlow);
    LastReceives(c.t0, c.top, p.t, t', Last(p.stack), p.additional, Last(stack'));
    FlowLast(c.t0, c.top, p.t, t', p.stack, Last(stack'), p.additional, 0, p.visited);
  }

  /** Surplus is dropped from the tree exactly when it reaches the root. */
  lemma RootSurplus(p: Pass)
    requires p.stack != [] && Stacked(p.t, p.stack) && Credited(p.t, p.vt, p.stack, p.additional)
    requires 0 in p.t && p.t[0].parent.None?
    ensures var x := Last(p.stack).nodeIndex;
            && (|p.stack| == 1 <==> p.t[x].parent.None?)
            && p.vt[x].budget == p.t[x].budget + p.additional
  {
    var m := |p.stack| - 1;
    if m > 0 {
      assert WaitsFor(p.t, p.stack, m);
    } else {
      assert p.stack[0].nodeIndex == 0;
    }
  }

  lemma CreditedLocal(t: Tree, vt: Tree, stack: seq<Frame>, additional: nat, x: nat)
    requires Credited(t, vt, stack, additional) && x in t && LocalOk(t[x])
    ensures LocalOk(vt[x]) && SameShape(t, vt)
  {
    BudgetChange(t[x], vt[x].budget, t[x].expired);
    assert vt[x] == t[x].(budget := vt[x].budget, expired := t[x].expired);
  }

  // ---------------------------------------------------------------- an unfold is started

  /** The last frame starts the unfold of child `ci` of its node, which becomes `n'`. */
  ghost predicate Started(p: Pass, n': NodeState, s': NodeSchedule, ci: nat, input: Input) {
    && p.stack != [] && Last(p.stack).nodeSchedule.Some? && Last(p.stack).nodeIndex in p.t
    && LocalOk(n') && FrameOk(n', s') && n'.remainingWeight == p.t[Last(p.stack).nodeIndex].remainingWeight
    && ActionOk(p.t[Last(p.stack).nodeIndex], Last(p.stack).nodeSchedule.value, n', s', Schedule(ci, input))
  }

  lemma StartedTree(c: Context, p: Pass, n': NodeState, s': NodeSchedule, ci: nat, input: Input, t': Tree)
    requires TreePart(c, p.t, p.jobs, p.pending) && Measured(c, p.t, p.jobs)
    requires Started(p, n', s', ci, input) && t' == p.t[Last(p.stack).nodeIndex := n']
    ensures var loc := NodeLocation(Last(p.stack).nodeIndex, ci);
            && TreePart(c, t', p.jobs + [Job(loc, input)], p.pending[loc := input])
            && Measured(c, t', p.jobs + [Job(loc, input)])
  {
    assert Look(Part.PassShape);
    var x := Last(p.stack).nodeIndex;
    ScheduleStep(p.t, t', c.top, c.labels, p.pending, c.at, p.jobs, x, ci);
    OneNodeSums(p.t, t', x, c.top);
  }

  lemma StartedStack(c: Context, p: Pass, n': NodeState, s': NodeSchedule, ci: nat, input: Input,
                     t': Tree, stack': seq<Frame>)
    requires StackPart(p.t, p.stack) && ExploredPart(c, p.t, p.stack, p.visited)
    requires Started(p, n', s', ci, input)
    requires t' == p.t[Last(p.stack).nodeIndex := n']
    requires stack' == WithLast(p.stack, Last(p.stack).(nodeSchedule := Some(s')))
    ensures StackPart(t', stack') && ExploredPart(c, t', stack', p.visited)
  {
    assert Look(Part.PassStack) && Look(Part.PassVisits);
    AllLocalUpdate(p.t, t', Last(p.stack).nodeIndex);
    ScanStep(c.t0, p.t, t', p.stack, p.visited, s');
  }

  /** Node `x` changes without losing budget or children. */
  ghost predicate NodeKept(t: Tree, x: nat, n': NodeState) {
    && x in t && n'.parent == t[x].parent && n'.budget == t[x].budget
    && |n'.children| == |t[x].children|
    && forall k :: 0 <= k < |n'.children| ==> ChildNoWorse(t[x].children[k], n'.children[k])
  }

  lemma NodeKeptFunded(t: Tree, vt: Tree, vt': Tree, top: nat, stack: seq<Frame>, x: nat, n': NodeState,
                       avail: set<nat>, dead: set<nat>)
    requires Linked(t, top) && Credited(t, vt, stack, 0) && Funded(vt, avail, dead)
    requires NodeKept(t, x, n') && x in vt && vt' == vt[x := n'.(budget := vt[x].budget)]
    ensures Funded(vt', avail, dead)
  {
    SameShapeLinked(t, vt, top);
    NoWorseFunded(vt, vt', top, avail, dead);
  }

  lemma NodeKeptCredited(t: Tree, t': Tree, vt: Tree, vt': Tree, stack: seq<Frame>, f: Frame, n': NodeState)
    requires stack != [] && f.nodeIndex == Last(stack).nodeIndex && f.surplus == Last(stack).surplus
    requires Credited(t, vt, stack, 0)
    requires var x := f.nodeIndex;
             NodeKept(t, x, n') && t' == t[x := n'] && x in vt && vt' == vt[x := n'.(budget := vt[x].budget)]
    ensures Credited(t', vt', WithLast(stack, f), 0)
  {
    CreditedKept(t, vt, stack, f, 0);
  }

  /** Changes of a node that keep its parent and budget keep all budget accounted for. */
  lemma BudgetedKept(c: Context, t: Tree, t': Tree, vt: Tree, vt': Tree, stack: seq<Frame>, f: Frame, n': NodeState,
                     avail: set<nat>, dead: set<nat>)
    requires stack != [] && f.nodeIndex == Last(stack).nodeIndex && f.surplus == Last(stack).surplus
    requires Linked(t, c.top) && BudgetPart(c, t, vt, stack, 0, avail, dead)
    requires var x := f.nodeIndex;
             NodeKept(t, x, n') && t' == t[x := n'] && x in vt && vt' == vt[x := n'.(budget := vt[x].budget)]
    ensures BudgetPart(c, t', vt', WithLast(stack, f), 0, avail, dead)
  {
    assert Look(Part.PassBudget);
    NodeKeptCredited(t, t', vt, vt', stack, f, n');
    OneNodeSums(vt, vt', f.nodeIndex, c.top);
    if !c.limited {
      NodeKeptFunded(t, vt, vt', c.top, stack, f.nodeIndex, n', avail, dead);
    }
  }

  lemma StartedNoWorse(p: Pass, n': NodeState, s': NodeSchedule, ci: nat, input: Input)
    requires Started(p, n', s', ci, input)
    ensures NodeKept(p.t, Last(p.stack).nodeIndex, n')
  {
  }

  lemma StartedBudget(c: Context, p: Pass, n': NodeState, s': NodeSchedule, ci: nat, input: Input, t': Tree, vt': Tree)
    requires TreePart(c, p.t, p.jobs, p.pending)
    requires BudgetPart(c, p.t, p.vt, p.stack, 0, p.avail, p.dead)
    requires Started(p, n', s', ci, input)
    requires var x := Last(p.stack).nodeIndex;
             t' == p.t[x := n'] && x in p.vt && vt' == p.vt[x := n'.(budget := p.vt[x].budget)]
    ensures BudgetPart(c, t', vt', WithLast(p.stack, Last(p.stack).(nodeSchedule := Some(s'))), 0, p.avail, p.dead)
  {
    assert Look(Part.PassShape);
    StartedNoWorse(p, n', s', ci, input);
    BudgetedKept(c, p.t, t', p.vt, vt', p.stack, Last(p.stack).(nodeSchedule := Some(s')), n', p.avail, p.dead);
  }

  /** The last frame has only looked at children that are not nodes. */
  lemma ScannedFlow(c: Context, p: Pass, n': NodeState, s': NodeSchedule)
    requires StackPart(p.t, p.stack) && FlowPart(c, p.t, p.stack, 0, p.visited)
    requires p.stack != [] && Last(p.stack).nodeSchedule.Some? && Last(p.stack).nodeIndex in p.t
    requires var x, s := Last(p.stack).nodeIndex, Last(p.stack).nodeSchedule.value;
             && x in c.t0 && Scheduling(c.t0[x], n', s') && s.nextChildIndex <= s'.nextChildIndex
             && n'.budget == p.t[x].budget && n'.remainingWeight == p.t[x].remainingWeight
             && NoNodesBetween(p.t[x].children, s.nextChildIndex, s'.nextChildIndex)
    ensures FlowPart(c, p.t[Last(p.stack).nodeIndex := n'],
                     WithLast(p.stack, Last(p.stack).(nodeSchedule := Some(s'))), 0, p.visited)
  {
    assert Look(Part.PassStack) && Look(Part.PassFlow);
    var f, x := Last(p.stack), Last(p.stack).nodeIndex;
    var t' := p.t[x := n'];
    Schedules(c.t0[x], n', s');
    SameNodes(c.t0[x], p.t[x], f.nodeSchedule.value, s'.nextChildIndex);
    LastScans(c.t0, c.top, p.t, t', f, s');
    FlowLast(c.t0, c.top, p.t, t', p.stack, f.(nodeSchedule := Some(s')), 0, 0, p.visited);
  }

  /** Children that were not looked at yet are as they were. */
  lemma SameNodes(n0: NodeState, n: NodeState, s: NodeSchedule, k: nat)
    requires Midway(n0, n, s) && NoNodesBetween(n.children, s.nextChildIndex, k)
    ensures NoNodesBetween(n0.children, s.nextChildIndex, k)
  {
    assert forall c :: s.nextChildIndex <= c < |n0.children| ==> n.children[c] == n0.children[c];
  }

  lemma PassSchedule(c: Context, p: Pass, n': NodeState, s': NodeSchedule, ci: nat, input: Input, p': Pass)
    requires PassOk(c, p) && p.additional == 0 && Started(p, n', s', ci, input)
    requires Last(p.stack).nodeIndex in c.t0 && Scheduling(c.t0[Last(p.stack).nodeIndex], n', s')
    requires var x := Last(p.stack).nodeIndex;
             p' == p.(t := p.t[x := n'], vt := p'.vt,
                      stack := WithLast(p.stack, Last(p.stack).(nodeSchedule := Some(s'))),
                      jobs := p.jobs + [Job(NodeLocation(x, ci), input)],
                      pending := p.pending[NodeLocation(x, ci) := input])
             && x in p.vt && p'.vt == p.vt[x := n'.(budget := p.vt[x].budget)]
    ensures PassOk(c, p')
  {
    StartedTree(c, p, n', s', ci, input, p'.t);
    StartedStack(c, p, n', s', ci, input, p'.t, p'.stack);
    StartedBudget(c, p, n', s', ci, input, p'.t, p'.vt);
    ScannedFlow(c, p, n', s');
  }

  // ---------------------------------------------------------------- recursion into a child node

  /** The last frame recurses into child node `j` with `b` units of budget; its node becomes `n'`. */
  ghost predicate Entered(p: Pass, n': NodeState, s': NodeSchedule, ci: nat, j: nat, b: nat) {
    && p.stack != [] && Last(p.stack).nodeSchedule.Some? && Last(p.stack).nodeIndex in p.t
    && LocalOk(n') && FrameOk(n', s')
    && ActionOk(p.t[Last(p.stack).nodeIndex], Last(p.stack).nodeSchedule.value, n', s', NodeAction.Recurse(ci, j, b))
  }

  lemma EnteredChild(p: Pass, n': NodeState, s': NodeSchedule, ci: nat, j: nat, b: nat)
    requires Entered(p, n', s', ci, j, b)
    ensures var s, n := Last(p.stack).nodeSchedule.value, p.t[Last(p.stack).nodeIndex];
            && s.nextChildIndex <= ci && s'.nextChildIndex == ci + 1 && s'.pendingCount >= 1
            && ci < |n.children| && n.children[ci].Node? && n.children[ci].nodeIndex == j
            && NoNodesBetween(n.children, s.nextChildIndex, ci)
    ensures LastChanged(p.t, p.t[Last(p.stack).nodeIndex := n'], Last(p.stack).nodeIndex)
  {
  }

  lemma EnteredStack(c: Context, p: Pass, n': NodeState, s': NodeSchedule, ci: nat, j: nat, b: nat,
                     t': Tree, stack': seq<Frame>)
    requires TreePart(c, p.t, p.jobs, p.pending)
    requires StackPart(p.t, p.stack) && ExploredPart(c, p.t, p.stack, p.visited)
    requires Entered(p, n', s', ci, j, b)
    requires t' == p.t[Last(p.stack).nodeIndex := n']
    requires stack' == WithLast(p.stack, Last(p.stack).(nodeSchedule := Some(s'))) + [Frame(j, Some(ci), None, 0)]
    ensures j in p.t && j !in p.visited
    ensures forall k :: 0 <= k < |p.stack| ==> p.stack[k].nodeIndex != j
    ensures StackPart(t', stack')
    ensures ExploredPart(c, t', stack', p.visited + {j})
  {
    assert Look(Part.PassShape) && Look(Part.PassStack) && Look(Part.PassVisits);
    AllLocalUpdate(p.t, t', Last(p.stack).nodeIndex);
    EnteredChild(p, n', s', ci, j, b);
    PushStep(c.t0, p.t, t', c.top, p.stack, p.visited, s', ci, j);
  }

  /** Budget that moves into a child is in flight towards it. */
  lemma EnteredCredit(t: Tree, t': Tree, vt: Tree, vt': Tree, stack: seq<Frame>, f: Frame, ci: nat, j: nat, b: nat,
                      n': NodeState)
    requires stack != [] && f.nodeIndex == Last(stack).nodeIndex && f.surplus == Last(stack).surplus
    requires Credited(t, vt, stack, 0)
    requires forall k :: 0 <= k < |stack| ==> stack[k].nodeIndex != j
    requires var x := f.nodeIndex;
             && x in t && j in t && x != j && n'.budget + b == t[x].budget
             && t' == t[x := n'] && vt' == vt[x := n'][j := vt[j].(budget := vt[j].budget + b)]
    ensures Credited(t', vt', WithLast(stack, f) + [Frame(j, Some(ci), None, 0)], b)
  {
    var stack1 := WithLast(stack, f);
    var stack' := stack1 + [Frame(j, Some(ci), None, 0)];
    assert stack'[..|stack|] == stack1;
    CreditedKept(t, vt, stack, f, 0);
    forall y | y in t' ensures InFlight(stack', b, y) == (if y == j then b else InFlight(stack1, 0, y)) {}
    InFlightAbsent(stack1, 0, j);
    assert InFlight(stack1, 0, f.nodeIndex) == 0;
  }

  /** Of the sums over the tree, only the weight changes. */
  lemma EnteredSums(vt: Tree, mid: Tree, vt': Tree, top: nat, x: nat, ci: nat, b: nat)
    requires Below(vt, top) && Moved(vt, mid, x, ci, b) && LocalOk(vt[x])
    requires x in vt' && vt' == mid[x := mid[x].(scheduleNextIndex := vt'[x].scheduleNextIndex)]
    ensures BudgetTotal(vt', top) == BudgetTotal(vt, top)
  {
    MovedSums(vt, mid, x, ci, b, top);
    OneNodeSums(mid, vt', x, top);
  }

  /** The same move in the tree with the budget in flight credited. */
  lemma EnteredMoved(vt: Tree, n: NodeState, n': NodeState, x: nat, ci: nat, j: nat, b: nat, mid: Tree, vt': Tree)
    requires x in vt && j in vt && j != x && vt[x] == n
    requires ci < |n.children| && n.children[ci].Node? && n.children[ci].nodeIndex == j
    requires b <= n.children[ci].weight && b <= n.budget
    requires n' == MovedOut(n, ci, b).(scheduleNextIndex := n'.scheduleNextIndex)
    requires mid == vt[x := MovedOut(n, ci, b)][j := vt[j].(budget := vt[j].budget + b)]
    requires vt' == vt[x := n'][j := vt[j].(budget := vt[j].budget + b)]
    ensures Moved(vt, mid, x, ci, b)
    ensures x in vt' && vt' == mid[x := mid[x].(scheduleNextIndex := vt'[x].scheduleNextIndex)]
  {
  }

  lemma BudgetedPushed(c: Context, t': Tree, vt: Tree, vt': Tree, stack: seq<Frame>, stack': seq<Frame>, b: nat,
                       avail: set<nat>, dead: set<nat>)
    requires 0 < |stack| < |stack'| && stack'[0].surplus == stack[0].surplus
    requires Credited(t', vt', stack', b) && BudgetTotal(vt', c.top) == BudgetTotal(vt, c.top)
    requires BudgetTotal(vt, c.top) + stack[0].surplus == c.total
    requires c.limited || Funded(vt', avail, dead)
    ensures BudgetPart(c, t', vt', stack', b, avail, dead)
  {
  }

  /** The move in terms of credited budgets: `mid` is the tree before the scheduling position is updated. */
  lemma EnteredTotals(c: Context, p: Pass, n': NodeState, s': NodeSchedule, ci: nat, j: nat, b: nat,
                      t': Tree, vt': Tree, stack': seq<Frame>) returns (mid: Tree)
    requires TreePart(c, p.t, p.jobs, p.pending) && StackPart(p.t, p.stack)
    requires BudgetPart(c, p.t, p.vt, p.stack, 0, p.avail, p.dead)
    requires Entered(p, n', s', ci, j, b) && j in p.t && p.vt.Keys == p.t.Keys
    requires forall k :: 0 <= k < |p.stack| ==> p.stack[k].nodeIndex != j
    requires var x := Last(p.stack).nodeIndex;
             && t' == p.t[x := n'] && j != x
             && vt' == p.vt[x := n'][j := p.vt[j].(budget := p.vt[j].budget + b)]
    requires stack' == WithLast(p.stack, Last(p.stack).(nodeSchedule := Some(s'))) + [Frame(j, Some(ci), None, 0)]
    ensures var x := Last(p.stack).nodeIndex;
            && x in p.vt && p.vt[x] == p.t[x] && Moved(p.vt, mid, x, ci, b)
            && x in vt' && vt' == mid[x := mid[x].(scheduleNextIndex := vt'[x].scheduleNextIndex)]
    ensures Credited(t', vt', stack', b) && BudgetTotal(vt', c.top) == BudgetTotal(p.vt, c.top)
  {
    BudgetFacts(c, p, 0);
    var x := Last(p.stack).nodeIndex;
    assert InFlight(p.stack, 0, x) == 0;
    assert p.vt[x] == p.t[x];
    EnteredCredit(p.t, t', p.vt, vt', p.stack, Last(p.stack).(nodeSchedule := Some(s')), ci, j, b, n');
    mid := p.vt[x := MovedOut(p.t[x], ci, b)][j := p.vt[j].(budget := p.vt[j].budget + b)];
    EnteredMoved(p.vt, p.t[x], n', x, ci, j, b, mid, vt');
    EnteredSums(p.vt, mid, vt', c.top, x, ci, b);
  }

  lemma EnteredBudget(c: Context, p: Pass, n': NodeState, s': NodeSchedule, ci: nat, j: nat, b: nat,
                      t': Tree, vt': Tree, stack': seq<Frame>) returns (avail': set<nat>)
    requires TreePart(c, p.t, p.jobs, p.pending) && StackPart(p.t, p.stack)
    requires BudgetPart(c, p.t, p.vt, p.stack, 0, p.avail, p.dead)
    requires Entered(p, n', s', ci, j, b) && j in p.t && p.vt.Keys == p.t.Keys
    requires forall k :: 0 <= k < |p.stack| ==> p.stack[k].nodeIndex != j
    requires var x := Last(p.stack).nodeIndex;
             && t' == p.t[x := n'] && j != x
             && vt' == p.vt[x := n'][j := p.vt[j].(budget := p.vt[j].budget + b)]
    requires stack' == WithLast(p.stack, Last(p.stack).(nodeSchedule := Some(s'))) + [Frame(j, Some(ci), None, 0)]
    ensures BudgetPart(c, t', vt', stack', b, avail', p.dead)
  {
    var x := Last(p.stack).nodeIndex;
    var mid := EnteredTotals(c, p, n', s', ci, j, b, t', vt', stack');
    BudgetFacts(c, p, 0);
    avail' := p.avail;
    if !c.limited {
      FundedFacts(c, p, 0);
      avail' := EnteredFunded(p.vt, mid, vt', c.top, p.avail, p.dead, x, ci, b);
    }
    BudgetedPushed(c, t', p.vt, vt', p.stack, stack', b, avail', p.dead);
  }

  lemma MovedOutLocalWeight(n: NodeState, ci: nat, b: nat)
    requires LocalOk(n) && ci < |n.children| && n.children[ci].Node? && b <= n.children[ci].weight && b <= n.budget
    ensures MovedOut(n, ci, b).remainingWeight + b == n.remainingWeight
  {
    WeightReplaced(n.children, ci, Node(n.children[ci].weight - b, n.children[ci].nodeIndex));
  }

  lemma EnteredFunded(vt: Tree, mid: Tree, vt': Tree, top: nat, avail: set<nat>, dead: set<nat>, x: nat, ci: nat,
                      b: nat)
    returns (avail': set<nat>)
    requires Linked(vt, top) && Funded(vt, avail, dead)
    requires Moved(vt, mid, x, ci, b)
    requires b >= 1 ==> MoveAllowed(vt[x], ci, b)
    requires x in vt' && vt' == mid[x := mid[x].(scheduleNextIndex := vt'[x].scheduleNextIndex)]
    ensures Funded(vt', avail', dead)
  {
    assert ChildLinked(vt, x, ci);
    if b >= 1 {
      avail' := avail + {vt[x].children[ci].nodeIndex};
      MoveFunded(vt, mid, top, avail, dead, x, ci, b);
      MovedLinked(vt, mid, top, x, ci, b);
      NoWorseFunded(mid, vt', top, avail', dead);
    } else {
      avail' := avail;
      NoWorseFunded(vt, vt', top, avail, dead);
    }
  }

  lemma MovedLinked(vt: Tree, mid: Tree, top: nat, x: nat, ci: nat, b: nat)
    requires Linked(vt, top) && Moved(vt, mid, x, ci, b)
    ensures Linked(mid, top)
  {
    SameShapeLinked(vt, mid, top);
  }

  lemma EnteredShape(c: Context, p: Pass, n': NodeState, s': NodeSchedule, ci: nat, j: nat, b: nat, t': Tree)
    requires TreeOk(p.t, c.top, c.labels, p.pending, c.at) && JobsOk(p.t, c.top, p.jobs, p.pending)
    requires Entered(p, n', s', ci, j, b) && t' == p.t[Last(p.stack).nodeIndex := n']
    ensures TreeOk(t', c.top, c.labels, p.pending, c.at) && JobsOk(t', c.top, p.jobs, p.pending)
    ensures WorkTotal(t', c.labels, c.top) == WorkTotal(p.t, c.labels, c.top)
  {
    SameShapeKeepsTree(p.t, t', c.top, c.labels, p.pending, c.at);
    SameShapeKeepsJobs(p.t, t', c.top, p.jobs, p.pending);
    SameShapeKeepsWorks(p.t, t', c.labels, c.top);
  }

  lemma EnteredTree(c: Context, p: Pass, n': NodeState, s': NodeSchedule, ci: nat, j: nat, b: nat, t': Tree)
    requires TreePart(c, p.t, p.jobs, p.pending) && Measured(c, p.t, p.jobs)
    requires Entered(p, n', s', ci, j, b) && t' == p.t[Last(p.stack).nodeIndex := n']
    requires LocalOk(p.t[Last(p.stack).nodeIndex])
    ensures TreePart(c, t', p.jobs, p.pending) && Measured(c, t', p.jobs)
  {
    assert Look(Part.PassShape);
    var x := Last(p.stack).nodeIndex;
    EnteredShape(c, p, n', s', ci, j, b, t');
    MovedOutLocalWeight(p.t[x], ci, b);
    OneNodeSums(p.t, t', x, c.top);
  }

  lemma EnteredFlow(c: Context, p: Pass, n': NodeState, s': NodeSchedule, ci: nat, j: nat, b: nat,
                    t': Tree, stack': seq<Frame>)
    requires StackPart(p.t, p.stack) && FlowPart(c, p.t, p.stack, 0, p.visited)
    requires Entered(p, n', s', ci, j, b) && t' == p.t[Last(p.stack).nodeIndex := n']
    requires var x := Last(p.stack).nodeIndex;
             && x in c.t0 && Scheduling(c.t0[x], n', s') && Recursed(c.t0[x], ci, j, b)
             && p.t[x].budget <= p.t[x].remainingWeight
    requires stack' == WithLast(p.stack, Last(p.stack).(nodeSchedule := Some(s'))) + [Frame(j, Some(ci), None, 0)]
    requires j in p.t && j !in p.visited
    ensures FlowPart(c, t', stack', b, p.visited + {j})
  {
    assert Look(Part.PassStack) && Look(Part.PassFlow);
    var f, x := Last(p.stack), Last(p.stack).nodeIndex;
    var f' := f.(nodeSchedule := Some(s'));
    Schedules(c.t0[x], n', s');
    SameNodes(c.t0[x], p.t[x], f.nodeSchedule.value, ci);
    MovedOutLocalWeight(p.t[x], ci, b);
    LastEnters(c.t0, c.top, p.t, t', f, s', j, b);
    FlowEnter(c.t0, c.top, p.t, t', p.stack, f', j, Frame(j, Some(ci), None, 0), b, p.visited);
  }

  lemma PassEnter(c: Context, p: Pass, n': NodeState, s': NodeSchedule, ci: nat, j: nat, b: nat) returns (p': Pass)
    requires PassOk(c, p) && p.additional == 0 && Entered(p, n', s', ci, j, b)
    requires var x := Last(p.stack).nodeIndex;
             && x in c.t0 && Scheduling(c.t0[x], n', s') && Recursed(c.t0[x], ci, j, b)
             && p.t[x].budget <= p.t[x].remainingWeight
    ensures PassOk(c, p')
    ensures j in p.t && j !in p.visited
    ensures p' == p.(t := p.t[Last(p.stack).nodeIndex := n'], vt := p'.vt,
                     stack := WithLast(p.stack, Last(p.stack).(nodeSchedule := Some(s')))
                       + [Frame(j, Some(ci), None, 0)],
                     additional := b, visited := p.visited + {j}, avail := p'.avail)
  {
    var x := Last(p.stack).nodeIndex;
    var t' := p.t[x := n'];
    var stack' := WithLast(p.stack, Last(p.stack).(nodeSchedule := Some(s'))) + [Frame(j, Some(ci), None, 0)];
    PassLast(c, p);
    EnteredTree(c, p, n', s', ci, j, b, t');
    EnteredStack(c, p, n', s', ci, j, b, t', stack');
    EnteredFlow(c, p, n', s', ci, j, b, t', stack');
    assert p.stack[|p.stack| - 1].nodeIndex == x;
    var vt' := p.vt[x := n'][j := p.vt[j].(budget := p.vt[j].budget + b)];
    var avail' := EnteredBudget(c, p, n', s', ci, j, b, t', vt', stack');
    p' := p.(t := t', vt := vt', stack := stack', additional := b, visited := p.visited + {j},
             avail := avail');
  }

  // ---------------------------------------------------------------- a frame is finished

  /** The last frame has looked at all children of its node, which becomes `n'`. */
  ghost predicate Finished(p: Pass, n': NodeState, s': NodeSchedule, action: NodeAction) {
    && p.stack != [] && Last(p.stack).nodeSchedule.Some? && Last(p.stack).nodeIndex in p.t
    && LocalOk(n') && FrameOk(n', s')
    && (action.ActionPending? || action.ActionComplete?)
    && ActionOk(p.t[Last(p.stack).nodeIndex], Last(p.stack).nodeSchedule.value, n', s', action)
  }

  /** The last frame gives its surplus to the node below and is popped. */
  lemma FinishedStack(c: Context, p: Pass, n': NodeState, s': NodeSchedule, action: NodeAction, t': Tree, vt': Tree)
    requires StackPart(p.t, p.stack) && ExploredPart(c, p.t, p.stack, p.visited)
    requires Finished(p, n', s', action) && t' == p.t[Last(p.stack).nodeIndex := n']
    requires BudgetPart(c, t', vt', WithLast(p.stack, Last(p.stack).(nodeSchedule := Some(s'))), 0, p.avail, p.dead)
    ensures var stack' := p.stack[..|p.stack| - 1];
            && StackPart(t', stack') && ExploredPart(c, t', stack', p.visited)
            && BudgetPart(c, t', vt', stack', Last(p.stack).surplus, p.avail, p.dead)
            && (stack' != [] ==> Last(stack').nodeSchedule.Some? && Last(stack').nodeSchedule.value.pendingCount >= 1)
  {
    var stack1 := WithLast(p.stack, Last(p.stack).(nodeSchedule := Some(s')));
    FinishedScan(c, p, n', s', action, t', stack1);
    assert stack1[..|p.stack| - 1] == p.stack[..|p.stack| - 1];
    Popped(c, t', vt', stack1, p.visited, p.avail, p.dead);
  }

  lemma FinishedScan(c: Context, p: Pass, n': NodeState, s': NodeSchedule, action: NodeAction, t': Tree,
                     stack1: seq<Frame>)
    requires StackPart(p.t, p.stack) && ExploredPart(c, p.t, p.stack, p.visited)
    requires Finished(p, n', s', action) && t' == p.t[Last(p.stack).nodeIndex := n']
    requires stack1 == WithLast(p.stack, Last(p.stack).(nodeSchedule := Some(s')))
    ensures StackPart(t', stack1) && ExploredPart(c, t', stack1, p.visited)
  {
    assert Look(Part.PassStack) && Look(Part.PassVisits);
    AllLocalUpdate(p.t, t', Last(p.stack).nodeIndex);
    ScanStep(c.t0, p.t, t', p.stack, p.visited, s');
  }

  lemma Popped(c: Context, t: Tree, vt: Tree, stack: seq<Frame>, visited: set<nat>,
               avail: set<nat>, dead: set<nat>)
    requires stack != [] && Last(stack).nodeSchedule.Some? && Last(stack).nodeIndex in t
    requires Last(stack).nodeSchedule.value.nextChildIndex == |t[Last(stack).nodeIndex].children|
    requires StackPart(t, stack) && ExploredPart(c, t, stack, visited)
    requires BudgetPart(c, t, vt, stack, 0, avail, dead)
    ensures var stack' := stack[..|stack| - 1];
            && StackPart(t, stack') && ExploredPart(c, t, stack', visited)
            && BudgetPart(c, t, vt, stack', Last(stack).surplus, avail, dead)
            && (stack' != [] ==> Last(stack').nodeSchedule.Some? && Last(stack').nodeSchedule.value.pendingCount >= 1)
  {
    assert Look(Part.PassStack) && Look(Part.PassVisits) && Look(Part.PassBudget);
    PopStep(c.t0, t, vt, stack, visited);
  }

  lemma FinishedShape(c: Context, p: Pass, n': NodeState, s': NodeSchedule, action: NodeAction, t': Tree)
    requires TreeOk(p.t, c.top, c.labels, p.pending, c.at) && JobsOk(p.t, c.top, p.jobs, p.pending)
    requires Finished(p, n', s', action) && t' == p.t[Last(p.stack).nodeIndex := n']
    ensures TreeOk(t', c.top, c.labels, p.pending, c.at) && JobsOk(t', c.top, p.jobs, p.pending)
    ensures WorkTotal(t', c.labels, c.top) == WorkTotal(p.t, c.labels, c.top)
    ensures WeightTotal(t', c.top) == WeightTotal(p.t, c.top)
  {
    SameShapeKeepsTree(p.t, t', c.top, c.labels, p.pending, c.at);
    SameShapeKeepsJobs(p.t, t', c.top, p.jobs, p.pending);
    SameShapeKeepsWorks(p.t, t', c.labels, c.top);
    OneNodeSums(p.t, t', Last(p.stack).nodeIndex, c.top);
  }

  lemma FinishedTree(c: Context, p: Pass, n': NodeState, s': NodeSchedule, action: NodeAction, t': Tree)
    requires TreePart(c, p.t, p.jobs, p.pending) && Measured(c, p.t, p.jobs)
    requires Finished(p, n', s', action) && t' == p.t[Last(p.stack).nodeIndex := n']
    ensures TreePart(c, t', p.jobs, p.pending) && Measured(c, t', p.jobs)
  {
    assert Look(Part.PassShape);
    FinishedShape(c, p, n', s', action, t');
  }

  lemma FinishedBudget(c: Context, p: Pass, n': NodeState, s': NodeSchedule, action: NodeAction, t': Tree, vt': Tree)
    requires TreePart(c, p.t, p.jobs, p.pending)
    requires BudgetPart(c, p.t, p.vt, p.stack, 0, p.avail, p.dead)
    requires Finished(p, n', s', action)
    requires var x := Last(p.stack).nodeIndex;
             t' == p.t[x := n'] && x in p.vt && vt' == p.vt[x := n'.(budget := p.vt[x].budget)]
    ensures BudgetPart(c, t', vt', WithLast(p.stack, Last(p.stack).(nodeSchedule := Some(s'))), 0, p.avail, p.dead)
  {
    assert Look(Part.PassShape);
    BudgetedKept(c, p.t, t', p.vt, vt', p.stack, Last(p.stack).(nodeSchedule := Some(s')), n', p.avail, p.dead);
  }

  lemma FinishedFlow(c: Context, p: Pass, n': NodeState, s': NodeSchedule, action: NodeAction)
    requires StackPart(p.t, p.stack) && FlowPart(c, p.t, p.stack, 0, p.visited)
    requires Finished(p, n', s', action)
    requires var x := Last(p.stack).nodeIndex;
             x in c.t0 && Scheduling(c.t0[x], n', s') && p.t[x].budget <= p.t[x].remainingWeight
    ensures FlowPart(c, p.t[Last(p.stack).nodeIndex := n'], p.stack[..|p.stack| - 1], Last(p.stack).surplus, p.visited)
  {
    assert Look(Part.PassStack) && Look(Part.PassFlow);
    var f, x := Last(p.stack), Last(p.stack).nodeIndex;
    var f' := f.(nodeSchedule := Some(s'));
    ScannedFlow(c, p, n', s');
    var stack1 := WithLast(p.stack, f');
    Schedules(c.t0[x], n', s');
    assert stack1[0].nodeIndex == p.stack[0].nodeIndex && Last(stack1) == f';
    assert stack1[..|stack1| - 1] == p.stack[..|p.stack| - 1];
    FlowPop(c.t0, c.top, p.t[x := n'], stack1, p.visited);
  }

  lemma PassFinish(c: Context, p: Pass, n': NodeState, s': NodeSchedule, action: NodeAction) returns (p': Pass)
    requires PassOk(c, p) && p.additional == 0 && Finished(p, n', s', action)
    requires var x := Last(p.stack).nodeIndex;
             x in c.t0 && Scheduling(c.t0[x], n', s') && p.t[x].budget <= p.t[x].remainingWeight
    ensures PassOk(c, p')
    ensures p' == p.(t := p.t[Last(p.stack).nodeIndex := n'], vt := p'.vt, stack := p.stack[..|p.stack| - 1],
                     additional := Last(p.stack).surplus)
    ensures p'.stack != [] ==> Last(p'.stack).nodeSchedule.Some? && Last(p'.stack).nodeSchedule.value.pendingCount >= 1
  {
    var x := Last(p.stack).nodeIndex;
    PassLast(c, p);
    var t' := p.t[x := n'];
    var vt' := p.vt[x := n'.(budget := p.vt[x].budget)];
    FinishedTree(c, p, n', s', action, t');
    FinishedBudget(c, p, n', s', action, t', vt');
    FinishedStack(c, p, n', s', action, t', vt');
    FinishedFlow(c, p, n', s', action);
    p' := p.(t := t', vt := vt', stack := p.stack[..|p.stack| - 1], additional := Last(p.stack).surplus);
  }

  /** The pending count of the last frame may be corrected when a child was completed. */
  lemma PassRecount(c: Context, p: Pass, pendingCount: nat, p': Pass)
    requires PassOk(c, p) && p.stack != [] && Last(p.stack).nodeSchedule.Some?
    requires var s := Last(p.stack).nodeSchedule.value;
             p' == p.(stack := WithLast(p.stack,
                                        Last(p.stack).(nodeSchedule := Some(s.(pendingCount := pendingCount)))))
    ensures PassOk(c, p')
  {
    var s' := Last(p.stack).nodeSchedule.value.(pendingCount := pendingCount);
    RecountedStack(c, p, s');
    RecountedFlow(c, p, Last(p'.stack));
    BegunBudget(c, p, Last(p'.stack));
  }

  lemma RecountedFlow(c: Context, p: Pass, f: Frame)
    requires StackPart(p.t, p.stack) && FlowPart(c, p.t, p.stack, p.additional, p.visited)
    requires p.stack != [] && Last(p.stack).nodeSchedule.Some? && f.nodeSchedule.Some?
    requires f == Last(p.stack).(nodeSchedule := f.nodeSchedule)
    requires f.nodeSchedule.value
             == Last(p.stack).nodeSchedule.value.(pendingCount := f.nodeSchedule.value.pendingCount)
    ensures FlowPart(c, p.t, WithLast(p.stack, f), p.additional, p.visited)
  {
    assert Look(Part.PassStack) && Look(Part.PassFlow);
    assert LastFlow(c.t0, c.top, p.t, f, p.additional);
    FlowLast(c.t0, c.top, p.t, p.t, p.stack, f, p.additional, p.additional, p.visited);
  }

  lemma RecountedStack(c: Context, p: Pass, s': NodeSchedule)
    requires StackPart(p.t, p.stack) && ExploredPart(c, p.t, p.stack, p.visited)
    requires p.stack != [] && Last(p.stack).nodeSchedule.Some?
    requires s' == Last(p.stack).nodeSchedule.value.(pendingCount := s'.pendingCount)
    ensures var stack' := WithLast(p.stack, Last(p.stack).(nodeSchedule := Some(s')));
            StackPart(p.t, stack') && ExploredPart(c, p.t, stack', p.visited)
  {
    assert Look(Part.PassStack) && Look(Part.PassVisits);
    assert FrameAt(p.t, p.stack[|p.stack| - 1]);
    ScanStep(c.t0, p.t, p.t, p.stack, p.visited, s');
  }
}
