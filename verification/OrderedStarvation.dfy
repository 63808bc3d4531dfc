/** With a limit, expired budget can leave the stream without a way to go on: for every limit of at least two, and
    every queue bound of at least two, a run, from its start, that ends in a poll that never ends although the limit
    leaves room for another item. */
module OrderedStarvation {
  import opened Common
  import opened OrderedTree
  import opened OrderedFlow
  import opened OrderedQuiet
  import opened OrderedRelease
  import opened OrderedCursor
  import opened OrderedMachine
  import opened OrderedStream

  // ---------------------------------------------------------------- what is traversed

  /** The first root unfolds into the values `xs`, an input for `a`, and `c`; the second into `d`.  The weight of the
      first is estimated at one. */
  function LastInput(a: Out): Input {
    Input([OrderedTraversal.Output(a)])
  }

  function Items(xs: seq<Out>): (items: seq<OrderedTraversal>)
    ensures |items| == |xs|
  {
    seq(|xs|, i requires 0 <= i < |xs| => OrderedTraversal.Output(xs[i]))
  }

  function FirstInput(xs: seq<Out>, a: Out, c: Out): Input {
    Input(Items(xs) + [OrderedTraversal.Recurse(1, LastInput(a)), OrderedTraversal.Output(c)])
  }

  function SecondInput(d: Out): Input {
    Input([OrderedTraversal.Output(d)])
  }

  lemma AllValues(xs: seq<Out>, a: Out, c: Out, d: Out)
    ensures Flatten(Roots([(1, FirstInput(xs, a, c)), (1, SecondInput(d))])) == xs + [a, c, d]
  {
    var items := Roots([(1, FirstInput(xs, a, c)), (1, SecondInput(d))]);
    var last := [OrderedTraversal.Recurse(1, LastInput(a)), OrderedTraversal.Output(c)];
    FlattenTwo(items);
    FlattenItems(xs, last);
    FlattenTwo(last);
    FlattenOne(LastInput(a).items);
    FlattenOne(SecondInput(d).items);
    assert (xs + [a, c]) + [d] == xs + [a, c, d];
  }

  lemma FlattenOne(items: seq<OrderedTraversal>)
    requires |items| == 1
    ensures Flatten(items) == FlattenItem(items[0])
  {
    assert items[1..] == [];
  }

  lemma FlattenTwo(items: seq<OrderedTraversal>)
    requires |items| == 2
    ensures Flatten(items) == FlattenItem(items[0]) + FlattenItem(items[1])
  {
    FlattenOne(items[1..]);
  }

  lemma {:induction false} FlattenItems(xs: seq<Out>, rest: seq<OrderedTraversal>)
    ensures Flatten(Items(xs) + rest) == xs + Flatten(rest)
  {
    if xs == [] {
      assert Items(xs) + rest == rest;
    } else {
      assert (Items(xs) + rest)[1..] == Items(xs[1..]) + rest;
      FlattenItems(xs[1..], rest);
      assert xs == [xs[0]] + xs[1..];
    }
  }

  // ---------------------------------------------------------------- nodes with yielded children

  /** The first `k` children are yielded. */
  ghost predicate SpentUpTo(cs: seq<Child>, k: nat) {
    k <= |cs| && forall i :: 0 <= i < k ==> cs[i].Yielded?
  }

  lemma {:induction false} SpentWeighsNothing(cs: seq<Child>, k: nat)
    requires SpentUpTo(cs, k)
    ensures TotalWeight(cs[..k]) == 0
  {
    if k > 0 {
      SpentWeighsNothing(cs, k - 1);
      WeightStep(cs, k - 1);
    }
  }

  /** All other children weigh one. */
  lemma {:induction false} UnitWeights(cs: seq<Child>, i: nat)
    requires SpentUpTo(cs, i) && forall j :: i <= j < |cs| ==> cs[j].Weight() == 1
    ensures TotalWeight(cs) == |cs| - i
  {
    assert cs[..|cs|] == cs;
    if |cs| == i {
      SpentWeighsNothing(cs, i);
    } else {
      UnitWeights(cs[..|cs| - 1], i);
      WeightStep(cs, |cs| - 1);
    }
  }

  lemma {:induction false} SpentSkipped(cs: seq<Child>, next: nat, k: nat)
    requires SpentUpTo(cs, k) && next <= k
    ensures SkipYielded(cs, next, k) == k
  {
    if next < k {
      SpentSkipped(cs, next, k - 1);
    }
  }

  lemma OneChild(n: NodeState)
    requires |n.children| == 1
    ensures TotalWeight(n.children) == n.children[0].Weight()
    ensures Take(n, 0) == Min(n.children[0].Weight(), n.budget)
    ensures ScheduledChildren(n, 1) == [ScheduledChild(n, 0)]
    ensures Granted(n, 1) == if n.children[0].Node? then Take(n, 0) else 0
    ensures SkipYielded(n.children, 0, 1) == if n.children[0].Yielded? then 1 else 0
    ensures FirstLeft(n.children, 0) == if n.children[0].Yielded? then 1 else 0
  {
    WeightStep(n.children, 0);
    assert n.children[..1] == n.children;
    assert Granted(n, 0) == 0;
    FirstLeftUnique(n.children, 0, if n.children[0].Yielded? then 1 else 0);
  }

  /** A node whose first `k` children are yielded, and which has two others. */
  lemma TwoChildren(n: NodeState, k: nat)
    requires |n.children| == k + 2 && SpentUpTo(n.children, k)
    ensures TotalWeight(n.children) == n.children[k].Weight() + n.children[k + 1].Weight()
    ensures Take(n, k) == Min(n.children[k].Weight(), n.budget)
    ensures Take(n, k + 1) == Min(n.children[k + 1].Weight(), SaturatingSub(n.budget, n.children[k].Weight()))
    ensures ScheduledChildren(n, k + 2) == n.children[..k] + [ScheduledChild(n, k), ScheduledChild(n, k + 1)]
    ensures Granted(n, k + 2) == (if n.children[k].Node? then Take(n, k) else 0)
                                 + (if n.children[k + 1].Node? then Take(n, k + 1) else 0)
  {
    SpentWeighsNothing(n.children, k);
    WeightStep(n.children, k);
    WeightStep(n.children, k + 1);
    assert n.children[..k + 2] == n.children;
    GrantedNothing(n, 0, k);
    assert Granted(n, k + 1) == if n.children[k].Node? then Take(n, k) else 0;
  }

  lemma TwoSkipped(cs: seq<Child>, next: nat, k: nat)
    requires |cs| == k + 2 && SpentUpTo(cs, k) && next <= k
    ensures SkipYielded(cs, next, k + 2)
         == if !cs[k].Yielded? then k else if !cs[k + 1].Yielded? then k + 1 else k + 2
  {
    SpentSkipped(cs, next, k);
    assert SkipYielded(cs, next, k + 1) == if cs[k].Yielded? then k + 1 else k;
  }

  /** What a pass makes of a node with one child, of which `below` units come back. */
  lemma PassOne(t: Tree, top: nat, x: nat, arrival: nat, below: nat)
    requires x in t && |t[x].children| == 1 && t[x].scheduleNextIndex == 0
    requires arrival == Arrival(t, x) && below == PassedBy(t, top, x, t[x].children[0])
    ensures var n := t[x];
            var taken := if n.children[0].Node? then Min(n.children[0].Weight(), n.budget) else 0;
            && PassNode(t, top, x) == n.(children := [ScheduledChild(n, 0)],
                 remainingWeight := SaturatingSub(n.remainingWeight, taken),
                 budget := SaturatingSub(Min(n.budget + arrival + below, n.remainingWeight), taken),
                 scheduleNextIndex := if n.children[0].Yielded? then 1 else 0)
            && Take(n, 0) == Min(n.children[0].Weight(), n.budget)
            && Surplus(t, top, x) == SaturatingSub(n.budget + arrival + below, n.remainingWeight)
  {
    OneChild(t[x]);
    assert Gathered(t, top, x, 0) == t[x].budget + Arrival(t, x);
  }

  /** What a pass makes of a node with two children after `k` yielded ones, of which `below` units come back. */
  lemma PassTwo(t: Tree, top: nat, x: nat, k: nat, arrival: nat, below: nat)
    requires x in t && |t[x].children| == k + 2 && SpentUpTo(t[x].children, k) && t[x].scheduleNextIndex <= k
    requires arrival == Arrival(t, x)
    requires below == PassedBy(t, top, x, t[x].children[k]) + PassedBy(t, top, x, t[x].children[k + 1])
    ensures var n := t[x];
            var taken := (if n.children[k].Node? then Take(n, k) else 0)
              + (if n.children[k + 1].Node? then Take(n, k + 1) else 0);
            && PassNode(t, top, x) == n.(
                 children := n.children[..k] + [ScheduledChild(n, k), ScheduledChild(n, k + 1)],
                 remainingWeight := SaturatingSub(n.remainingWeight, taken),
                 budget := SaturatingSub(Min(n.budget + arrival + below, n.remainingWeight), taken),
                 scheduleNextIndex := if !n.children[k].Yielded? then k
                                      else if !n.children[k + 1].Yielded? then k + 1 else k + 2)
            && Take(n, k) == Min(n.children[k].Weight(), n.budget)
            && Take(n, k + 1) == Min(n.children[k + 1].Weight(), SaturatingSub(n.budget, n.children[k].Weight()))
            && Surplus(t, top, x) == SaturatingSub(n.budget + arrival + below, n.remainingWeight)
  {
    TwoChildren(t[x], k);
    TwoSkipped(t[x].children, t[x].scheduleNextIndex, k);
    GatheredNothing(t, top, x, 0, k);
    assert Gathered(t, top, x, 0) == t[x].budget + Arrival(t, x);
    assert Gathered(t, top, x, k + 1) == t[x].budget + Arrival(t, x) + PassedBy(t, top, x, t[x].children[k]);
  }

  /** A node without budget and without nodes below only receives what arrives. */
  lemma PassPoor(t: Tree, top: nat, x: nat)
    requires x in t && t[x].budget == 0 && t[x].scheduleNextIndex == 0
    requires t[x].children != [] && !t[x].children[0].Yielded?
    requires forall c :: 0 <= c < |t[x].children| ==> !t[x].children[c].Node?
    ensures PassNode(t, top, x) == t[x].(budget := Min(Arrival(t, x), t[x].remainingWeight))
    ensures Surplus(t, top, x) == SaturatingSub(Arrival(t, x), t[x].remainingWeight)
  {
    var n := t[x];
    var k := |n.children|;
    GrantedNothing(n, 0, k);
    GatheredNothing(t, top, x, 0, k);
    assert ScheduledChildren(n, k) == n.children;
    NothingSkipped(n.children, k);
  }

  lemma {:induction false} NothingSkipped(cs: seq<Child>, k: nat)
    requires k <= |cs| && (k > 0 ==> !cs[0].Yielded?)
    ensures SkipYielded(cs, 0, k) == 0
  {
    if k > 0 {
      NothingSkipped(cs, k - 1);
    }
  }

  // ---------------------------------------------------------------- the nodes of the run

  ghost const ROOT_0 := Some(NodeLocation(0, 0))
  ghost const ROOT_1 := Some(NodeLocation(0, 1))

  ghost function Root(first: Child, second: Child, weight: nat): NodeState {
    NodeState(None, [first, second], weight, weight, 0, 0)
  }

  ghost function Spent(k: nat): (cs: seq<Child>)
    ensures |cs| == k && forall i :: 0 <= i < k ==> cs[i].Yielded?
  {
    seq(k, i requires 0 <= i < k => Yielded)
  }

  ghost function Values(xs: seq<Out>): (cs: seq<Child>)
    ensures |cs| == |xs| && forall i :: 0 <= i < |xs| ==> cs[i] == Child.Output(xs[i])
  {
    seq(|xs|, i requires 0 <= i < |xs| => Child.Output(xs[i]))
  }

  /** The node of the first root, of whose values the first `i` were emitted. */
  ghost function ValueNode(xs: seq<Out>, a: Out, c: Out, i: nat, budget: nat): NodeState
    requires i <= |xs|
  {
    NodeState(ROOT_0, Spent(i) + Values(xs[i..]) + [Unscheduled(1, LastInput(a)), Child.Output(c)], |xs| - i + 2,
              budget, 0, 0)
  }

  /** The same node when all of them were emitted. */
  ghost function FirstNode(k: nat, c: Out, child: Child, weight: nat, budget: nat, next: nat): NodeState {
    NodeState(ROOT_0, Spent(k) + [child, Child.Output(c)], weight, budget, 0, next)
  }

  ghost function SecondNode(d: Out, budget: nat): NodeState {
    NodeState(ROOT_1, [Child.Output(d)], 1, budget, 0, 0)
  }

  ghost function LastNode(k: nat, child: Child, weight: nat, budget: nat): NodeState {
    NodeState(Some(NodeLocation(2, k)), [child], weight, budget, 0, 0)
  }

  lemma ValueNodeChildren(xs: seq<Out>, a: Out, c: Out, i: nat, budget: nat)
    requires i <= |xs|
    ensures var cs := ValueNode(xs, a, c, i, budget).children;
            && |cs| == |xs| + 2 && SpentUpTo(cs, i) && TotalWeight(cs) == |xs| - i + 2 && !cs[i].Yielded?
            && (i < |xs| ==> cs[i] == Child.Output(xs[i]))
            && forall j :: 0 <= j < |cs| ==> !cs[j].Node? && !cs[j].Pending?
  {
    UnitWeights(ValueNode(xs, a, c, i, budget).children, i);
  }

  lemma ValueNodeAtEnd(xs: seq<Out>, a: Out, c: Out, budget: nat)
    ensures ValueNode(xs, a, c, |xs|, budget) == FirstNode(|xs|, c, Unscheduled(1, LastInput(a)), 2, budget, 0)
  {
    assert Values(xs[|xs|..]) == [];
    assert Spent(|xs|) + [] == Spent(|xs|);
  }

  /** Emitting the next value. */
  lemma ValueNodeNext(xs: seq<Out>, a: Out, c: Out, i: nat)
    requires i < |xs|
    ensures i < |ValueNode(xs, a, c, i, 1).children|
    ensures SetChild(ValueNode(xs, a, c, i, 1), i, Yielded) == ValueNode(xs, a, c, i + 1, 1)
  {
    ValueNodeChildren(xs, a, c, i, 1);
    ValueNodeChildren(xs, a, c, i + 1, 1);
    assert ValueNode(xs, a, c, i, 1).children[i := Yielded] == ValueNode(xs, a, c, i + 1, 1).children;
  }

  // ---------------------------------------------------------------- the situations of the run

  /** The cursor is at child `c` of node `i`, and `limit` items may still come. */
  ghost function Running(tree: Tree, top: nat, i: nat, c: nat, limit: nat): Situation {
    Situation(tree, top, Some(NodeLocation(i, c)), Some(limit), 2)
  }

  /** Both roots wait to be unfolded, with a unit of budget for each. */
  ghost function Start(xs: seq<Out>, a: Out, c: Out, d: Out): Tree {
    map[0 := Root(Unscheduled(1, FirstInput(xs, a, c)), Unscheduled(1, SecondInput(d)), 2)]
  }

  ghost function BothStarted(): Tree {
    map[0 := Root(Pending(1), Pending(1), 2)]
  }

  ghost function SecondUnfolded(d: Out): Tree {
    map[0 := Root(Pending(1), Child.Node(1, 1), 2), 1 := SecondNode(d, 0)]
  }

  /** The node of `d` has a unit of budget. */
  ghost function SecondFunded(d: Out): Tree {
    map[0 := Root(Pending(1), Child.Node(0, 1), 1), 1 := SecondNode(d, 1)]
  }

  /** The first root was unfolded: its slot weighs one, although it needs more. */
  ghost function FirstUnfolded(xs: seq<Out>, a: Out, c: Out, d: Out): Tree {
    map[0 := Root(Child.Node(1, 2), Child.Node(0, 1), 1), 1 := SecondNode(d, 1), 2 := ValueNode(xs, a, c, 0, 0)]
  }

  ghost function Below(d: Out, first: NodeState): Tree {
    map[0 := Root(Child.Node(0, 2), Child.Node(0, 1), 0), 1 := SecondNode(d, 1), 2 := first]
  }

  /** It has a unit of budget, and the first `i` values were emitted. */
  ghost function FirstFunded(xs: seq<Out>, a: Out, c: Out, d: Out, i: nat): Tree
    requires i <= |xs|
  {
    Below(d, ValueNode(xs, a, c, i, 1))
  }

  ghost function LastStarted(k: nat, c: Out, d: Out): Tree {
    Below(d, FirstNode(k, c, Pending(1), 2, 1, k))
  }

  ghost function LastUnfolded(k: nat, a: Out, c: Out, d: Out): Tree {
    Below(d, FirstNode(k, c, Child.Node(1, 3), 2, 1, k))[3 := LastNode(k, Child.Output(a), 1, 0)]
  }

  /** The unit of budget is with `a`; nothing is left for `c`. */
  ghost function LastFunded(k: nat, a: Out, c: Out, d: Out): Tree {
    Below(d, FirstNode(k, c, Child.Node(0, 3), 1, 0, k))[3 := LastNode(k, Child.Output(a), 1, 1)]
  }

  /** When `a` is emitted its unit expires. */
  ghost function LastEmitted(k: nat, c: Out, d: Out): Tree {
    Below(d, FirstNode(k, c, Child.Node(0, 3), 1, 0, k))[3 := LastNode(k, Yielded, 0, 0)]
  }

  ghost function Starved(k: nat, c: Out, d: Out): Tree {
    Below(d, FirstNode(k, c, Yielded, 1, 0, k))
  }

  /** Nothing is left to do but to skip another child of node 2. */
  ghost function StarvedSkipped(k: nat, c: Out, d: Out): Tree {
    Below(d, FirstNode(k, c, Yielded, 1, 0, k + 1))
  }

  // ---------------------------------------------------------------- scheduling

  /** What a pass makes of the root, to which `below` units come back. */
  lemma PassRoot(t: Tree, top: nat, first: Child, second: Child, weight: nat, below: nat)
    requires 0 in t && t[0] == Root(first, second, weight)
    requires below == PassedBy(t, top, 0, first) + PassedBy(t, top, 0, second)
    requires weight == first.Weight() + second.Weight() && !first.Yielded?
    ensures var taken := (if first.Node? then first.Weight() else 0) + (if second.Node? then second.Weight() else 0);
            && PassNode(t, top, 0)
               == NodeState(None, [ScheduledChild(t[0], 0), ScheduledChild(t[0], 1)], weight - taken, weight - taken, 0,
                            0)
            && Take(t[0], 0) == first.Weight() && Take(t[0], 1) == second.Weight()
            && Surplus(t, top, 0) == below
  {
    PassTwo(t, top, 0, 0, 0, below);
    assert t[0].children[..0] == [];
  }

  /** What a pass makes of the node of the first root, when its values were emitted. */
  lemma PassFirst(t: Tree, top: nat, k: nat, c: Out, child: Child, weight: nat, budget: nat, next: nat, below: nat)
    requires 2 in t && t[2] == FirstNode(k, c, child, weight, budget, next) && next <= k
    requires Arrival(t, 2) == 0 && below == PassedBy(t, top, 2, child)
    ensures var taken := if child.Node? then Min(child.Weight(), budget) else 0;
            && PassNode(t, top, 2)
               == FirstNode(k, c, ScheduledChild(t[2], k), SaturatingSub(weight, taken),
                            SaturatingSub(Min(budget + below, weight), taken), if child.Yielded? then k + 1 else k)
            && Take(t[2], k) == Min(child.Weight(), budget)
            && Surplus(t, top, 2) == SaturatingSub(budget + below, weight)
  {
    assert t[2].children[k] == child && t[2].children[k + 1] == Child.Output(c);
    PassTwo(t, top, 2, k, 0, below);
    assert t[2].children[..k] == Spent(k);
  }

  lemma PassSecond(t: Tree, top: nat, d: Out, budget: nat, arrival: nat)
    requires 1 in t && t[1] == SecondNode(d, budget) && arrival == Arrival(t, 1) && budget + arrival <= 1
    ensures PassNode(t, top, 1) == SecondNode(d, budget + arrival) && Surplus(t, top, 1) == 0
  {
    PassOne(t, top, 1, arrival, 0);
  }

  lemma PassStart(xs: seq<Out>, a: Out, c: Out, d: Out)
    ensures PassTree(Start(xs, a, c, d), 0) == BothStarted() && Surplus(Start(xs, a, c, d), 0, 0) == 0
  {
    PassRoot(Start(xs, a, c, d), 0, Unscheduled(1, FirstInput(xs, a, c)), Unscheduled(1, SecondInput(d)), 2, 0);
  }

  lemma PassSecondUnfolded(d: Out)
    ensures PassTree(SecondUnfolded(d), 1) == SecondFunded(d) && Surplus(SecondUnfolded(d), 1, 0) == 0
  {
    var t := SecondUnfolded(d);
    SecondArrives(t, d);
    PassSecond(t, 1, d, 0, 1);
    PassStartedRoot(t);
    PassIs(t, 1, SecondFunded(d));
  }

  lemma PassIs(t: Tree, top: nat, t': Tree)
    requires t'.Keys == t.Keys && forall x :: x in t ==> PassNode(t, top, x) == t'[x]
    ensures PassTree(t, top) == t'
  {
  }

  lemma SecondArrives(t: Tree, d: Out)
    requires 0 in t && t[0] == Root(Pending(1), Child.Node(1, 1), 2) && 1 in t && t[1] == SecondNode(d, 0)
    ensures Arrival(t, 1) == 1
  {
    TwoChildren(t[0], 0);
  }

  lemma PassStartedRoot(t: Tree)
    requires 0 in t && t[0] == Root(Pending(1), Child.Node(1, 1), 2) && 1 in t && Surplus(t, 1, 1) == 0
    ensures PassNode(t, 1, 0) == Root(Pending(1), Child.Node(0, 1), 1) && Surplus(t, 1, 0) == 0
  {
    PassRoot(t, 1, Pending(1), Child.Node(1, 1), 2, 0);
    assert ScheduledChild(t[0], 0) == Pending(1) && ScheduledChild(t[0], 1) == Child.Node(0, 1);
  }

  /** The node of the first root gets its unit of budget. */
  lemma PassValues(t: Tree, top: nat, xs: seq<Out>, a: Out, c: Out)
    requires 2 in t && t[2] == ValueNode(xs, a, c, 0, 0) && Arrival(t, 2) == 1
    ensures PassNode(t, top, 2) == ValueNode(xs, a, c, 0, 1) && Surplus(t, top, 2) == 0
  {
    ValueNodeChildren(xs, a, c, 0, 0);
    PassPoor(t, top, 2);
  }

  lemma PassFirstUnfolded(xs: seq<Out>, a: Out, c: Out, d: Out)
    ensures PassTree(FirstUnfolded(xs, a, c, d), 2) == FirstFunded(xs, a, c, d, 0)
    ensures Surplus(FirstUnfolded(xs, a, c, d), 2, 0) == 0
  {
    var t := FirstUnfolded(xs, a, c, d);
    FirstArrives(t);
    PassValues(t, 2, xs, a, c);
    PassSecond(t, 2, d, 1, 0);
    PassUnfoldedRoot(t);
    PassThree(t, 2, FirstFunded(xs, a, c, d, 0));
  }

  lemma FirstArrives(t: Tree)
    requires 0 in t && t[0] == Root(Child.Node(1, 2), Child.Node(0, 1), 1)
    requires 1 in t && t[1].parent == ROOT_1 && 2 in t && t[2].parent == ROOT_0
    ensures Arrival(t, 1) == 0 && Arrival(t, 2) == 1
  {
    TwoChildren(t[0], 0);
  }

  lemma PassUnfoldedRoot(t: Tree)
    requires 0 in t && t[0] == Root(Child.Node(1, 2), Child.Node(0, 1), 1)
    requires 1 in t && Surplus(t, 2, 1) == 0 && 2 in t && Surplus(t, 2, 2) == 0
    ensures PassNode(t, 2, 0) == Root(Child.Node(0, 2), Child.Node(0, 1), 0) && Surplus(t, 2, 0) == 0
  {
    PassRoot(t, 2, Child.Node(1, 2), Child.Node(0, 1), 1, 0);
    assert ScheduledChild(t[0], 0) == Child.Node(0, 2) && ScheduledChild(t[0], 1) == Child.Node(0, 1);
  }

  /** What a pass makes of the roots when all their budget is below. */
  lemma PassBelow(t: Tree, top: nat, d: Out, first: NodeState)
    requires t.Keys >= Below(d, first).Keys && top >= 2 && first.parent == ROOT_0
    requires t[0] == Below(d, first)[0] && t[1] == Below(d, first)[1] && t[2] == first
    requires Surplus(t, top, 2) == 0
    ensures PassNode(t, top, 0) == t[0] && PassNode(t, top, 1) == t[1] && Surplus(t, top, 0) == 0
  {
    TwoChildren(t[0], 0);
    PassSecond(t, top, d, 1, 0);
    PassRoot(t, top, Child.Node(0, 2), Child.Node(0, 1), 0, 0);
  }

  lemma NothingArrives(t: Tree, d: Out, first: NodeState)
    requires t.Keys >= Below(d, first).Keys && first.parent == ROOT_0
    requires t[0] == Below(d, first)[0] && t[2] == first
    ensures Arrival(t, 2) == 0
  {
    TwoChildren(t[0], 0);
  }

  lemma PassLast(xs: seq<Out>, a: Out, c: Out, d: Out)
    ensures PassTree(FirstFunded(xs, a, c, d, |xs|), 2) == LastStarted(|xs|, c, d)
    ensures Surplus(FirstFunded(xs, a, c, d, |xs|), 2, 0) == 0
  {
    var t, k := FirstFunded(xs, a, c, d, |xs|), |xs|;
    ValueNodeAtEnd(xs, a, c, 1);
    NothingArrives(t, d, t[2]);
    PassFirst(t, 2, k, c, Unscheduled(1, LastInput(a)), 2, 1, 0, 0);
    PassBelow(t, 2, d, t[2]);
    PassThree(t, 2, LastStarted(k, c, d));
  }

  lemma PassLastUnfolded(k: nat, a: Out, c: Out, d: Out)
    ensures PassTree(LastUnfolded(k, a, c, d), 3) == LastFunded(k, a, c, d)
    ensures Surplus(LastUnfolded(k, a, c, d), 3, 0) == 0
  {
    var t := LastUnfolded(k, a, c, d);
    NothingArrives(t, d, t[2]);
    PassLastNode(t, k, a, c);
    PassFunding(t, k, c);
    PassBelow(t, 3, d, t[2]);
    PassFour(t, LastFunded(k, a, c, d));
  }

  lemma PassThree(t: Tree, top: nat, t': Tree)
    requires t.Keys == t'.Keys == {0, 1, 2}
    requires PassNode(t, top, 0) == t'[0] && PassNode(t, top, 1) == t'[1] && PassNode(t, top, 2) == t'[2]
    ensures PassTree(t, top) == t'
  {
  }

  lemma PassFour(t: Tree, t': Tree)
    requires t.Keys == t'.Keys == {0, 1, 2, 3}
    requires PassNode(t, 3, 0) == t'[0] && PassNode(t, 3, 1) == t'[1]
    requires PassNode(t, 3, 2) == t'[2] && PassNode(t, 3, 3) == t'[3]
    ensures PassTree(t, 3) == t'
  {
  }

  lemma PassFunding(t: Tree, k: nat, c: Out)
    requires 2 in t && t[2] == FirstNode(k, c, Child.Node(1, 3), 2, 1, k) && Arrival(t, 2) == 0
    requires 3 in t && Surplus(t, 3, 3) == 0
    ensures PassNode(t, 3, 2) == FirstNode(k, c, Child.Node(0, 3), 1, 0, k) && Surplus(t, 3, 2) == 0
  {
    PassFirst(t, 3, k, c, Child.Node(1, 3), 2, 1, k, 0);
    assert ScheduledChild(t[2], k) == Child.Node(0, 3);
  }

  /** The node of `a` gets the unit of budget. */
  lemma PassLastNode(t: Tree, k: nat, a: Out, c: Out)
    requires 2 in t && t[2] == FirstNode(k, c, Child.Node(1, 3), 2, 1, k)
    requires 3 in t && t[3] == LastNode(k, Child.Output(a), 1, 0)
    ensures PassNode(t, 3, 3) == LastNode(k, Child.Output(a), 1, 1) && Surplus(t, 3, 3) == 0
  {
    TwoChildren(t[2], k);
    assert Arrival(t, 3) == 1;
    PassOne(t, 3, 3, 1, 0);
  }

  lemma PassSkipping(t: Tree, k: nat, c: Out)
    requires 2 in t && t[2] == FirstNode(k, c, Yielded, 1, 0, k) && Arrival(t, 2) == 0
    ensures PassNode(t, 3, 2) == FirstNode(k, c, Yielded, 1, 0, k + 1) && Surplus(t, 3, 2) == 0
  {
    PassFirst(t, 3, k, c, Yielded, 1, 0, k, 0);
  }

  lemma PassStarved(k: nat, c: Out, d: Out)
    ensures PassTree(Starved(k, c, d), 3) == StarvedSkipped(k, c, d) && Surplus(Starved(k, c, d), 3, 0) == 0
  {
    var t := Starved(k, c, d);
    NothingArrives(t, d, t[2]);
    PassSkipping(t, k, c);
    PassBelow(t, 3, d, t[2]);
    PassThree(t, 3, StarvedSkipped(k, c, d));
  }

  lemma StarvedQuiet(k: nat, c: Out, d: Out)
    ensures AllQuiet(StarvedSkipped(k, c, d))
  {
    var t := StarvedSkipped(k, c, d);
    forall i | i in t ensures Quiet(t[i]) {
    }
  }

  // ---------------------------------------------------------------- completed unfolds

  lemma Starts(xs: seq<Out>, a: Out, c: Out, d: Out, queuedMax: nat, limit: nat)
    requires queuedMax >= 2 && limit >= 2
    ensures InitialSituation(queuedMax, Some(limit), Roots([(1, FirstInput(xs, a, c)), (1, SecondInput(d))]))
            == Running(Start(xs, a, c, d), 0, 0, 0, limit)
  {
    var items := Roots([(1, FirstInput(xs, a, c)), (1, SecondInput(d))]);
    assert FreshChildrenOf(items) == Start(xs, a, c, d)[0].children;
    TwoChildren(Start(xs, a, c, d)[0], 0);
  }

  lemma UnfoldSecond(d: Out, limit: nat)
    ensures UnfoldStep(Running(BothStarted(), 0, 0, 0, limit), NodeLocation(0, 1), SecondInput(d).items)
         == Running(SecondUnfolded(d), 1, 0, 0, limit)
  {
    var n := SecondUnfolded(d)[0];
    assert FreshChildrenOf(SecondInput(d).items) == SecondUnfolded(d)[1].children;
    OneChild(SecondUnfolded(d)[1]);
    assert BothStarted()[0].children[1 := Child.Node(1, 1)] == n.children;
    TwoChildren(n, 0);
  }

  lemma UnfoldFirst(xs: seq<Out>, a: Out, c: Out, d: Out, limit: nat)
    ensures UnfoldStep(Running(SecondFunded(d), 1, 0, 0, limit), NodeLocation(0, 0), FirstInput(xs, a, c).items)
         == Running(FirstUnfolded(xs, a, c, d), 2, 0, 0, limit)
  {
    var t := FirstUnfolded(xs, a, c, d);
    ValueNodeChildren(xs, a, c, 0, 0);
    assert FreshChildrenOf(FirstInput(xs, a, c).items) == t[2].children;
    assert SecondFunded(d)[0].children[0 := Child.Node(1, 2)] == t[0].children;
    TwoChildren(t[0], 0);
  }

  lemma UnfoldLast(k: nat, a: Out, c: Out, d: Out, limit: nat)
    ensures UnfoldStep(Running(LastStarted(k, c, d), 2, 2, k, limit), NodeLocation(2, k), LastInput(a).items)
         == Running(LastUnfolded(k, a, c, d), 3, 2, k, limit)
  {
    var n := LastUnfolded(k, a, c, d)[2];
    assert FreshChildrenOf(LastInput(a).items) == LastUnfolded(k, a, c, d)[3].children;
    OneChild(LastUnfolded(k, a, c, d)[3]);
    assert LastStarted(k, c, d)[2].children[k := Child.Node(1, 3)] == n.children;
    TwoChildren(n, k);
  }

  // ---------------------------------------------------------------- the turns of the run

  lemma FirstTurn(xs: seq<Out>, a: Out, c: Out, d: Out, limit: nat)
    ensures AdvanceStep(Running(Start(xs, a, c, d), 0, 0, 0, limit))
            == (Running(BothStarted(), 0, 0, 0, limit), NotReady)
    ensures YieldStep(Running(Start(xs, a, c, d), 0, 0, 0, limit)).0.tree == Start(xs, a, c, d)
  {
    WaitsHere(Start(xs, a, c, d), 0, NodeLocation(0, 0));
    PassStart(xs, a, c, d);
    WaitsHere(BothStarted(), 0, NodeLocation(0, 0));
  }

  lemma SecondTurn(d: Out, limit: nat)
    ensures AdvanceStep(Running(SecondUnfolded(d), 1, 0, 0, limit))
            == (Running(SecondFunded(d), 1, 0, 0, limit), NotReady)
    ensures YieldStep(Running(SecondUnfolded(d), 1, 0, 0, limit)).0.tree == SecondUnfolded(d)
  {
    WaitsHere(SecondUnfolded(d), 1, NodeLocation(0, 0));
    PassSecondUnfolded(d);
    WaitsHere(SecondFunded(d), 1, NodeLocation(0, 0));
  }

  /** The node of the first root gets its unit of budget, and the first value can be emitted. */
  lemma ThirdTurn(xs: seq<Out>, a: Out, c: Out, d: Out, limit: nat)
    ensures AdvanceStep(Running(FirstUnfolded(xs, a, c, d), 2, 0, 0, limit))
         == YieldStep(Running(FirstFunded(xs, a, c, d, 0), 2, 2, 0, limit))
  {
    var t := FirstUnfolded(xs, a, c, d);
    FirstLeftUnique(t[0].children, 0, 0);
    assert Walk(t, 2, 0, 0) == Walk(t, 2, 2, 0);
    ValueNodeChildren(xs, a, c, 0, 0);
    ValueNodeAtEnd(xs, a, c, 0);
    WaitsHere(t, 2, NodeLocation(2, 0));
    PassFirstUnfolded(xs, a, c, d);
  }

  /** Value `i` is emitted; no budget expires, and none is released. */
  lemma ValueTurn(xs: seq<Out>, a: Out, c: Out, d: Out, i: nat, limit: nat)
    requires i < |xs| && limit >= 3
    ensures YieldStep(Running(FirstFunded(xs, a, c, d, i), 2, 2, i, limit))
         == (Running(FirstFunded(xs, a, c, d, i + 1), 2, 2, i + 1, limit - 1), Produced(Some(xs[i])))
  {
    var t, t' := FirstFunded(xs, a, c, d, i), FirstFunded(xs, a, c, d, i + 1);
    ValueNodeChildren(xs, a, c, i, 1);
    ValueNodeNext(xs, a, c, i);
    FirstLeftUnique(t[2].children, i, i);
    assert t[2 := SetChild(t[2], i, Yielded)] == t';
    assert Walk(t, 2, 2, i) == Emits(t', NodeLocation(2, i), xs[i]);
    NothingReleased(d, t'[2]);
  }

  /** A node that needs all its budget releases none. */
  lemma NothingReleased(d: Out, n: NodeState)
    requires n.parent == ROOT_0 && n.expired == 0 && n.budget <= n.remainingWeight
    ensures ExpiredSurplus(n) == 0 && Release(Below(d, n), 2) == (Below(d, n), 0)
  {
    var t := Below(d, n);
    TwoChildren(t[0], 0);
    assert t[0].children[0 := Child.Node(0, 2)] == t[0].children;
    assert t[2 := n] == t;
    assert LiftTree(t, 2, 0) == t;
    assert ReleaseUp(t, 0, 0) == (t, 0);
  }

  lemma LastValueTurn(xs: seq<Out>, a: Out, c: Out, d: Out, limit: nat)
    ensures YieldStep(Running(FirstFunded(xs, a, c, d, |xs|), 2, 2, |xs|, limit))
         == (Running(FirstFunded(xs, a, c, d, |xs|), 2, 2, |xs|, limit), NotReady)
    ensures AdvanceStep(Running(FirstFunded(xs, a, c, d, |xs|), 2, 2, |xs|, limit))
         == (Running(LastStarted(|xs|, c, d), 2, 2, |xs|, limit), NotReady)
  {
    ValueNodeAtEnd(xs, a, c, 1);
    WaitsHere(FirstFunded(xs, a, c, d, |xs|), 2, NodeLocation(2, |xs|));
    PassLast(xs, a, c, d);
    WaitsHere(LastStarted(|xs|, c, d), 2, NodeLocation(2, |xs|));
  }

  /** After `a` was emitted one item may still come, and one unit of budget is left. */
  ghost function AfterLast(k: nat, c: Out, d: Out): Situation {
    Situation(LastEmitted(k, c, d), 3, Some(NodeLocation(3, 1)), Some(1), 1)
  }

  lemma ExpireLast(k: nat, a: Out, c: Out, d: Out)
    ensures var t := LastFunded(k, a, c, d);
            Emitted(Running(t, 3, 3, 0, 2), t[3 := SetChild(t[3], 0, Yielded)], NodeLocation(3, 0))
              == AfterLast(k, c, d)
  {
    var t := LastFunded(k, a, c, d);
    var t1 := t[3 := LastNode(k, Yielded, 0, 1)];
    assert t[3].children[0 := Yielded] == [Yielded];
    OneChild(t1[3]);
    assert t[3 := SetChild(t[3], 0, Yielded)] == t1;
    var t2 := t1[3 := t1[3].(expired := 1)];
    assert Expire(t1, 3, Some(1), 2) == t2 && ExpiredSurplus(t2[3]) == 1;
    assert t2[3 := t2[3].(budget := 0, expired := 0)] == LastEmitted(k, c, d);
    ReleaseLast(k, c, d);
  }

  lemma ReleaseLast(k: nat, c: Out, d: Out)
    ensures ReleaseUp(LastEmitted(k, c, d), 3, 0) == (LastEmitted(k, c, d), 0)
  {
    var t := LastEmitted(k, c, d);
    TwoChildren(t[0], 0);
    TwoChildren(t[2], k);
    assert t[2].children[k := Child.Node(0, 3)] == t[2].children;
    assert t[0].children[0 := Child.Node(0, 2)] == t[0].children;
    assert LiftTree(t, 3, 0) == t;
    assert LiftTree(t, 2, 0) == t;
    assert ReleaseUp(t, 0, 0) == (t, 0);
    assert ReleaseUp(t, 2, 0) == (t, 0);
  }

  lemma FourthTurn(k: nat, a: Out, c: Out, d: Out)
    ensures AdvanceStep(Running(LastUnfolded(k, a, c, d), 3, 2, k, 2)) == (AfterLast(k, c, d), Produced(Some(a)))
  {
    var t, t' := LastUnfolded(k, a, c, d), LastFunded(k, a, c, d);
    FirstLeftUnique(t[2].children, k, k);
    assert Walk(t, 3, 2, k) == Walk(t, 3, 3, 0);
    WaitsHere(t, 3, NodeLocation(3, 0));
    PassLastUnfolded(k, a, c, d);
    FirstLeftUnique(t'[3].children, 0, 0);
    assert Walk(t', 3, 3, 0) == Emits(t'[3 := SetChild(t'[3], 0, Yielded)], NodeLocation(3, 0), a);
    ExpireLast(k, a, c, d);
  }

  /** The cursor leaves the node of `a`, comes to `c`, and there everything stands still. */
  lemma LastTurn(k: nat, c: Out, d: Out)
    ensures AdvanceStep(AfterLast(k, c, d))
         == (Situation(StarvedSkipped(k, c, d), 3, Some(NodeLocation(2, k + 1)), Some(1), 1), NotReady)
    ensures StandsStill(AdvanceStep(AfterLast(k, c, d)).0)
  {
    var t' := Starved(k, c, d);
    LeavesLast(k, c, d);
    PassStarved(k, c, d);
    WaitsHere(StarvedSkipped(k, c, d), 3, NodeLocation(2, k + 1));
    StarvedQuiet(k, c, d);
  }

  lemma LeavesLast(k: nat, c: Out, d: Out)
    ensures Walk(LastEmitted(k, c, d), 3, 3, 1) == Waits(Starved(k, c, d), NodeLocation(2, k + 1))
  {
    var t, t' := LastEmitted(k, c, d), Starved(k, c, d);
    OneChild(t[3]);
    FirstLeftUnique(t[3].children, 1, 1);
    assert t[2].children[k := Yielded] == t'[2].children;
    TwoChildren(t'[2], k);
    assert CompletedTree(t, 3) == t';
    assert Walk(t, 3, 3, 1) == Walk(t', 3, 2, k);
    FirstLeftUnique(t'[2].children, k, k + 1);
  }

  // ---------------------------------------------------------------- pending children

  lemma {:induction false} NonePending(cs: seq<Child>)
    requires forall k :: 0 <= k < |cs| ==> !cs[k].Pending?
    ensures CountPending(cs) == 0
  {
    if cs != [] {
      NonePending(cs[..|cs| - 1]);
    }
  }

  lemma PendingAfter(cs: seq<Child>, k: nat)
    requires |cs| == k + 2 && forall i :: 0 <= i < k ==> !cs[i].Pending?
    ensures CountPending(cs) == (if cs[k].Pending? then 1 else 0) + (if cs[k + 1].Pending? then 1 else 0)
  {
    NonePending(cs[..k]);
    CountStep(cs, k);
    CountStep(cs, k + 1);
    assert cs[..k + 2] == cs;
  }

  lemma BothPending()
    ensures PendingTotal(BothStarted(), 0) == 2
    ensures forall loc :: PendingAt(BothStarted(), loc) ==> loc == NodeLocation(0, 0) || loc == NodeLocation(0, 1)
  {
    PendingAfter(BothStarted()[0].children, 0);
    assert Sum(PendingCounts(BothStarted()), 0) == 0;
  }

  lemma FirstPending(d: Out)
    ensures PendingTotal(SecondFunded(d), 1) == 1
  {
    var t := SecondFunded(d);
    PendingAfter(t[0].children, 0);
    NonePending(t[1].children);
    assert Sum(PendingCounts(t), 1) == Sum(PendingCounts(t), 0) + 1;
  }

  /** In the tree under the roots only children of node 2 can be pending. */
  lemma PendingBelow(d: Out, n: NodeState)
    ensures PendingTotal(Below(d, n), 2) == CountPending(n.children)
    ensures PendingTotal(Below(d, n), 3) == CountPending(n.children)
    ensures forall loc :: PendingAt(Below(d, n), loc) ==> loc.nodeIndex == 2
  {
    var t := Below(d, n);
    NonePending(t[0].children);
    NonePending(t[1].children);
    assert Sum(PendingCounts(t), 4) == Sum(PendingCounts(t), 3) == Sum(PendingCounts(t), 2) + CountPending(n.children);
    assert Sum(PendingCounts(t), 2) == Sum(PendingCounts(t), 1) == 0;
  }

  /** A stream in situation `s` advances to `s'` with nothing to emit, and starts unfolds of inputs in `t`. */
  ghost predicate TurnsTo(s: Situation, s': Situation, t: Tree) {
    && (forall r, y {:trigger Advances(s, r, y)} :: Advances(s, r, y) ==> r == s' && y == NotReady)
    && (forall jobs {:trigger StartedFrom(s, jobs)} :: StartedFrom(s, jobs) ==> JobsFrom(t, jobs))
  }

  lemma Turns(s: Situation, s': Situation, t: Tree)
    requires AdvanceStep(s) == (s', NotReady) && YieldStep(s).0.tree == t
    ensures TurnsTo(s, s', t)
  {
    assert Look(Part.Machine);
  }

  /** One turn in which nothing is emitted: it leaves `count` unfolds running, and none queued. */
  method Turn(stream: BoundedTraversalOrderedStream, ghost s: Situation, ghost s': Situation, ghost t: Tree,
              ghost count: nat)
    requires stream.Valid() && stream.scheduledMax >= 2 && stream.Now() == s
    requires TurnsTo(s, s', t) && s'.location.Some? && PendingTotal(s'.tree, s'.top) == count <= 2
    modifies stream, stream.executionTree.Values
    ensures stream.Valid() && stream.emitted == old(stream.emitted)
    ensures stream.executionTree.Values <= old(stream.executionTree.Values)
    ensures stream.Now() == s' && old(stream.Jobs()) <= stream.Jobs() == stream.scheduled && |stream.scheduled| == count
    ensures JobsFrom(t, stream.scheduled)
    ensures forall a :: 0 <= a < count ==> PendingAt(s'.tree, stream.scheduled[a].location)
    ensures forall a, b :: 0 <= a < b < count ==> stream.scheduled[a].location != stream.scheduled[b].location
  {
    var y := stream.Advance();
    assert stream.Now() == s';
    stream.JobsPending();
  }

  /** Running unfold `k` completes. */
  method Complete(stream: BoundedTraversalOrderedStream, k: nat, ghost s: Situation, ghost s': Situation)
    requires stream.Valid() && stream.Now() == s && s.location.Some?
    requires k < |stream.scheduled| && stream.scheduled == stream.Jobs()
    requires UnfoldStep(s, stream.scheduled[k].location, stream.scheduled[k].input.items) == s'
    modifies stream, stream.executionTree.Values
    ensures stream.Valid() && stream.emitted == old(stream.emitted) && stream.NewNodes()
    ensures stream.Now() == s' && stream.Jobs() == old(stream.scheduled[..k] + stream.scheduled[k + 1..])
  {
    stream.CompleteNext(k);
    assert Look(Part.Machine);
  }

  /** Both roots are started, and the second is unfolded. */
  method RunFirst(stream: BoundedTraversalOrderedStream, xs: seq<Out>, a: Out, c: Out, d: Out, limit: nat)
    requires stream.Valid() && stream.scheduledMax >= 2
    requires stream.Now() == Running(Start(xs, a, c, d), 0, 0, 0, limit) && stream.Jobs() == []
    modifies stream, stream.executionTree.Values
    ensures stream.Valid() && stream.emitted == old(stream.emitted) && stream.NewNodes()
    ensures stream.Now() == Running(SecondUnfolded(d), 1, 0, 0, limit)
    ensures stream.Jobs() == [Job(NodeLocation(0, 0), FirstInput(xs, a, c))]
  {
    ghost var t := Start(xs, a, c, d);
    ghost var s, s' := Running(t, 0, 0, 0, limit), Running(BothStarted(), 0, 0, 0, limit);
    FirstTurn(xs, a, c, d, limit);
    Turns(s, s', t);
    BothPending();
    Turn(stream, s, s', t, 2);
    var k := if stream.scheduled[0].location == NodeLocation(0, 1) then 0 else 1;
    BothJobs(xs, a, c, d, stream.scheduled, k);
    UnfoldSecond(d, limit);
    Complete(stream, k, s', Running(SecondUnfolded(d), 1, 0, 0, limit));
  }

  lemma BothJobs(xs: seq<Out>, a: Out, c: Out, d: Out, jobs: seq<Job>, k: nat)
    requires |jobs| == 2 && jobs[0].location != jobs[1].location && JobsFrom(Start(xs, a, c, d), jobs)
    requires forall k :: 0 <= k < 2 ==> PendingAt(BothStarted(), jobs[k].location)
    requires k == if jobs[0].location == NodeLocation(0, 1) then 0 else 1
    ensures jobs[k] == Job(NodeLocation(0, 1), SecondInput(d))
    ensures jobs[..k] + jobs[k + 1..] == [Job(NodeLocation(0, 0), FirstInput(xs, a, c))]
  {
    BothPending();
    assert jobs[0].location.nodeIndex == 0 && jobs[1].location.nodeIndex == 0;
  }

  /** Its node gets a unit of budget, and the first root is unfolded. */
  method RunSecond(stream: BoundedTraversalOrderedStream, xs: seq<Out>, a: Out, c: Out, d: Out, limit: nat)
    requires stream.Valid() && stream.scheduledMax >= 2
    requires stream.Now() == Running(SecondUnfolded(d), 1, 0, 0, limit)
    requires stream.Jobs() == [Job(NodeLocation(0, 0), FirstInput(xs, a, c))]
    modifies stream, stream.executionTree.Values
    ensures stream.Valid() && stream.emitted == old(stream.emitted) && stream.NewNodes()
    ensures stream.Now() == Running(FirstUnfolded(xs, a, c, d), 2, 0, 0, limit)
  {
    ghost var s, s' := Running(SecondUnfolded(d), 1, 0, 0, limit), Running(SecondFunded(d), 1, 0, 0, limit);
    SecondTurn(d, limit);
    Turns(s, s', SecondUnfolded(d));
    FirstPending(d);
    Turn(stream, s, s', SecondUnfolded(d), 1);
    UnfoldFirst(xs, a, c, d, limit);
    Complete(stream, 0, s', Running(FirstUnfolded(xs, a, c, d), 2, 0, 0, limit));
  }

  /** The first `i` values were emitted. */
  ghost function Emitting(xs: seq<Out>, a: Out, c: Out, d: Out, i: nat): Situation
    requires i <= |xs|
  {
    Running(FirstFunded(xs, a, c, d, i), 2, 2, i, |xs| - i + 2)
  }

  /** A stream in situation `s` emits value `i` next. */
  ghost predicate EmitsNext(s: Situation, xs: seq<Out>, a: Out, c: Out, d: Out, i: nat)
    requires i < |xs|
  {
    forall r, y {:trigger Advances(s, r, y)} :: Advances(s, r, y) ==>
      r == Emitting(xs, a, c, d, i + 1) && y == Produced(Some(xs[i]))
  }

  lemma NextValue(xs: seq<Out>, a: Out, c: Out, d: Out, i: nat)
    requires i < |xs|
    ensures EmitsNext(Emitting(xs, a, c, d, i), xs, a, c, d, i)
    ensures i == 0 ==> EmitsNext(Running(FirstUnfolded(xs, a, c, d), 2, 0, 0, |xs| + 2), xs, a, c, d, 0)
  {
    ValueTurn(xs, a, c, d, i, |xs| - i + 2);
    ThirdTurn(xs, a, c, d, |xs| + 2);
    assert Look(Part.Machine);
  }

  lemma NoValue(xs: seq<Out>, a: Out, c: Out, d: Out)
    requires xs == []
    ensures var s := Running(FirstUnfolded(xs, a, c, d), 2, 0, 0, |xs| + 2);
            TurnsTo(s, Emitting(xs, a, c, d, 0), YieldStep(s).0.tree)
  {
    var s := Running(FirstUnfolded(xs, a, c, d), 2, 0, 0, |xs| + 2);
    NoValueTurn(xs, a, c, d);
    Turns(s, Emitting(xs, a, c, d, 0), YieldStep(s).0.tree);
  }

  lemma NoValueTurn(xs: seq<Out>, a: Out, c: Out, d: Out)
    requires xs == []
    ensures AdvanceStep(Running(FirstUnfolded(xs, a, c, d), 2, 0, 0, |xs| + 2)) == (Emitting(xs, a, c, d, 0), NotReady)
  {
    ThirdTurn(xs, a, c, d, |xs| + 2);
    NothingToEmit(xs, a, c, d, 0);
  }

  /** When all values were emitted, the next item waits. */
  lemma NothingToEmit(xs: seq<Out>, a: Out, c: Out, d: Out, i: nat)
    requires i == |xs|
    ensures YieldStep(Emitting(xs, a, c, d, i)) == (Emitting(xs, a, c, d, i), NotReady)
  {
    LastValueTurn(xs, a, c, d, 2);
  }

  /** Value `i` is emitted. */
  method RunValue(stream: BoundedTraversalOrderedStream, xs: seq<Out>, a: Out, c: Out, d: Out, i: nat)
    requires stream.Valid() && i < |xs| && EmitsNext(stream.Now(), xs, a, c, d, i)
    modifies stream, stream.executionTree.Values
    ensures stream.Valid() && stream.emitted == old(stream.emitted) + [xs[i]]
    ensures stream.executionTree.Values <= old(stream.executionTree.Values)
    ensures stream.Now() == Emitting(xs, a, c, d, i + 1)
  {
    var y := stream.Advance();
  }

  /** The node of the first root gets its unit of budget, and its first value, if any, is emitted. */
  method RunFirstValue(stream: BoundedTraversalOrderedStream, xs: seq<Out>, a: Out, c: Out, d: Out)
    requires stream.Valid() && stream.Now() == Running(FirstUnfolded(xs, a, c, d), 2, 0, 0, |xs| + 2)
    modifies stream, stream.executionTree.Values
    ensures stream.Valid() && stream.emitted == old(stream.emitted) + xs[..Min(1, |xs|)]
    ensures stream.executionTree.Values <= old(stream.executionTree.Values)
    ensures stream.Now() == Emitting(xs, a, c, d, Min(1, |xs|))
  {
    if xs == [] {
      NoValue(xs, a, c, d);
      var y := stream.Advance();
    } else {
      NextValue(xs, a, c, d, 0);
      RunValue(stream, xs, a, c, d, 0);
      PrefixNext(xs, 0);
    }
  }

  lemma PrefixNext(xs: seq<Out>, i: nat)
    requires i < |xs|
    ensures xs[..i + 1] == xs[..i] + [xs[i]]
    ensures i == 0 ==> xs[..1] == [xs[0]]
  {
  }

  /** All values are emitted. */
  method RunValues(stream: BoundedTraversalOrderedStream, xs: seq<Out>, a: Out, c: Out, d: Out)
    requires stream.Valid() && stream.emitted == []
    requires stream.Now() == Running(FirstUnfolded(xs, a, c, d), 2, 0, 0, |xs| + 2)
    modifies stream, stream.executionTree.Values
    ensures stream.Valid() && stream.emitted == xs
    ensures stream.executionTree.Values <= old(stream.executionTree.Values)
    ensures stream.Now() == Emitting(xs, a, c, d, |xs|)
  {
    RunFirstValue(stream, xs, a, c, d);
    for i := Min(1, |xs|) to |xs|
      invariant stream.Valid() && stream.emitted == xs[..i]
      invariant stream.executionTree.Values <= old(stream.executionTree.Values)
      invariant stream.Now() == Emitting(xs, a, c, d, i)
    {
      NextValue(xs, a, c, d, i);
      RunValue(stream, xs, a, c, d, i);
      PrefixNext(xs, i);
    }
    assert xs[..|xs|] == xs;
  }

  /** The unit of budget is spent on the input for `a`, which is unfolded. */
  method RunThird(stream: BoundedTraversalOrderedStream, xs: seq<Out>, a: Out, c: Out, d: Out)
    requires stream.Valid() && stream.scheduledMax >= 2
    requires stream.Now() == Emitting(xs, a, c, d, |xs|)
    modifies stream, stream.executionTree.Values
    ensures stream.Valid() && stream.emitted == old(stream.emitted) && stream.NewNodes()
    ensures stream.Now() == Running(LastUnfolded(|xs|, a, c, d), 3, 2, |xs|, 2)
  {
    ghost var k := |xs|;
    ghost var s' := Running(LastStarted(k, c, d), 2, 2, k, 2);
    StartsLast(xs, a, c, d);
    Turn(stream, Emitting(xs, a, c, d, k), s', FirstFunded(xs, a, c, d, k), 1);
    LastJob(xs, a, c, d, stream.scheduled[0]);
    UnfoldLast(k, a, c, d, 2);
    Complete(stream, 0, s', Running(LastUnfolded(k, a, c, d), 3, 2, k, 2));
  }

  lemma StartsLast(xs: seq<Out>, a: Out, c: Out, d: Out)
    ensures TurnsTo(Emitting(xs, a, c, d, |xs|), Running(LastStarted(|xs|, c, d), 2, 2, |xs|, 2),
                    FirstFunded(xs, a, c, d, |xs|))
    ensures PendingTotal(LastStarted(|xs|, c, d), 2) == 1
  {
    LastValueTurn(xs, a, c, d, 2);
    Turns(Emitting(xs, a, c, d, |xs|), Running(LastStarted(|xs|, c, d), 2, 2, |xs|, 2), FirstFunded(xs, a, c, d, |xs|));
    LastPending(|xs|, c, d);
  }

  lemma LastPending(k: nat, c: Out, d: Out)
    ensures PendingTotal(LastStarted(k, c, d), 2) == 1
    ensures forall loc :: PendingAt(LastStarted(k, c, d), loc) ==> loc == NodeLocation(2, k)
  {
    var n := FirstNode(k, c, Pending(1), 2, 1, k);
    PendingBelow(d, n);
    PendingAfter(n.children, k);
  }

  lemma LastJob(xs: seq<Out>, a: Out, c: Out, d: Out, job: Job)
    requires JobsFrom(FirstFunded(xs, a, c, d, |xs|), [job]) && PendingAt(LastStarted(|xs|, c, d), job.location)
    ensures job == Job(NodeLocation(2, |xs|), LastInput(a))
  {
    LastPending(|xs|, c, d);
    ValueNodeAtEnd(xs, a, c, 1);
    assert [job][0] == job;
  }

  /** `a` is emitted, and then nothing more. */
  method RunLast(stream: BoundedTraversalOrderedStream, k: nat, a: Out, c: Out, d: Out) returns (r: Poll)
    requires stream.Valid() && stream.Now() == Running(LastUnfolded(k, a, c, d), 3, 2, k, 2)
    modifies stream, stream.executionTree.Values
    ensures stream.Valid() && stream.emitted == old(stream.emitted) + [a] && r == Diverges
  {
    FourthTurn(k, a, c, d);
    var y := stream.Advance();
    assert Look(Part.Machine);
    LastTurn(k, c, d);
    StarvedPending(k, c, d);
    y := stream.Advance();
    stream.StalledStands();
    r := stream.PollNext();
  }

  lemma StarvedPending(k: nat, c: Out, d: Out)
    ensures PendingTotal(StarvedSkipped(k, c, d), 3) == 0
  {
    var n := FirstNode(k, c, Yielded, 1, 0, k + 1);
    PendingBelow(d, n);
    PendingAfter(n.children, k);
  }

  /** Whenever the limit and the queue bound are at least two, and more than one unfold may run, a stream can get to
      where its next poll never ends.  This one is over the values `xs`, `a`, `c` and `d`, of which the limit lets
      all but the last two come, and another one; it emits `xs` and `a`.  The second root is unfolded before the
      first. */
  method StarvingRun(scheduledMax: nat, queuedMax: nat, xs: seq<Out>, a: Out, c: Out, d: Out)
    returns (stream: BoundedTraversalOrderedStream, r: Poll)
    requires scheduledMax >= 2 && queuedMax >= 2
    ensures stream.Valid() && stream.all == xs + [a, c, d] && stream.outputLimit == Some(|xs| + 2)
    ensures stream.scheduledMax == scheduledMax && stream.queuedMax == queuedMax
    ensures stream.emitted == xs + [a] && r == Diverges
  {
    stream := new BoundedTraversalOrderedStream(scheduledMax, queuedMax, Some(|xs| + 2),
                                                [(1, FirstInput(xs, a, c)), (1, SecondInput(d))]);
    AllValues(xs, a, c, d);
    Starts(xs, a, c, d, queuedMax, |xs| + 2);
    RunFirst(stream, xs, a, c, d, |xs| + 2);
    RunSecond(stream, xs, a, c, d, |xs| + 2);
    RunValues(stream, xs, a, c, d);
    RunThird(stream, xs, a, c, d);
    r := RunLast(stream, |xs|, a, c, d);
  }
}
