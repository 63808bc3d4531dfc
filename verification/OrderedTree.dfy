/** The execution tree of the ordered traversal as a value, and what keeps it consistent. */
module OrderedTree {
  import opened Common

  type Out(!new)

  /** One element of an unfolded node: a value to emit, or a subtree with its estimated weight. */
  datatype OrderedTraversal = Output(out: Out) | Recurse(weight: nat, input: Input)

  /** An input stands for everything it unfolds into. */
  datatype Input = Input(items: seq<OrderedTraversal>)

  /** The in-order list of all values below `item`. */
  ghost function FlattenItem(item: OrderedTraversal): seq<Out> {
    if item.Output? then [item.out] else Flatten(item.input.items)
  }

  ghost function Flatten(items: seq<OrderedTraversal>): seq<Out> {
    if items == [] then [] else FlattenItem(items[0]) + Flatten(items[1..])
  }

  /** The number of unfold calls needed to expand everything below `item`. */
  ghost function ItemSize(item: OrderedTraversal): nat {
    if item.Output? then 0 else 1 + Size(item.input.items)
  }

  ghost function Size(items: seq<OrderedTraversal>): nat {
    if items == [] then 0 else ItemSize(items[0]) + Size(items[1..])
  }

  type Location = NodeLocation<nat>

  /** A child of an execution tree node. */
  datatype Child =
    | Unscheduled(weight: nat, input: Input)
    | Pending(weight: nat)
    | Output(out: Out)
    | Node(weight: nat, nodeIndex: nat)
    | Yielded
  {
    /** The budget that this child consumes within its node. */
    function Weight(): nat {
      match this
      case Unscheduled(w, _) => w
      case Pending(w) => w
      case Node(w, _) => w
      case Output(_) => 1
      case Yielded => 0
    }
  }

  /** The contents of one node. */
  datatype NodeState = NodeState(
    parent: Option<Location>,
    children: seq<Child>,
    remainingWeight: nat,
    budget: nat,
    expired: nat,
    scheduleNextIndex: nat)

  type Tree = map<nat, NodeState>

  /** A future that is unfolding the child at `location`. */
  datatype Job = Job(location: Location, input: Input)

  // ---------------------------------------------------------------- weights

  function AddWeights(cs: seq<Child>): nat {
    if cs == [] then 0 else AddWeights(cs[..|cs| - 1]) + cs[|cs| - 1].Weight()
  }

  function TotalWeight(cs: seq<Child>): nat {
    AddWeights(cs)
  }

  lemma WeightStep(cs: seq<Child>, c: nat)
    requires c < |cs|
    ensures TotalWeight(cs[..c + 1]) == TotalWeight(cs[..c]) + cs[c].Weight()
  {
    assert cs[..c + 1][..c] == cs[..c];
  }

  lemma {:induction false} WeightMonotone(cs: seq<Child>, a: nat, b: nat)
    requires a <= b <= |cs|
    ensures TotalWeight(cs[..a]) <= TotalWeight(cs[..b])
  {
    if a < b {
      WeightMonotone(cs, a, b - 1);
      WeightStep(cs, b - 1);
    }
  }

  /** Children `a` to `c` inclusive fit in any prefix that ends after `c`. */
  lemma WeightFits(cs: seq<Child>, c: nat)
    requires c < |cs|
    ensures TotalWeight(cs[..c]) + cs[c].Weight() == TotalWeight(cs[..c + 1]) <= TotalWeight(cs)
  {
    WeightStep(cs, c);
    WeightMonotone(cs, c + 1, |cs|);
    assert cs[..|cs|] == cs;
  }

  /** Replacing one child changes the weight of every longer prefix by the difference. */
  lemma {:induction false} WeightUpdate(cs: seq<Child>, c: nat, ch: Child, k: nat)
    requires c < |cs| && k <= |cs|
    ensures TotalWeight(cs[c := ch][..k]) + (if c < k then cs[c].Weight() else 0)
         == TotalWeight(cs[..k]) + (if c < k then ch.Weight() else 0)
  {
    var cs' := cs[c := ch];
    if k > 0 {
      WeightUpdate(cs, c, ch, k - 1);
      WeightStep(cs, k - 1);
      WeightStep(cs', k - 1);
    }
  }

  lemma WeightReplaced(cs: seq<Child>, c: nat, ch: Child)
    requires c < |cs|
    ensures TotalWeight(cs[c := ch]) + cs[c].Weight() == TotalWeight(cs) + ch.Weight()
    ensures cs[c].Weight() <= TotalWeight(cs)
  {
    WeightUpdate(cs, c, ch, |cs|);
    WeightFits(cs, c);
    assert cs[c := ch][..|cs|] == cs[c := ch];
    assert cs[..|cs|] == cs;
  }

  lemma {:induction false} YieldedWeighsNothing(cs: seq<Child>, k: nat)
    requires k <= |cs|
    requires forall c :: 0 <= c < k ==> cs[c].Yielded?
    ensures TotalWeight(cs[..k]) == 0
  {
    if k > 0 {
      YieldedWeighsNothing(cs, k - 1);
      WeightStep(cs, k - 1);
    }
  }

  // ---------------------------------------------------------------- counting

  ghost function CountPending(cs: seq<Child>): nat {
    if cs == [] then 0 else CountPending(cs[..|cs| - 1]) + (if cs[|cs| - 1].Pending? then 1 else 0)
  }

  lemma CountStep(cs: seq<Child>, c: nat)
    requires c < |cs|
    ensures CountPending(cs[..c + 1]) == CountPending(cs[..c]) + (if cs[c].Pending? then 1 else 0)
  {
    assert cs[..c + 1][..c] == cs[..c];
  }

  lemma {:induction false} CountUpdate(cs: seq<Child>, c: nat, ch: Child, k: nat)
    requires c < |cs| && k <= |cs|
    ensures CountPending(cs[c := ch][..k]) + (if c < k && cs[c].Pending? then 1 else 0)
         == CountPending(cs[..k]) + (if c < k && ch.Pending? then 1 else 0)
  {
    var cs' := cs[c := ch];
    if k > 0 {
      CountUpdate(cs, c, ch, k - 1);
      CountStep(cs, k - 1);
      CountStep(cs', k - 1);
    }
  }

  lemma {:induction false} CountPositive(cs: seq<Child>, c: nat, k: nat)
    requires c < k <= |cs|
    requires cs[c].Pending?
    ensures CountPending(cs[..k]) >= 1
  {
    CountStep(cs, k - 1);
    if c < k - 1 {
      CountPositive(cs, c, k - 1);
    }
  }

  /** What is left to unfold below a node whose children stand for `items`. */
  ghost function NodeWork(cs: seq<Child>, items: seq<OrderedTraversal>): nat
    requires |cs| == |items|
  {
    if cs == [] then 0
    else
      var k := |cs| - 1;
      NodeWork(cs[..k], items[..k]) + (if cs[k].Unscheduled? || cs[k].Pending? then ItemSize(items[k]) else 0)
  }

  lemma WorkStep(cs: seq<Child>, items: seq<OrderedTraversal>, c: nat)
    requires c < |cs| == |items|
    ensures NodeWork(cs[..c + 1], items[..c + 1])
         == NodeWork(cs[..c], items[..c]) + (if cs[c].Unscheduled? || cs[c].Pending? then ItemSize(items[c]) else 0)
  {
    assert cs[..c + 1][..c] == cs[..c];
    assert items[..c + 1][..c] == items[..c];
  }

  lemma {:induction false} WorkUpdate(cs: seq<Child>, items: seq<OrderedTraversal>, c: nat, ch: Child, k: nat)
    requires c < |cs| == |items| && k <= |cs|
    ensures NodeWork(cs[c := ch][..k], items[..k])
            + (if c < k && (cs[c].Unscheduled? || cs[c].Pending?) then ItemSize(items[c]) else 0)
         == NodeWork(cs[..k], items[..k])
            + (if c < k && (ch.Unscheduled? || ch.Pending?) then ItemSize(items[c]) else 0)
  {
    var cs' := cs[c := ch];
    if k > 0 {
      WorkUpdate(cs, items, c, ch, k - 1);
      WorkStep(cs, items, k - 1);
      WorkStep(cs', items, k - 1);
    }
  }

  // ---------------------------------------------------------------- one node

  /** The budget of the node reaches child `c`: the children before it do not use all of it up. */
  predicate Reached(n: NodeState, c: nat)
    requires c < |n.children|
  {
    TotalWeight(n.children[..c]) < n.budget
  }

  /** Pending children are always reached by the budget of their node. */
  ghost predicate PendingFunded(n: NodeState) {
    forall c {:trigger Reached(n, c)} :: 0 <= c < |n.children| && n.children[c].Pending? ==> Reached(n, c)
  }

  /** What holds of every node by itself. */
  ghost predicate LocalOk(n: NodeState) {
    && n.remainingWeight == TotalWeight(n.children)
    && n.scheduleNextIndex <= |n.children|
    && (forall c :: 0 <= c < n.scheduleNextIndex ==> n.children[c].Yielded?)
    && (forall c :: 0 <= c < |n.children| && (n.children[c].Unscheduled? || n.children[c].Pending?) ==>
          n.children[c].weight >= 1)
    && PendingFunded(n)
  }

  ghost predicate AllLocalOk(t: Tree) {
    forall i {:trigger LocalOk(t[i])} :: i in t ==> LocalOk(t[i])
  }

  /** A node never has more unfolds outstanding than it has budget. */
  lemma {:induction false} PendingWithinBudget(n: NodeState, k: nat)
    requires LocalOk(n) && k <= |n.children|
    ensures CountPending(n.children[..k]) <= TotalWeight(n.children[..k])
    ensures CountPending(n.children[..k]) <= n.budget
  {
    if k > 0 {
      PendingWithinBudget(n, k - 1);
      assert n.children[k - 1].Pending? ==> Reached(n, k - 1);
      CountStep(n.children, k - 1);
      WeightStep(n.children, k - 1);
    }
  }

  /** Node `n` with child `c` replaced. */
  ghost function SetChild(n: NodeState, c: nat, ch: Child): NodeState
    requires c < |n.children|
  {
    var children := n.children[c := ch];
    n.(children := children, remainingWeight := TotalWeight(children))
  }

  /** Replacing a child by a lighter one that is not newly pending keeps a node consistent, even
      when the budget falls by as much as the weight of a child that is not followed by budgeted work. */
  lemma SetLighterChild(n: NodeState, c: nat, ch: Child)
    requires LocalOk(n) && c < |n.children|
    requires ch.Weight() <= n.children[c].Weight()
    requires ch.Pending? || ch.Unscheduled? ==> ch.weight >= 1
    requires ch.Pending? ==> Reached(n, c)
    requires c < n.scheduleNextIndex ==> ch.Yielded?
    ensures LocalOk(SetChild(n, c, ch))
    ensures SetChild(n, c, ch).remainingWeight + n.children[c].Weight() == n.remainingWeight + ch.Weight()
  {
    WeightReplaced(n.children, c, ch);
    var n' := SetChild(n, c, ch);
    forall k | 0 <= k < |n'.children| && n'.children[k].Pending?
      ensures Reached(n', k)
    {
      assert n.children[k].Pending? ==> Reached(n, k);
      WeightUpdate(n.children, c, ch, k);
    }
  }

  /** A budget that is at least the old one, or at least the weight, keeps pending children funded. */
  lemma BudgetChange(n: NodeState, budget: nat, expired: nat)
    requires LocalOk(n)
    requires budget >= Min(n.budget, n.remainingWeight)
    ensures LocalOk(n.(budget := budget, expired := expired))
  {
    var n' := n.(budget := budget, expired := expired);
    forall k | 0 <= k < |n.children| && n.children[k].Pending? ensures Reached(n', k) {
      assert Reached(n, k);
      WeightFits(n.children, k);
    }
  }

  // ---------------------------------------------------------------- links

  ghost predicate HasChild(t: Tree, loc: Location) {
    loc.nodeIndex in t && loc.childIndex < |t[loc.nodeIndex].children|
  }

  ghost function ChildAt(t: Tree, loc: Location): Child
    requires HasChild(t, loc)
  {
    t[loc.nodeIndex].children[loc.childIndex]
  }

  /** Node `i` is where its parent says it is, and its parent was allocated before it. */
  ghost predicate ParentLinked(t: Tree, i: nat)
    requires i in t
  {
    && t[i].parent.Some?
    && var p := t[i].parent.value;
      p.nodeIndex < i && HasChild(t, p) && ChildAt(t, p).Node? && ChildAt(t, p).nodeIndex == i
  }

  ghost predicate ChildLinked(t: Tree, i: nat, c: nat)
    requires i in t && c < |t[i].children| && t[i].children[c].Node?
  {
    var j := t[i].children[c].nodeIndex;
    j in t && i < j && t[j].parent == Some(NodeLocation(i, c))
  }

  /** The nodes form a tree rooted at 0, with indices no larger than `top`. */
  ghost predicate Linked(t: Tree, top: nat) {
    && 0 in t && t[0].parent.None?
    && (forall i :: i in t ==> i <= top)
    && (forall i {:trigger ParentLinked(t, i)} :: i in t && i != 0 ==> ParentLinked(t, i))
    && (forall i, c {:trigger ChildLinked(t, i, c)} ::
         i in t && 0 <= c < |t[i].children| && t[i].children[c].Node? ==> ChildLinked(t, i, c))
  }

  ghost predicate SameKind(a: Child, b: Child) {
    a == b || (a.Node? && b.Node? && a.nodeIndex == b.nodeIndex)
  }

  /** `t` and `t'` differ at most in budgets and in the weights of child nodes. */
  ghost predicate SameShape(t: Tree, t': Tree) {
    && t.Keys == t'.Keys
    && (forall i :: i in t ==> t[i].parent == t'[i].parent && |t[i].children| == |t'[i].children|)
    && (forall i, c :: i in t && 0 <= c < |t[i].children| ==> SameKind(t[i].children[c], t'[i].children[c]))
  }

  // ---------------------------------------------------------------- sums over the tree

  ghost function Budgets(t: Tree): map<nat, nat> {
    map i | i in t :: t[i].budget
  }

  ghost function Weights(t: Tree): map<nat, nat> {
    map i | i in t :: t[i].remainingWeight
  }

  ghost function PendingCounts(t: Tree): map<nat, nat> {
    map i | i in t :: CountPending(t[i].children)
  }

  ghost function BudgetTotal(t: Tree, top: nat): nat {
    Sum(Budgets(t), top + 1)
  }

  ghost function WeightTotal(t: Tree, top: nat): nat {
    Sum(Weights(t), top + 1)
  }

  ghost function PendingTotal(t: Tree, top: nat): nat {
    Sum(PendingCounts(t), top + 1)
  }

  // ---------------------------------------------------------------- outstanding work

  ghost predicate PendingAt(t: Tree, loc: Location) {
    HasChild(t, loc) && ChildAt(t, loc).Pending?
  }

  /** The outstanding unfolds are exactly the pending children: each job belongs to one, no two
      jobs share one, and there are as many jobs as pending children. */
  ghost predicate JobsOk(t: Tree, top: nat, jobs: seq<Job>, pending: map<Location, Input>) {
    && (forall loc :: loc in pending <==> PendingAt(t, loc))
    && (forall a :: 0 <= a < |jobs| ==> jobs[a].location in pending && pending[jobs[a].location] == jobs[a].input)
    && (forall a, b :: 0 <= a < b < |jobs| ==> jobs[a].location != jobs[b].location)
    && |jobs| == PendingTotal(t, top)
  }

  // ---------------------------------------------------------------- what is left to emit

  /** What a node stands for: the items it was unfolded from, how many of its children the cursor has
      passed or entered, and everything that has to be emitted after the node. */
  datatype Label = Label(items: seq<OrderedTraversal>, done: nat, after: seq<Out>)

  type Labels = map<nat, Label>

  ghost predicate Corresponds(t: Tree, labels: Labels, pending: map<Location, Input>, i: nat, c: nat)
    requires t.Keys <= labels.Keys
    requires i in t && c < |t[i].children| == |labels[i].items|
  {
    var item := labels[i].items[c];
    match t[i].children[c]
    case Output(o) => item == OrderedTraversal.Output(o)
    case Unscheduled(_, input) => item.Recurse? && item.input == input
    case Pending(_) => item.Recurse? && NodeLocation(i, c) in pending && pending[NodeLocation(i, c)] == item.input
    case Node(_, j) =>
      && item.Recurse? && j in labels && labels[j].items == item.input.items
      && labels[j].after == Flatten(labels[i].items[c + 1..]) + labels[i].after
    case Yielded => c < labels[i].done || FlattenItem(item) == []
  }

  /** Every child stands for the item it came from; a child that is gone was passed by the cursor or
      stood for nothing. */
  ghost predicate Labelled(t: Tree, labels: Labels, pending: map<Location, Input>) {
    && labels.Keys == t.Keys
    && (forall i :: i in t ==> |t[i].children| == |labels[i].items| && labels[i].done <= |t[i].children|)
    && (0 in t ==> labels[0].after == [])
    && (forall i, c {:trigger Corresponds(t, labels, pending, i, c)} ::
         i in t && 0 <= c < |t[i].children| ==> Corresponds(t, labels, pending, i, c))
  }

  ghost predicate EnteredFrom(t: Tree, labels: Labels, i: nat) {
    && i in t && t[i].parent.Some?
    && t[i].parent.value.nodeIndex in labels
    && labels[t[i].parent.value.nodeIndex].done == t[i].parent.value.childIndex + 1
  }

  ghost predicate PassedOnly(t: Tree, labels: Labels, at: nat, i: nat)
    requires i in t && i in labels && labels[i].done <= |t[i].children|
  {
    forall c :: 0 <= c < labels[i].done ==>
      t[i].children[c].Yielded? || (i != at && c == labels[i].done - 1 && t[i].children[c].Node?)
  }

  /** The cursor is in node `at`.  It got there through the ancestors of `at`, and everything it has
      passed is yielded. */
  ghost predicate CursorOk(t: Tree, labels: Labels, at: nat)
    requires labels.Keys == t.Keys
    requires forall i :: i in t ==> labels[i].done <= |t[i].children|
  {
    && at in t
    && (forall i {:trigger EnteredFrom(t, labels, i)} ::
         i in t && i != 0 && (labels[i].done > 0 || i == at) ==> EnteredFrom(t, labels, i))
    && (forall i {:trigger PassedOnly(t, labels, at, i)} :: i in t ==> PassedOnly(t, labels, at, i))
  }

  /** What remains to be emitted when the cursor is in node `at`. */
  ghost function Remaining(labels: Labels, at: nat): seq<Out>
    requires at in labels && labels[at].done <= |labels[at].items|
  {
    Flatten(labels[at].items[labels[at].done..]) + labels[at].after
  }

  /** The whole-tree invariant between steps. */
  ghost predicate TreeOk(t: Tree, top: nat, labels: Labels, pending: map<Location, Input>, at: nat) {
    && Linked(t, top)
    && Labelled(t, labels, pending)
    && CursorOk(t, labels, at)
  }

  lemma FlattenStep(items: seq<OrderedTraversal>, k: nat)
    requires k < |items|
    ensures Flatten(items[k..]) == FlattenItem(items[k]) + Flatten(items[k + 1..])
  {
    assert items[k..][1..] == items[k + 1..];
  }

  /** Items that flatten to nothing can be skipped. */
  lemma {:induction false} FlattenSkip(items: seq<OrderedTraversal>, a: nat, b: nat)
    requires a <= b <= |items|
    requires forall c :: a <= c < b ==> FlattenItem(items[c]) == []
    ensures Flatten(items[a..]) == Flatten(items[b..])
    decreases b - a
  {
    if a < b {
      FlattenStep(items, a);
      FlattenSkip(items, a + 1, b);
    }
  }

  // ---------------------------------------------------------------- steps that keep the shape

  lemma SameShapeKeepsTree(t: Tree, t': Tree, top: nat, labels: Labels, pending: map<Location, Input>, at: nat)
    requires TreeOk(t, top, labels, pending, at)
    requires SameShape(t, t')
    ensures TreeOk(t', top, labels, pending, at)
  {
    forall i | i in t' && i != 0 ensures ParentLinked(t', i) {
      assert ParentLinked(t, i);
      var p := t[i].parent.value;
      assert SameKind(ChildAt(t, p), ChildAt(t', p));
    }
    forall i, c | i in t' && 0 <= c < |t'[i].children| && t'[i].children[c].Node? ensures ChildLinked(t', i, c) {
      assert SameKind(t[i].children[c], t'[i].children[c]);
      assert ChildLinked(t, i, c);
    }
    forall i, c | i in t' && 0 <= c < |t'[i].children| ensures Corresponds(t', labels, pending, i, c) {
      assert SameKind(t[i].children[c], t'[i].children[c]);
      assert Corresponds(t, labels, pending, i, c);
    }
    forall i | i in t' && i != 0 && (labels[i].done > 0 || i == at) ensures EnteredFrom(t', labels, i) {
      assert EnteredFrom(t, labels, i);
    }
    forall i | i in t' ensures PassedOnly(t', labels, at, i) {
      assert PassedOnly(t, labels, at, i);
      forall c | 0 <= c < labels[i].done
        ensures t'[i].children[c].Yielded? || (i != at && c == labels[i].done - 1 && t'[i].children[c].Node?)
      {
        assert SameKind(t[i].children[c], t'[i].children[c]);
      }
    }
  }

  lemma {:induction false} SameShapeCount(cs: seq<Child>, cs': seq<Child>, k: nat)
    requires k <= |cs| == |cs'|
    requires forall c :: 0 <= c < |cs| ==> SameKind(cs[c], cs'[c])
    ensures CountPending(cs[..k]) == CountPending(cs'[..k])
  {
    if k > 0 {
      SameShapeCount(cs, cs', k - 1);
      CountStep(cs, k - 1);
      CountStep(cs', k - 1);
    }
  }

  lemma SameShapeKeepsJobs(t: Tree, t': Tree, top: nat, jobs: seq<Job>, pending: map<Location, Input>)
    requires JobsOk(t, top, jobs, pending)
    requires SameShape(t, t')
    ensures JobsOk(t', top, jobs, pending)
  {
    forall loc ensures loc in pending <==> PendingAt(t', loc) {
      if HasChild(t, loc) {
        assert SameKind(ChildAt(t, loc), ChildAt(t', loc));
      }
    }
    forall j | 0 <= j < top + 1 ensures At(PendingCounts(t), j) == At(PendingCounts(t'), j) {
      if j in t {
        SameShapeCount(t[j].children, t'[j].children, |t[j].children|);
        assert t[j].children[..|t[j].children|] == t[j].children;
        assert t'[j].children[..|t'[j].children|] == t'[j].children;
      }
    }
    SumSame(PendingCounts(t), PendingCounts(t'), top + 1);
  }
}
