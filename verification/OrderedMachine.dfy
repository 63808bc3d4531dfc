/** The ordered traversal as a pure machine: what yielding, scheduling and completed unfolds make of a situation.
    The stream does exactly this; here it can be computed, and here it shows when nothing more can happen. */
module OrderedMachine {
  import opened Common
  import opened OrderedTree
  import opened OrderedSteps
  import opened OrderedPass
  import opened OrderedFlow
  import opened OrderedQuiet
  import opened OrderedNode
  import opened OrderedRelease
  import opened OrderedCursor

  /** Values yielded from the traversal: an item (`None` at the end of the stream), or not ready. */
  datatype Yield = Produced(output: Option<Out>) | NotReady

  /** What yielding and scheduling depend on. */
  datatype Situation = Situation(tree: Tree, top: nat, location: Option<Location>, limit: Option<nat>, total: nat)

  // ---------------------------------------------------------------- yielding

  ghost function FirstLeft(cs: seq<Child>, start: nat): (f: nat)
    requires start <= |cs|
    ensures FirstUnyielded(cs, start, f)
    decreases |cs| - start
  {
    if start < |cs| && cs[start].Yielded? then FirstLeft(cs, start + 1) else start
  }

  lemma FirstLeftUnique(cs: seq<Child>, start: nat, f: nat)
    requires FirstUnyielded(cs, start, f)
    ensures FirstLeft(cs, start) == f
  {
  }

  ghost predicate CanComplete(t: Tree, at: nat) {
    at in t && t[at].parent.Some? && t[at].parent.value.nodeIndex != at && HasChild(t, t[at].parent.value)
  }

  /** Node `at` is removed, and its parent gets its budget. */
  ghost function CompletedTree(t: Tree, at: nat): (t': Tree)
    requires CanComplete(t, at)
    ensures t'.Keys == t.Keys - {at}
  {
    var p := t[at].parent.value;
    (t - {at})[p.nodeIndex :=
      SetChild(t[p.nodeIndex], p.childIndex, Yielded).(budget := t[p.nodeIndex].budget + t[at].budget)]
  }

  /** Where the search for the next item ends. */
  datatype Walked = Waits(tree: Tree, at: Location) | Emits(tree: Tree, at: Location, out: Out) | Ends(tree: Tree)

  /** The search for the next item from child `start` of node `x`: nodes are entered, and left and removed when they
      have nothing more to yield. */
  ghost function Walk(t: Tree, top: nat, x: nat, start: nat): Walked
    decreases t.Keys, top - x
  {
    if x !in t || start > |t[x].children| then Ends(t)
    else
      var f := FirstLeft(t[x].children, start);
      if f == |t[x].children| then
        if CanComplete(t, x)
        then Walk(CompletedTree(t, x), top, t[x].parent.value.nodeIndex, t[x].parent.value.childIndex)
        else Ends(t - {x})
      else
        match t[x].children[f]
        case Node(_, j) => if x < j <= top then Walk(t, top, j, 0) else Ends(t)
        case Output(out) =>
          if t[x].budget == 0 then Waits(t, NodeLocation(x, f))
          else Emits(t[x := SetChild(t[x], f, Yielded)], NodeLocation(x, f), out)
        case _ => Waits(t, NodeLocation(x, f))
  }

  /** The item at child `c` of node `n` cannot be emitted yet. */
  predicate WaitsIn(n: NodeState, c: nat) {
    c < |n.children|
    && (n.children[c].Unscheduled? || n.children[c].Pending? || (n.children[c].Output? && n.budget == 0))
  }

  ghost predicate WaitsAt(t: Tree, loc: Location) {
    loc.nodeIndex in t && WaitsIn(t[loc.nodeIndex], loc.childIndex)
  }

  /** A search that ends without an item has at most removed nodes. */
  lemma {:induction false} WalkWaits(t: Tree, top: nat, x: nat, start: nat)
    requires Walk(t, top, x, start).Waits?
    ensures var w := Walk(t, top, x, start);
            && WaitsAt(w.tree, w.at) && w.tree.Keys <= t.Keys
            && (w.tree.Keys == t.Keys ==> w.tree == t)
    decreases t.Keys, top - x
  {
    var f := FirstLeft(t[x].children, start);
    if f == |t[x].children| {
      WalkWaits(CompletedTree(t, x), top, t[x].parent.value.nodeIndex, t[x].parent.value.childIndex);
    } else if t[x].children[f].Node? {
      WalkWaits(t, top, t[x].children[f].nodeIndex, 0);
    }
  }

  /** Where an item waits, a new search stops at once. */
  lemma WaitsHere(t: Tree, top: nat, loc: Location)
    requires WaitsAt(t, loc)
    ensures Walk(t, top, loc.nodeIndex, loc.childIndex) == Waits(t, loc)
  {
  }

  ghost function LoweredLimit(limit: Option<nat>): Option<nat> {
    if limit.Some? then Some(SaturatingSub(limit.value, 1)) else None
  }

  /** The limit goes down, budget may expire, and what is not needed is released; at the limit everything ends. */
  ghost function Emitted(s: Situation, t: Tree, at: Location): Situation {
    var limit := LoweredLimit(s.limit);
    if limit == Some(0) || at.nodeIndex !in t then Situation(map[], s.top, None, limit, 0)
    else
      var t1 := Expire(t, at.nodeIndex, limit, s.total);
      var released := Release(t1, at.nodeIndex);
      Situation(released.0, s.top, Some(NodeLocation(at.nodeIndex, at.childIndex + 1)), limit,
                SaturatingSub(s.total, ExpiredSurplus(t1[at.nodeIndex]) + released.1))
  }

  ghost function YieldStep(s: Situation): (Situation, Yield) {
    match s.location
    case None => (s, Produced(None))
    case Some(loc) =>
      match Walk(s.tree, s.top, loc.nodeIndex, loc.childIndex)
      case Waits(t, at) => (s.(tree := t, location := Some(at)), NotReady)
      case Emits(t, at, out) => (Emitted(s, t, at), Produced(Some(out)))
      case Ends(t) => (s.(tree := t, location := None), Produced(None))
  }

  // The search, one turn at a time.

  ghost function From(s: Situation, loc: Location): Situation {
    s.(location := Some(loc))
  }

  /** The result of a search that has come to situation `s`: it is over with `y`, or goes on at `location`. */
  ghost function Onward(s: Situation, y: Option<Yield>, location: Option<Location>): (Situation, Yield) {
    match y
    case Some(result) => (s, result)
    case None => if location.Some? then YieldStep(From(s, location.value)) else (s, Produced(None))
  }

  // What follows is stated by predicates that are looked into only where their part is mentioned.

  /** A turn of the search takes it from `loc` in situation `s` to `s'`, where it is over or goes on at `location`. */
  ghost predicate Searches(s: Situation, loc: Location, s': Situation, y: Option<Yield>, location: Option<Location>) {
    forall part {:trigger Look(part)} :: Look(part) && part == Part.Machine
      ==> Onward(s', y, location) == YieldStep(From(s, loc))
  }

  /** The search that started in `s0` has come to `location` in situation `s`. */
  ghost predicate Found(s0: Situation, s: Situation, location: Option<Location>) {
    forall part {:trigger Look(part)} :: Look(part) && part == Part.Machine
      ==> Onward(s, None, location) == YieldStep(s0)
  }

  ghost predicate Yields(s: Situation, s': Situation, y: Yield) {
    forall part {:trigger Look(part)} :: Look(part) && part == Part.Machine ==> (s', y) == YieldStep(s)
  }

  ghost predicate EmitsTo(s: Situation, t: Tree, at: Location, s': Situation) {
    forall part {:trigger Look(part)} :: Look(part) && part == Part.Machine ==> s' == Emitted(s, t, at)
  }

  lemma EmitsLast(s: Situation, t: Tree, at: Location)
    requires LoweredLimit(s.limit) == Some(0)
    ensures EmitsTo(s, t, at, Situation(map[], s.top, None, Some(0), 0))
  {
  }

  lemma EmitsOn(s: Situation, t: Tree, at: Location, t1: Tree, s': Situation)
    requires LoweredLimit(s.limit) != Some(0) && at.nodeIndex in t && at.nodeIndex in t1
    requires t1 == Expire(t, at.nodeIndex, LoweredLimit(s.limit), s.total)
    requires s' == Situation(Release(t1, at.nodeIndex).0, s.top, Some(NodeLocation(at.nodeIndex, at.childIndex + 1)),
                             LoweredLimit(s.limit), s'.total)
    requires s'.total + ExpiredSurplus(t1[at.nodeIndex]) + Release(t1, at.nodeIndex).1 == s.total
    ensures EmitsTo(s, t, at, s')
  {
  }

  lemma FoundStart(s: Situation)
    ensures Found(s, s.(location := None), s.location)
  {
  }

  lemma FoundNext(s0: Situation, s: Situation, loc: Location, s': Situation, y: Option<Yield>,
                  location: Option<Location>)
    requires Found(s0, s, Some(loc)) && Searches(s, loc, s', y, location)
    ensures if y.Some? then Yields(s0, s', y.value) else Found(s0, s', location)
  {
    assert Look(Part.Machine);
  }

  lemma FoundEnd(s0: Situation, s: Situation)
    requires Found(s0, s, None)
    ensures Yields(s0, s, Produced(None))
  {
    assert Look(Part.Machine);
  }

  lemma SearchEnters(s: Situation, x: nat, start: nat, f: nat)
    requires x in s.tree && FirstUnyielded(s.tree[x].children, start, f)
    requires f < |s.tree[x].children| && s.tree[x].children[f].Node? && x < s.tree[x].children[f].nodeIndex <= s.top
    ensures Searches(s, NodeLocation(x, start), s, None, Some(NodeLocation(s.tree[x].children[f].nodeIndex, 0)))
  {
    FirstLeftUnique(s.tree[x].children, start, f);
  }

  lemma SearchCompletes(s: Situation, s': Situation, x: nat, start: nat)
    requires x in s.tree && FirstUnyielded(s.tree[x].children, start, |s.tree[x].children|) && s.location == None
    requires if s.tree[x].parent.Some? then CanComplete(s.tree, x) && s' == s.(tree := CompletedTree(s.tree, x))
             else s' == s.(tree := s.tree - {x})
    ensures Searches(s, NodeLocation(x, start), s', None, s.tree[x].parent)
  {
    FirstLeftUnique(s.tree[x].children, start, |s.tree[x].children|);
  }

  lemma SearchStops(s: Situation, x: nat, start: nat, f: nat)
    requires x in s.tree && FirstUnyielded(s.tree[x].children, start, f) && WaitsAt(s.tree, NodeLocation(x, f))
    ensures Searches(s, NodeLocation(x, start), From(s, NodeLocation(x, f)), Some(NotReady), None)
  {
    FirstLeftUnique(s.tree[x].children, start, f);
  }

  lemma SearchEmits(s: Situation, x: nat, start: nat, f: nat, out: Out, t: Tree, s': Situation)
    requires x in s.tree && FirstUnyielded(s.tree[x].children, start, f)
    requires f < |s.tree[x].children| && s.tree[x].children[f] == Child.Output(out) && s.tree[x].budget > 0
    requires t == s.tree[x := SetChild(s.tree[x], f, Yielded)] && EmitsTo(s.(tree := t), t, NodeLocation(x, f), s')
    ensures Searches(s, NodeLocation(x, start), s', Some(Produced(Some(out))), None)
  {
    assert Look(Part.Machine);
    FirstLeftUnique(s.tree[x].children, start, f);
  }

  // ---------------------------------------------------------------- scheduling

  ghost function PassStep(s: Situation): Situation {
    if 0 in s.tree
    then s.(tree := PassTree(s.tree, s.top), total := SaturatingSub(s.total, Surplus(s.tree, s.top, 0)))
    else s
  }

  /** The part of a poll that does not wait: yield, schedule, and yield again. */
  ghost function AdvanceStep(s: Situation): (Situation, Yield) {
    var first := YieldStep(s);
    if first.1.Produced? then first else YieldStep(PassStep(first.0))
  }

  ghost predicate Passes(s: Situation, s': Situation) {
    forall part {:trigger Look(part)} :: Look(part) && part == Part.Machine ==> s' == PassStep(s)
  }

  ghost predicate Advances(s: Situation, s': Situation, y: Yield) {
    forall part {:trigger Look(part)} :: Look(part) && part == Part.Machine ==> (s', y) == AdvanceStep(s)
  }

  lemma PassesTo(s: Situation, s': Situation)
    requires 0 in s.tree && s'.tree == PassTree(s.tree, s.top) && s'.total + Surplus(s.tree, s.top, 0) == s.total
    requires s' == s.(tree := s'.tree, total := s'.total)
    ensures Passes(s, s')
  {
  }

  /** The unfolds started while `s` advances are those of the inputs that it comes to. */
  ghost predicate StartedFrom(s: Situation, jobs: seq<Job>) {
    forall part {:trigger Look(part)} :: Look(part) && part == Part.Machine ==> JobsFrom(YieldStep(s).0.tree, jobs)
  }

  lemma StartedAfter(s: Situation, s1: Situation, jobs: seq<Job>)
    requires Yields(s, s1, NotReady) && JobsFrom(s1.tree, jobs)
    ensures StartedFrom(s, jobs)
  {
    assert Look(Part.Machine);
  }

  ghost predicate InOrder(s: Situation) {
    forall part {:trigger Look(part)} :: Look(part) && part == Part.Machine
      ==> Linked(s.tree, s.top) && AllLocalOk(s.tree)
  }

  lemma Advanced(s: Situation, s1: Situation, s2: Situation, s3: Situation, y: Yield)
    requires Yields(s, s1, NotReady) && Passes(s1, s2) && Yields(s2, s3, y)
    ensures Advances(s, s3, y)
  {
    assert Look(Part.Machine);
  }

  lemma AdvancedAtOnce(s: Situation, s': Situation, y: Yield)
    requires Yields(s, s', y) && y.Produced?
    ensures Advances(s, s', y)
  {
    assert Look(Part.Machine);
  }

  // ---------------------------------------------------------------- completed unfolds

  ghost function FreshChild(item: OrderedTraversal): Child {
    match item
    case Output(out) => Child.Output(out)
    case Recurse(weight, input) => Unscheduled(if weight == 0 then 1 else weight, input)
  }

  ghost function FreshChildrenOf(items: seq<OrderedTraversal>): (cs: seq<Child>)
    ensures |cs| == |items| && forall c :: 0 <= c < |cs| ==> cs[c] == FreshChild(items[c])
  {
    seq(|items|, c requires 0 <= c < |items| => FreshChild(items[c]))
  }

  /** The tree after the pending child at `loc` was unfolded into `items`; the new node, if any, is `j`. */
  ghost function UnfoldTree(t: Tree, j: nat, loc: Location, items: seq<OrderedTraversal>): Tree
    requires HasChild(t, loc)
  {
    var n := t[loc.nodeIndex];
    if items == [] then t[loc.nodeIndex := SetChild(n, loc.childIndex, Yielded)]
    else
      var cs := FreshChildrenOf(items);
      t[loc.nodeIndex := SetChild(n, loc.childIndex, Node(Min(TotalWeight(cs), ChildAt(t, loc).Weight()), j))]
       [j := NodeState(Some(loc), cs, TotalWeight(cs), 0, 0, 0)]
  }

  /** A root that stands for `items` and has as much of the budget as it needs. */
  ghost function InitialSituation(queuedMax: nat, limit: Option<nat>, items: seq<OrderedTraversal>): Situation {
    var cs := FreshChildrenOf(items);
    var budget := Min(queuedMax, TotalWeight(cs));
    Situation(map[0 := NodeState(None, cs, TotalWeight(cs), budget, 0, 0)], 0,
              if limit == Some(0) then None else Some(NodeLocation(0, 0)), limit, budget)
  }

  ghost function UnfoldStep(s: Situation, loc: Location, items: seq<OrderedTraversal>): Situation {
    if HasChild(s.tree, loc) then s.(tree := UnfoldTree(s.tree, s.top + 1, loc, items), top := s.top + 1) else s
  }

  ghost predicate Unfolds(s: Situation, loc: Location, items: seq<OrderedTraversal>, s': Situation) {
    forall part {:trigger Look(part)} :: Look(part) && part == Part.Machine ==> s' == UnfoldStep(s, loc, items)
  }

  lemma FreshUnique(cs: seq<Child>, items: seq<OrderedTraversal>)
    requires FreshChildren(cs, items)
    ensures cs == FreshChildrenOf(items)
  {
  }

  lemma InitialIs(queuedMax: nat, limit: Option<nat>, items: seq<OrderedTraversal>)
    ensures InitialTree(InitialSituation(queuedMax, limit, items).tree, items, queuedMax)
  {
  }

  lemma UnfoldsToNode(s: Situation, s': Situation, j: nat, loc: Location, w: nat, n: NodeState,
                      items: seq<OrderedTraversal>)
    requires Unfolded(s.tree, s'.tree, j, loc, w, n, items) && items != [] && j == s.top + 1
    requires n == NodeState(Some(loc), n.children, TotalWeight(n.children), 0, 0, 0)
    requires w == Min(TotalWeight(n.children), ChildAt(s.tree, loc).Weight())
    requires s' == s.(tree := s'.tree, top := j)
    ensures Unfolds(s, loc, items, s')
  {
    FreshUnique(n.children, items);
  }

  lemma UnfoldsToNothing(s: Situation, s': Situation, loc: Location)
    requires PendingAt(s.tree, loc)
    requires s' == s.(tree := s.tree[loc.nodeIndex := SetChild(s.tree[loc.nodeIndex], loc.childIndex, Yielded)],
                      top := s.top + 1)
    ensures Unfolds(s, loc, [], s')
  {
  }

  // ---------------------------------------------------------------- when nothing more can happen

  /** The next item waits, no input can be started, and no budget can move. */
  ghost predicate StandsStill(s: Situation) {
    s.location.Some? && WaitsAt(s.tree, s.location.value) && AllQuiet(s.tree)
  }

  lemma SamePending(t: Tree, t': Tree, top: nat)
    requires SameButSkipped(t, t')
    ensures PendingTotal(t', top) == PendingTotal(t, top)
  {
    SumSame(PendingCounts(t), PendingCounts(t'), top + 1);
  }

  lemma SkippedQuiet(t: Tree, t': Tree)
    requires AllQuiet(t) && SameButSkipped(t, t')
    ensures AllQuiet(t')
  {
    forall i | i in t' ensures Quiet(t'[i]) {
      assert Quiet(t[i]);
      QuietSkipped(t[i], t'[i]);
    }
  }

  lemma QuietSkipped(n: NodeState, n': NodeState)
    requires Quiet(n) && n' == n.(scheduleNextIndex := n'.scheduleNextIndex)
    ensures Quiet(n')
  {
    forall c | 0 <= c < |n'.children| && Reached(n', c)
      ensures !n'.children[c].Unscheduled? && !(n'.children[c].Node? && n'.children[c].weight >= 1)
    {
      assert Reached(n, c);
    }
  }

  /** One if some node has more budget than it needs, and one if the next item has not been looked for. */
  ghost function Loose(s: Situation): nat {
    (if Excess(s.tree) then 1 else 0) + (if s.location.Some? && WaitsAt(s.tree, s.location.value) then 0 else 1)
  }

  /** Unless a situation stands still, advancing it starts an unfold, uses up weight, removes a node, or at least
      collects excess budget or finds the next item. */
  lemma AdvanceProgress(s: Situation, s1: Situation, s2: Situation, s3: Situation)
    requires (s1, NotReady) == YieldStep(s) && s2 == PassStep(s1) && (s3, NotReady) == YieldStep(s2)
    requires Linked(s1.tree, s1.top) && AllLocalOk(s1.tree)
    ensures |s3.tree| <= |s.tree|
    ensures StandsStill(s) || |s3.tree| < |s.tree| || Loose(s3) < Loose(s)
         || PendingTotal(s2.tree, s.top) > PendingTotal(s1.tree, s.top)
         || WeightTotal(s2.tree, s.top) < WeightTotal(s1.tree, s.top)
  {
    YieldKeepsOrRemoves(s, s1);
    YieldKeepsOrRemoves(s2, s3);
    PassProgress(s1.tree, s1.top);
    assert s2.tree.Keys == s1.tree.Keys;
    SameKeysSameSize(s2.tree, s1.tree);
  }

  /** The order of what is left to do: in unfolds, in weight, in nodes, and in whatever else is loose. */
  ghost predicate Less(a: (nat, nat, nat, nat), b: (nat, nat, nat, nat)) {
    || a.0 < b.0
    || (a.0 == b.0 && (|| a.1 < b.1
                       || (a.1 == b.1 && (a.2 < b.2 || (a.2 == b.2 && a.3 < b.3)))))
  }

  ghost function LeftIn(s: Situation, work: nat): (nat, nat, nat, nat) {
    (work, WeightTotal(s.tree, s.top), |s.tree|, Loose(s))
  }

  lemma AdvanceLess(s: Situation, s1: Situation, s2: Situation, s3: Situation, work: nat)
    requires Yields(s, s1, NotReady) && Passes(s1, s2) && Yields(s2, s3, NotReady) && InOrder(s1)
    requires PendingTotal(s2.tree, s.top) == PendingTotal(s1.tree, s.top)
    requires WeightTotal(s1.tree, s.top) <= WeightTotal(s.tree, s.top)
    requires WeightTotal(s3.tree, s.top) <= WeightTotal(s2.tree, s.top) <= WeightTotal(s1.tree, s.top)
    ensures s3.top == s.top && (StandsStill(s) || Less(LeftIn(s3, work), LeftIn(s, work)))
  {
    AdvanceLeaves(s, s1, s2, s3);
  }

  lemma AdvanceLeaves(s: Situation, s1: Situation, s2: Situation, s3: Situation)
    requires Yields(s, s1, NotReady) && Passes(s1, s2) && Yields(s2, s3, NotReady) && InOrder(s1)
    ensures s3.top == s.top && |s3.tree| <= |s.tree|
    ensures StandsStill(s) || |s3.tree| < |s.tree| || Loose(s3) < Loose(s)
         || PendingTotal(s2.tree, s.top) > PendingTotal(s1.tree, s.top)
         || WeightTotal(s2.tree, s.top) < WeightTotal(s1.tree, s.top)
  {
    YieldsTo(s, s1, NotReady);
    YieldsTo(s2, s3, NotReady);
    PassStepIs(s1, s2);
    AdvanceProgress(s, s1, s2, s3);
  }

  lemma YieldsTo(s: Situation, s': Situation, y: Yield)
    requires Yields(s, s', y)
    ensures (s', y) == YieldStep(s)
  {
    assert Look(Part.Machine);
  }

  lemma PassStepIs(s: Situation, s': Situation)
    requires Passes(s, s') && InOrder(s)
    ensures s' == PassStep(s) && Linked(s.tree, s.top) && AllLocalOk(s.tree)
  {
    assert Look(Part.Machine);
  }

  lemma SameKeysSameSize(t: Tree, t': Tree)
    requires t.Keys <= t'.Keys
    ensures |t| <= |t'| && (|t| == |t'| ==> t.Keys == t'.Keys)
  {
    assert t'.Keys == t.Keys + (t'.Keys - t.Keys);
    assert |t| == |t.Keys| && |t'| == |t'.Keys|;
  }

  lemma YieldKeepsOrRemoves(s: Situation, s': Situation)
    requires (s', NotReady) == YieldStep(s)
    ensures s'.top == s.top && s'.location.Some? && WaitsAt(s'.tree, s'.location.value)
    ensures |s'.tree| < |s.tree| || s'.tree == s.tree
    ensures s.location.Some? && WaitsAt(s.tree, s.location.value) ==> s' == s
  {
    var loc := s.location.value;
    WalkWaits(s.tree, s.top, loc.nodeIndex, loc.childIndex);
    SameKeysSameSize(s'.tree, s.tree);
    if WaitsAt(s.tree, loc) {
      WaitsHere(s.tree, s.top, loc);
    }
  }

  /** A situation that stands still does so for ever: yielding and scheduling change nothing that matters. */
  lemma StandsStillForever(s: Situation)
    requires StandsStill(s) && Linked(s.tree, s.top) && AllLocalOk(s.tree)
    ensures var next := AdvanceStep(s);
            && next.1 == NotReady && StandsStill(next.0)
            && SameButSkipped(s.tree, next.0.tree) && next.0 == s.(tree := next.0.tree)
  {
    var t' := PassTree(s.tree, s.top);
    WaitsHere(s.tree, s.top, s.location.value);
    QuietIffUnchanged(s.tree, s.top);
    SkippedQuiet(s.tree, t');
    assert WaitsAt(t', s.location.value);
    WaitsHere(t', s.top, s.location.value);
  }

  /** Advancing from `s`, with `work` unfolds to come, emits an item, or starts an unfold, or leaves less to do. */
  ghost predicate MakesProgress(s: Situation, work: nat) {
    var next := AdvanceStep(s);
    next.1.Produced? || PendingTotal(next.0.tree, s.top) > 0 || Less(LeftIn(next.0, work), LeftIn(s, work))
  }

  /** An item that waits still waits after a pass, unless it is a value that got the budget it waited for. */
  lemma PassKeepsWaiting(t: Tree, top: nat, loc: Location)
    requires WaitsAt(t, loc)
    ensures WaitsAt(PassTree(t, top), loc) || Walk(PassTree(t, top), top, loc.nodeIndex, loc.childIndex).Emits?
  {
    var n' := PassNode(t, top, loc.nodeIndex);
    assert n'.children[loc.childIndex] == ScheduledChild(t[loc.nodeIndex], loc.childIndex);
  }

  /** A situation in which the next item waits and no unfold is outstanding makes progress if and only if some node
      is not quiet. */
  lemma ProgressUnlessQuiet(s: Situation, work: nat)
    requires Linked(s.tree, s.top) && AllLocalOk(s.tree)
    requires s.location.Some? && WaitsAt(s.tree, s.location.value) && PendingTotal(s.tree, s.top) == 0
    ensures MakesProgress(s, work) <==> !AllQuiet(s.tree)
  {
    var loc, s2 := s.location.value, PassStep(s);
    var next := AdvanceStep(s);
    WaitsHere(s.tree, s.top, loc);
    if AllQuiet(s.tree) {
      StandsStillForever(s);
      SameLeft(s, next.0, work);
    } else {
      PassKeepsWaiting(s.tree, s.top, loc);
      if WaitsAt(s2.tree, loc) {
        WaitsHere(s2.tree, s2.top, loc);
        AdvanceProgress(s, s, s2, s2);
        WeightsFall(s.tree, s.top);
      }
    }
  }

  lemma SameLeft(s: Situation, s': Situation, work: nat)
    requires SameButSkipped(s.tree, s'.tree) && s' == s.(tree := s'.tree) && StandsStill(s) && StandsStill(s')
    ensures LeftIn(s', work) == LeftIn(s, work) && PendingTotal(s'.tree, s.top) == PendingTotal(s.tree, s.top)
  {
    SamePending(s.tree, s'.tree, s.top);
    SumSame(Weights(s.tree), Weights(s'.tree), s.top + 1);
    SameKeysSameSize(s.tree, s'.tree);
    forall i | i in s.tree ensures s.tree[i].budget <= s.tree[i].remainingWeight {
      assert Quiet(s.tree[i]);
    }
  }

  // ---------------------------------------------------------------- nothing within reach is passed over

  /** Every input in `t` that was within reach of the budget of its node is not waiting to be started in `t'`. */
  ghost predicate Served(t: Tree, t': Tree) {
    forall i: nat, c: nat {:trigger Startable(t, i, c)} :: Startable(t, i, c) && i in t' ==>
      c < |t'[i].children| && !t'[i].children[c].Unscheduled?
  }

  ghost predicate Startable(t: Tree, i: nat, c: nat) {
    i in t && c < |t[i].children| && t[i].children[c].Unscheduled? && Reached(t[i], c)
  }

  /** Node `n` became `n'`: children may have been yielded, and budget was added. */
  ghost predicate Richer(n: NodeState, n': NodeState) {
    && |n'.children| == |n.children| && n.budget <= n'.budget
    && forall c :: 0 <= c < |n.children| ==> n'.children[c] == n.children[c] || n'.children[c].Yielded?
  }

  ghost predicate AllRicher(t: Tree, t': Tree) {
    t'.Keys <= t.Keys && forall i {:trigger t'[i]} :: i in t' ==> Richer(t[i], t'[i])
  }

  lemma {:induction false} PrefixLighter(cs: seq<Child>, cs': seq<Child>, k: nat)
    requires |cs| == |cs'| && k <= |cs| && forall c :: 0 <= c < |cs| ==> cs'[c] == cs[c] || cs'[c].Yielded?
    ensures TotalWeight(cs'[..k]) <= TotalWeight(cs[..k])
  {
    if k > 0 {
      PrefixLighter(cs, cs', k - 1);
      WeightStep(cs, k - 1);
      WeightStep(cs', k - 1);
    }
  }

  lemma CompletedRicher(t: Tree, at: nat)
    requires CanComplete(t, at)
    ensures AllRicher(t, CompletedTree(t, at))
  {
  }

  lemma RicherOn(t: Tree, t1: Tree, t2: Tree)
    requires AllRicher(t, t1) && AllRicher(t1, t2)
    ensures AllRicher(t, t2)
  {
    forall i | i in t2 ensures Richer(t[i], t2[i]) {
      assert Richer(t1[i], t2[i]) && Richer(t[i], t1[i]);
    }
  }

  /** The search for an item that waits only removes nodes, whose budget goes to their parents. */
  lemma {:induction false} WalkRicher(t: Tree, top: nat, x: nat, start: nat)
    requires Walk(t, top, x, start).Waits?
    ensures AllRicher(t, Walk(t, top, x, start).tree)
    decreases t.Keys, top - x
  {
    var f := FirstLeft(t[x].children, start);
    if f == |t[x].children| {
      var t1 := CompletedTree(t, x);
      WalkRicher(t1, top, t[x].parent.value.nodeIndex, t[x].parent.value.childIndex);
      CompletedRicher(t, x);
      RicherOn(t, t1, Walk(t, top, x, start).tree);
    } else if t[x].children[f].Node? {
      WalkRicher(t, top, t[x].children[f].nodeIndex, 0);
    }
  }

  lemma PassServes(t: Tree, top: nat)
    requires AllLocalOk(t)
    ensures Served(t, PassTree(t, top))
  {
    forall i: nat, c: nat | Startable(t, i, c) ensures !PassTree(t, top)[i].children[c].Unscheduled? {
      assert LocalOk(t[i]);
      assert PassTree(t, top)[i].children[c] == ScheduledChild(t[i], c);
    }
  }

  lemma ServedThrough(t: Tree, t1: Tree, top: nat, t3: Tree)
    requires AllRicher(t, t1) && Served(t1, PassTree(t1, top)) && AllRicher(PassTree(t1, top), t3)
    ensures Served(t, t3)
  {
    var t2 := PassTree(t1, top);
    forall i: nat, c: nat | Startable(t, i, c) && i in t3
      ensures c < |t3[i].children| && !t3[i].children[c].Unscheduled?
    {
      assert Richer(t[i], t1[i]) && Richer(t2[i], t3[i]);
      PrefixLighter(t[i].children, t1[i].children, c);
      assert t1[i].children[c].Yielded? || Startable(t1, i, c);
      assert t2[i].children[c] == ScheduledChild(t1[i], c);
    }
  }

  /** An item that is not ready after yielding, scheduling and yielding again was not passed over, and neither was an
      input that could be started. */
  lemma AdvanceServes(s: Situation, s1: Situation, s2: Situation, s3: Situation)
    requires Yields(s, s1, NotReady) && Passes(s1, s2) && Yields(s2, s3, NotReady) && InOrder(s1)
    ensures Served(s.tree, s3.tree)
  {
    YieldsTo(s, s1, NotReady);
    YieldsTo(s2, s3, NotReady);
    PassStepIs(s1, s2);
    WalkRicher(s.tree, s.top, s.location.value.nodeIndex, s.location.value.childIndex);
    WalkRicher(s2.tree, s2.top, s2.location.value.nodeIndex, s2.location.value.childIndex);
    PassServes(s1.tree, s1.top);
    ServedThrough(s.tree, s1.tree, s1.top, s3.tree);
  }

  // ---------------------------------------------------------------- polls

  /** Some pending unfold completes. */
  ghost predicate SomeUnfolds(s: Situation, s': Situation) {
    exists loc: Location, items :: PendingAt(s.tree, loc) && Unfolds(s, loc, items, s')
  }

  /** A turn of a poll: with nothing to emit, an unfold completes, if any is pending. */
  ghost predicate TurnOf(s: Situation, s': Situation) {
    exists m :: Advances(s, m, NotReady) && (SomeUnfolds(m, s') || (s' == m && PendingTotal(m.tree, m.top) == 0))
  }

  lemma TurnEnds(s: Situation, m: Situation, s': Situation)
    requires Advances(s, m, NotReady) && (SomeUnfolds(m, s') || (s' == m && PendingTotal(m.tree, m.top) == 0))
    ensures TurnOf(s, s')
  {
  }

  /** The situations that turns of a poll lead through, one after the other. */
  ghost predicate Turned(trail: seq<Situation>) {
    && trail != []
    && (|trail| == 1 || (Turned(trail[..|trail| - 1]) && TurnOf(trail[|trail| - 2], trail[|trail| - 1])))
  }

  /** Turns of a poll lead from `s` to `s'`. */
  ghost predicate LeadsTo(s: Situation, s': Situation) {
    exists trail: seq<Situation> :: LeadsAlong(trail, s, s')
  }

  ghost predicate LeadsAlong(trail: seq<Situation>, s: Situation, s': Situation) {
    Turned(trail) && trail[0] == s && trail[|trail| - 1] == s'
  }

  /** A poll that comes from `s` to `s'` and ends there with `y`: after some turns, yielding, scheduling and yielding
      again give an item, or the end, or come to an item that is not ready; and no input is passed over then. */
  ghost predicate Polled(s: Situation, s': Situation, y: Yield) {
    exists last :: LeadsTo(s, last) && Advances(last, s', y) && (y.NotReady? ==> Served(last.tree, s'.tree))
  }

  lemma LeadsNowhere(s: Situation)
    ensures LeadsTo(s, s)
  {
    assert LeadsAlong([s], s, s);
  }

  lemma TurnedOn(trail: seq<Situation>, next: Situation)
    requires Turned(trail) && TurnOf(trail[|trail| - 1], next)
    ensures Turned(trail + [next])
  {
    var trail' := trail + [next];
    assert trail'[..|trail|] == trail && trail'[|trail| - 1] == trail[|trail| - 1] && trail'[|trail|] == next;
  }

  lemma LeadsOn(s: Situation, s1: Situation, s2: Situation)
    requires LeadsTo(s, s1) && TurnOf(s1, s2)
    ensures LeadsTo(s, s2)
  {
    var trail: seq<Situation> :| LeadsAlong(trail, s, s1);
    TurnedOn(trail, s2);
    assert LeadsAlong(trail + [s2], s, s2);
  }

  lemma PollEnds(s: Situation, last: Situation, s': Situation, y: Yield)
    requires LeadsTo(s, last) && Advances(last, s', y) && (y.NotReady? ==> Served(last.tree, s'.tree))
    ensures Polled(s, s', y)
  {
  }
}
