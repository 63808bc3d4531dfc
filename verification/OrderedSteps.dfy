/** Each step of the ordered traversal keeps the whole-tree invariant and moves exactly the emitted
    value, if any, from what remains to what was emitted. */
module OrderedSteps {
  import opened Common
  import opened OrderedTree

  /** The unfolds that are left, as a sum over the nodes. */
  ghost function Works(t: Tree, labels: Labels): map<nat, nat> {
    map i | i in t :: WorkAt(t, labels, i)
  }

  ghost function WorkAt(t: Tree, labels: Labels, i: nat): nat
    requires i in t
  {
    if i in labels && |labels[i].items| == |t[i].children| then NodeWork(t[i].children, labels[i].items) else 0
  }

  ghost function WorkTotal(t: Tree, labels: Labels, top: nat): nat {
    Sum(Works(t, labels), top + 1)
  }

  lemma NodeWorkUpdate(cs: seq<Child>, items: seq<OrderedTraversal>, c: nat, ch: Child)
    requires c < |cs| == |items|
    ensures NodeWork(cs[c := ch], items)
            + (if cs[c].Unscheduled? || cs[c].Pending? then ItemSize(items[c]) else 0)
         == NodeWork(cs, items)
            + (if ch.Unscheduled? || ch.Pending? then ItemSize(items[c]) else 0)
  {
    WorkUpdate(cs, items, c, ch, |cs|);
    assert cs[c := ch][..|cs|] == cs[c := ch] && cs[..|cs|] == cs && items[..|cs|] == items;
  }

  lemma NodeCountUpdate(cs: seq<Child>, c: nat, ch: Child)
    requires c < |cs|
    ensures CountPending(cs[c := ch]) + (if cs[c].Pending? then 1 else 0)
         == CountPending(cs) + (if ch.Pending? then 1 else 0)
  {
    CountUpdate(cs, c, ch, |cs|);
    assert cs[c := ch][..|cs|] == cs[c := ch] && cs[..|cs|] == cs;
  }

  lemma {:induction false} SameShapeWork(cs: seq<Child>, cs': seq<Child>, items: seq<OrderedTraversal>, k: nat)
    requires k <= |cs| == |cs'| == |items|
    requires forall c :: 0 <= c < |cs| ==> SameKind(cs[c], cs'[c])
    ensures NodeWork(cs[..k], items[..k]) == NodeWork(cs'[..k], items[..k])
  {
    if k > 0 {
      SameShapeWork(cs, cs', items, k - 1);
      WorkStep(cs, items, k - 1);
      WorkStep(cs', items, k - 1);
    }
  }

  lemma SameShapeKeepsWorks(t: Tree, t': Tree, labels: Labels, top: nat)
    requires SameShape(t, t') && t.Keys <= labels.Keys
    requires forall i :: i in t ==> |t[i].children| == |labels[i].items|
    ensures WorkTotal(t, labels, top) == WorkTotal(t', labels, top)
  {
    forall j | 0 <= j < top + 1 ensures At(Works(t, labels), j) == At(Works(t', labels), j) {
      if j in t {
        var cs, cs', items := t[j].children, t'[j].children, labels[j].items;
        SameShapeWork(cs, cs', items, |cs|);
        assert cs[..|cs|] == cs && cs'[..|cs|] == cs' && items[..|cs|] == items;
      }
    }
    SumSame(Works(t, labels), Works(t', labels), top + 1);
  }

  // ---------------------------------------------------------------- scheduling

  /** Node `i` of `t'` is that of `t` with child `c` replaced by `ch`; its budgets may differ. */
  ghost predicate ChildReplaced(t: Tree, t': Tree, i: nat, c: nat, ch: Child) {
    && i in t && c < |t[i].children|
    && t'.Keys == t.Keys
    && (forall j :: j in t && j != i ==> t'[j] == t[j])
    && t'[i].parent == t[i].parent
    && t'[i].children == t[i].children[c := ch]
  }

  /** Replacing a leaf child keeps what every other child stands for. */
  lemma ReplacedLeafKeepsLabels(t: Tree, t': Tree, top: nat, labels: Labels, labels': Labels,
                                pending: map<Location, Input>, pending': map<Location, Input>,
                                i: nat, c: nat, ch: Child)
    requires Linked(t, top) && Labelled(t, labels, pending)
    requires ChildReplaced(t, t', i, c, ch)
    requires labels'.Keys == labels.Keys
    requires forall k :: k in t ==> labels'[k].items == labels[k].items && labels'[k].after == labels[k].after
    requires forall k :: k in t ==> labels[k].done <= labels'[k].done <= |t[k].children|
    requires forall l :: l in pending && l != NodeLocation(i, c) ==> l in pending' && pending'[l] == pending[l]
    requires Corresponds(t', labels', pending', i, c)
    ensures Labelled(t', labels', pending')
  {
    forall k, d | k in t' && 0 <= d < |t'[k].children| ensures Corresponds(t', labels', pending', k, d) {
      if (k, d) != (i, c) {
        assert Corresponds(t, labels, pending, k, d);
        assert t'[k].children[d] == t[k].children[d];
        if t[k].children[d].Node? {
          assert ChildLinked(t, k, d);
        }
      }
    }
  }

  /** Replacing a child changes whether anything is pending only there. */
  lemma ReplacedPending(t: Tree, t': Tree, i: nat, c: nat, ch: Child, loc: Location)
    requires ChildReplaced(t, t', i, c, ch)
    ensures PendingAt(t', loc) <==> (if loc == NodeLocation(i, c) then ch.Pending? else PendingAt(t, loc))
  {
  }

  lemma PendingKept(t: Tree, t': Tree, i: nat, c: nat, ch: Child)
    requires ChildReplaced(t, t', i, c, ch) && !ch.Pending? && !t[i].children[c].Pending?
    ensures forall l :: PendingAt(t', l) <==> PendingAt(t, l)
  {
  }

  lemma PendingGone(t: Tree, t': Tree, i: nat, c: nat, ch: Child)
    requires ChildReplaced(t, t', i, c, ch) && !ch.Pending?
    ensures forall l :: PendingAt(t', l) <==> PendingAt(t, l) && l != NodeLocation(i, c)
  {
  }

  lemma ReplacedSums(t: Tree, t': Tree, labels: Labels, labels': Labels, i: nat, c: nat, ch: Child, top: nat)
    requires ChildReplaced(t, t', i, c, ch) && i <= top
    requires labels.Keys == labels'.Keys == t.Keys
    requires forall k :: k in t ==> |t[k].children| == |labels[k].items|
    requires forall k :: k in t ==> labels'[k].items == labels[k].items
    ensures PendingTotal(t', top) + (if t[i].children[c].Pending? then 1 else 0)
         == PendingTotal(t, top) + (if ch.Pending? then 1 else 0)
    ensures WorkTotal(t', labels', top)
            + (if t[i].children[c].Unscheduled? || t[i].children[c].Pending? then ItemSize(labels[i].items[c]) else 0)
         == WorkTotal(t, labels, top)
            + (if ch.Unscheduled? || ch.Pending? then ItemSize(labels[i].items[c]) else 0)
  {
    NodeCountUpdate(t[i].children, c, ch);
    SumChange(PendingCounts(t), PendingCounts(t'), i, top + 1);
    NodeWorkUpdate(t[i].children, labels[i].items, c, ch);
    SumChange(Works(t, labels), Works(t', labels'), i, top + 1);
  }

  /** A child that becomes pending brings one new job. */
  lemma AddJob(t: Tree, t': Tree, top: nat, jobs: seq<Job>, pending: map<Location, Input>, i: nat, c: nat,
               weight: nat, input: Input)
    requires JobsOk(t, top, jobs, pending)
    requires ChildReplaced(t, t', i, c, Pending(weight)) && !t[i].children[c].Pending?
    requires PendingTotal(t', top) == PendingTotal(t, top) + 1
    ensures JobsOk(t', top, jobs + [Job(NodeLocation(i, c), input)], pending[NodeLocation(i, c) := input])
  {
    var loc := NodeLocation(i, c);
    assert !PendingAt(t, loc);
    forall l ensures l in pending[loc := input] <==> PendingAt(t', l) {
      ReplacedPending(t, t', i, c, Pending(weight), l);
    }
  }

  /** Starting the unfold of an unscheduled child keeps the tree consistent. */
  lemma ScheduleStep(t: Tree, t': Tree, top: nat, labels: Labels, pending: map<Location, Input>, at: nat,
                     jobs: seq<Job>, i: nat, c: nat)
    requires TreeOk(t, top, labels, pending, at) && JobsOk(t, top, jobs, pending)
    requires HasChild(t, NodeLocation(i, c)) && t[i].children[c].Unscheduled?
    requires ChildReplaced(t, t', i, c, Pending(t[i].children[c].weight))
    ensures var pending' := pending[NodeLocation(i, c) := t[i].children[c].input];
            && TreeOk(t', top, labels, pending', at)
            && JobsOk(t', top, jobs + [Job(NodeLocation(i, c), t[i].children[c].input)], pending')
            && WorkTotal(t', labels, top) == WorkTotal(t, labels, top)
  {
    var ch := Pending(t[i].children[c].weight);
    var input := t[i].children[c].input;
    var pending' := pending[NodeLocation(i, c) := input];
    ReplacedLeafKeepsLinks(t, t', top, i, c, ch);
    assert Corresponds(t, labels, pending, i, c);
    ReplacedLeafKeepsLabels(t, t', top, labels, labels, pending, pending', i, c, ch);
    assert PassedOnly(t, labels, at, i);
    ReplacedLeafKeepsCursor(t, t', labels, at, i, c, ch);
    ReplacedSums(t, t', labels, labels, i, c, ch, top);
    AddJob(t, t', top, jobs, pending, i, c, ch.weight, input);
  }

  lemma ReplacedLeafKeepsLinks(t: Tree, t': Tree, top: nat, i: nat, c: nat, ch: Child)
    requires Linked(t, top)
    requires ChildReplaced(t, t', i, c, ch)
    requires !ch.Node? && !t[i].children[c].Node?
    ensures Linked(t', top)
  {
    forall j | j in t' && j != 0 ensures ParentLinked(t', j) {
      assert ParentLinked(t, j);
    }
    forall j, k | j in t' && 0 <= k < |t'[j].children| && t'[j].children[k].Node? ensures ChildLinked(t', j, k) {
      assert t[j].children[k] == t'[j].children[k];
      assert ChildLinked(t, j, k);
    }
  }

  lemma ReplacedLeafKeepsCursor(t: Tree, t': Tree, labels: Labels, at: nat, i: nat, c: nat, ch: Child)
    requires labels.Keys == t.Keys
    requires forall j :: j in t ==> labels[j].done <= |t[j].children|
    requires CursorOk(t, labels, at)
    requires ChildReplaced(t, t', i, c, ch)
    requires !t[i].children[c].Node?
    requires c < labels[i].done ==> ch.Yielded?
    ensures CursorOk(t', labels, at)
  {
    forall j | j in t' && j != 0 && (labels[j].done > 0 || j == at) ensures EnteredFrom(t', labels, j) {
      assert EnteredFrom(t, labels, j);
    }
    forall j | j in t' ensures PassedOnly(t', labels, at, j) {
      assert PassedOnly(t, labels, at, j);
    }
  }

  // ---------------------------------------------------------------- moving the cursor

  /** Moving only the cursor position forward keeps what every child stands for. */
  lemma RelabelKeepsTree(t: Tree, top: nat, labels: Labels, labels': Labels, pending: map<Location, Input>)
    requires Linked(t, top) && Labelled(t, labels, pending)
    requires labels'.Keys == labels.Keys
    requires forall i :: i in t ==> labels'[i].items == labels[i].items && labels'[i].after == labels[i].after
    requires forall i :: i in t ==> labels[i].done <= labels'[i].done <= |t[i].children|
    ensures Labelled(t, labels', pending)
  {
    forall i, c | i in t && 0 <= c < |t[i].children| ensures Corresponds(t, labels', pending, i, c) {
      assert Corresponds(t, labels, pending, i, c);
      if t[i].children[c].Node? {
        assert ChildLinked(t, i, c);
      }
    }
  }

  /** No node that the cursor went through, or is in, was entered from the cursor's own node. */
  lemma CursorNotAbove(t: Tree, top: nat, labels: Labels, at: nat, i: nat)
    requires Linked(t, top)
    requires labels.Keys == t.Keys
    requires forall j :: j in t ==> labels[j].done <= |t[j].children|
    requires CursorOk(t, labels, at)
    requires i in t && i != 0 && (labels[i].done > 0 || i == at)
    ensures EnteredFrom(t, labels, i)
    ensures t[i].parent.value.nodeIndex != at
  {
    assert EnteredFrom(t, labels, i);
    assert ParentLinked(t, i);
    var p := t[i].parent.value;
    assert ChildAt(t, p).Node?;
    assert PassedOnly(t, labels, at, p.nodeIndex);
  }

  /** The cursor moves forward within its node, over children that are now yielded. */
  lemma AdvanceCursor(t: Tree, t': Tree, top: nat, labels: Labels, at: nat, f: nat)
    requires Linked(t, top)
    requires labels.Keys == t.Keys == t'.Keys
    requires forall j :: j in t ==> labels[j].done <= |t[j].children| == |t'[j].children|
    requires forall j :: j in t ==> t'[j].parent == t[j].parent && (j != at ==> t'[j].children == t[j].children)
    requires CursorOk(t, labels, at)
    requires labels[at].done <= f <= |t[at].children|
    requires forall c :: 0 <= c < f ==> t'[at].children[c].Yielded?
    ensures CursorOk(t', labels[at := labels[at].(done := f)], at)
  {
    var labels' := labels[at := labels[at].(done := f)];
    forall i | i in t' && i != 0 && (labels'[i].done > 0 || i == at) ensures EnteredFrom(t', labels', i) {
      CursorNotAbove(t, top, labels, at, i);
    }
    forall i | i in t' ensures PassedOnly(t', labels', at, i) {
      assert PassedOnly(t, labels, at, i);
    }
  }

  /** The cursor skips children that are already yielded. */
  lemma SkipStep(t: Tree, top: nat, labels: Labels, pending: map<Location, Input>, at: nat, f: nat)
    requires TreeOk(t, top, labels, pending, at)
    requires labels[at].done <= f <= |t[at].children|
    requires forall c :: labels[at].done <= c < f ==> t[at].children[c].Yielded?
    ensures var labels' := labels[at := labels[at].(done := f)];
            && TreeOk(t, top, labels', pending, at)
            && Remaining(labels', at) == Remaining(labels, at)
            && Works(t, labels') == Works(t, labels)
  {
    var labels' := labels[at := labels[at].(done := f)];
    forall c | labels[at].done <= c < f ensures FlattenItem(labels[at].items[c]) == [] {
      assert Corresponds(t, labels, pending, at, c);
    }
    FlattenSkip(labels[at].items, labels[at].done, f);
    RelabelKeepsTree(t, top, labels, labels', pending);
    assert PassedOnly(t, labels, at, at);
    AdvanceCursor(t, t, top, labels, at, f);
  }

  /** The cursor's position may enter the child node it has reached. */
  lemma EnterCursor(t: Tree, top: nat, labels: Labels, at: nat, j: nat)
    requires Linked(t, top)
    requires labels.Keys == t.Keys
    requires forall j :: j in t ==> labels[j].done <= |t[j].children|
    requires CursorOk(t, labels, at)
    requires labels[at].done < |t[at].children| && t[at].children[labels[at].done].Node?
    requires j == t[at].children[labels[at].done].nodeIndex
    ensures j in t && j > at && labels[j].done == 0
    ensures CursorOk(t, labels[at := labels[at].(done := labels[at].done + 1)], j)
  {
    var c := labels[at].done;
    var labels' := labels[at := labels[at].(done := c + 1)];
    assert ChildLinked(t, at, c);
    assert labels[j].done > 0 ==> EnteredFrom(t, labels, j);
    forall i | i in t && i != 0 && (labels'[i].done > 0 || i == j) ensures EnteredFrom(t, labels', i) {
      if i != j {
        CursorNotAbove(t, top, labels, at, i);
      }
    }
    forall i | i in t ensures PassedOnly(t, labels', j, i) {
      assert PassedOnly(t, labels, at, i);
    }
  }

  /** The cursor enters a child node. */
  lemma EnterStep(t: Tree, top: nat, labels: Labels, pending: map<Location, Input>, at: nat)
    requires TreeOk(t, top, labels, pending, at)
    requires labels[at].done < |t[at].children| && t[at].children[labels[at].done].Node?
    ensures var j := t[at].children[labels[at].done].nodeIndex;
            var labels' := labels[at := labels[at].(done := labels[at].done + 1)];
            && j in t && j > at
            && labels'[j].done == 0
            && TreeOk(t, top, labels', pending, j)
            && Remaining(labels', j) == Remaining(labels, at)
            && Works(t, labels') == Works(t, labels)
  {
    var c := labels[at].done;
    var j := t[at].children[c].nodeIndex;
    assert Corresponds(t, labels, pending, at, c);
    EnterCursor(t, top, labels, at, j);
    FlattenStep(labels[at].items, c);
    assert labels[j].items[0..] == labels[j].items;
    RelabelKeepsTree(t, top, labels, labels[at := labels[at].(done := c + 1)], pending);
  }

  // ---------------------------------------------------------------- yielding

  /** A step that touches no pending child and keeps their number keeps the outstanding work. */
  lemma KeepJobs(t: Tree, t': Tree, top: nat, jobs: seq<Job>, pending: map<Location, Input>)
    requires JobsOk(t, top, jobs, pending)
    requires forall l :: PendingAt(t', l) <==> PendingAt(t, l)
    requires PendingTotal(t', top) == PendingTotal(t, top)
    ensures JobsOk(t', top, jobs, pending)
  {
    assert forall l :: l in pending <==> PendingAt(t', l);
  }

  lemma OutputTree(t: Tree, t': Tree, top: nat, labels: Labels, pending: map<Location, Input>, at: nat)
    requires TreeOk(t, top, labels, pending, at)
    requires labels[at].done < |t[at].children| && t[at].children[labels[at].done].Output?
    requires ChildReplaced(t, t', at, labels[at].done, Yielded)
    ensures var labels' := labels[at := labels[at].(done := labels[at].done + 1)];
            && TreeOk(t', top, labels', pending, at)
            && Remaining(labels, at) == [t[at].children[labels[at].done].out] + Remaining(labels', at)
  {
    var c := labels[at].done;
    var labels' := labels[at := labels[at].(done := c + 1)];
    assert Corresponds(t, labels, pending, at, c);
    FlattenStep(labels[at].items, c);
    ReplacedLeafKeepsLinks(t, t', top, at, c, Yielded);
    assert Corresponds(t', labels', pending, at, c);
    ReplacedLeafKeepsLabels(t, t', top, labels, labels', pending, pending, at, c, Yielded);
    assert PassedOnly(t, labels, at, at);
    AdvanceCursor(t, t', top, labels, at, c + 1);
  }

  /** The value under the cursor is emitted. */
  lemma OutputStep(t: Tree, t': Tree, top: nat, labels: Labels, pending: map<Location, Input>, at: nat, jobs: seq<Job>)
    requires TreeOk(t, top, labels, pending, at) && JobsOk(t, top, jobs, pending)
    requires labels[at].done < |t[at].children| && t[at].children[labels[at].done].Output?
    requires ChildReplaced(t, t', at, labels[at].done, Yielded)
    ensures var labels' := labels[at := labels[at].(done := labels[at].done + 1)];
            && TreeOk(t', top, labels', pending, at)
            && JobsOk(t', top, jobs, pending)
            && Remaining(labels, at) == [t[at].children[labels[at].done].out] + Remaining(labels', at)
            && WorkTotal(t', labels', top) == WorkTotal(t, labels, top)
  {
    var c := labels[at].done;
    OutputTree(t, t', top, labels, pending, at);
    ReplacedSums(t, t', labels, labels[at := labels[at].(done := c + 1)], at, c, Yielded, top);
    PendingKept(t, t', at, c, Yielded);
    KeepJobs(t, t', top, jobs, pending);
  }

  /** A node whose children are all yielded weighs nothing and holds no outstanding work. */
  lemma CompletedNode(n: NodeState, items: seq<OrderedTraversal>)
    requires LocalOk(n) && |n.children| == |items|
    requires forall c :: 0 <= c < |n.children| ==> n.children[c].Yielded?
    ensures n.remainingWeight == 0 && CountPending(n.children) == 0 && NodeWork(n.children, items) == 0
  {
    YieldedWeighsNothing(n.children, |n.children|);
    assert n.children[..|n.children|] == n.children;
    CompletedNodeCounts(n.children, items);
  }

  lemma {:induction false} CompletedNodeCounts(cs: seq<Child>, items: seq<OrderedTraversal>)
    requires |cs| == |items|
    requires forall c :: 0 <= c < |cs| ==> cs[c].Yielded?
    ensures CountPending(cs) == 0 && NodeWork(cs, items) == 0
  {
    if cs != [] {
      CompletedNodeCounts(cs[..|cs| - 1], items[..|cs| - 1]);
    }
  }

  /** Node `at` is completed: it is removed and its place in its parent becomes yielded. */
  ghost predicate NodeRemoved(t: Tree, t': Tree, at: nat) {
    && at in t && t[at].parent.Some?
    && at != t[at].parent.value.nodeIndex
    && ChildReplaced(t - {at}, t', t[at].parent.value.nodeIndex, t[at].parent.value.childIndex, Yielded)
  }

  lemma CompleteLinks(t: Tree, t': Tree, top: nat, at: nat)
    requires Linked(t, top) && NodeRemoved(t, t', at) && at != 0
    requires forall c :: 0 <= c < |t[at].children| ==> t[at].children[c].Yielded?
    ensures Linked(t', top)
  {
    assert ParentLinked(t, at);
    forall i | i in t' && i != 0 ensures ParentLinked(t', i) {
      assert ParentLinked(t, i);
      var q := t[i].parent.value;
      assert ChildLinked(t, q.nodeIndex, q.childIndex);
    }
    forall i, c | i in t' && 0 <= c < |t'[i].children| && t'[i].children[c].Node? ensures ChildLinked(t', i, c) {
      assert t[i].children[c] == t'[i].children[c];
      assert ChildLinked(t, i, c);
    }
  }

  lemma CompleteLabels(t: Tree, t': Tree, top: nat, labels: Labels, pending: map<Location, Input>, at: nat)
    requires Linked(t, top) && Labelled(t, labels, pending)
    requires NodeRemoved(t, t', at) && at != 0
    requires Linked(t', top)
    requires labels[t[at].parent.value.nodeIndex].done == t[at].parent.value.childIndex + 1
    ensures Labelled(t', labels - {at}, pending)
  {
    var loc := t[at].parent.value;
    var labels' := labels - {at};
    forall i, c | i in t' && 0 <= c < |t'[i].children| ensures Corresponds(t', labels', pending, i, c) {
      assert Corresponds(t, labels, pending, i, c);
      if NodeLocation(i, c) != loc {
        assert t'[i].children[c] == t[i].children[c];
        if t'[i].children[c].Node? {
          assert ChildLinked(t', i, c);
        }
      }
    }
  }

  lemma CompleteCursor(t: Tree, t': Tree, top: nat, labels: Labels, at: nat)
    requires Linked(t, top)
    requires labels.Keys == t.Keys
    requires forall j :: j in t ==> labels[j].done <= |t[j].children|
    requires CursorOk(t, labels, at)
    requires NodeRemoved(t, t', at) && at != 0
    ensures CursorOk(t', labels - {at}, t[at].parent.value.nodeIndex)
  {
    var p := t[at].parent.value.nodeIndex;
    var labels' := labels - {at};
    assert EnteredFrom(t, labels, at);
    forall i | i in t' && i != 0 && (labels'[i].done > 0 || i == p) ensures EnteredFrom(t', labels', i) {
      CursorNotAbove(t, top, labels, at, i);
    }
    forall i | i in t' ensures PassedOnly(t', labels', p, i) {
      assert PassedOnly(t, labels, at, i);
    }
  }

  lemma CompleteSums(t: Tree, t': Tree, labels: Labels, at: nat, top: nat)
    requires NodeRemoved(t, t', at) && labels.Keys == t.Keys
    requires forall k :: k in t ==> |t[k].children| == |labels[k].items|
    requires CountPending(t[at].children) == 0 && NodeWork(t[at].children, labels[at].items) == 0
    requires t[t[at].parent.value.nodeIndex].children[t[at].parent.value.childIndex].Node?
    ensures PendingTotal(t', top) == PendingTotal(t, top)
    ensures WorkTotal(t', labels - {at}, top) == WorkTotal(t, labels, top)
  {
    var loc := t[at].parent.value;
    var p := loc.nodeIndex;
    var labels' := labels - {at};
    NodeCountUpdate(t[p].children, loc.childIndex, Yielded);
    forall j | 0 <= j < top + 1 ensures At(PendingCounts(t), j) == At(PendingCounts(t'), j) {}
    SumSame(PendingCounts(t), PendingCounts(t'), top + 1);
    NodeWorkUpdate(t[p].children, labels[p].items, loc.childIndex, Yielded);
    forall j | 0 <= j < top + 1 ensures At(Works(t, labels), j) == At(Works(t', labels'), j) {}
    SumSame(Works(t, labels), Works(t', labels'), top + 1);
  }

  /** A completed node other than the root is removed and the cursor returns to its parent. */
  lemma CompleteStep(t: Tree, t': Tree, top: nat, labels: Labels, pending: map<Location, Input>, at: nat,
                     jobs: seq<Job>)
    requires TreeOk(t, top, labels, pending, at) && JobsOk(t, top, jobs, pending)
    requires at != 0
    requires labels[at].done == |t[at].children| && LocalOk(t[at])
    requires NodeRemoved(t, t', at)
    ensures var p := t[at].parent.value.nodeIndex;
            var labels' := labels - {at};
            && p in t' && p < at
            && labels'[p].done == t[at].parent.value.childIndex + 1
            && TreeOk(t', top, labels', pending, p)
            && JobsOk(t', top, jobs, pending)
            && Remaining(labels', p) == Remaining(labels, at)
            && WorkTotal(t', labels', top) == WorkTotal(t, labels, top)
  {
    var loc := t[at].parent.value;
    var p := loc.nodeIndex;
    assert ParentLinked(t, at);
    assert EnteredFrom(t, labels, at);
    assert PassedOnly(t, labels, at, at);
    assert Corresponds(t, labels, pending, p, loc.childIndex);
    CompletedNode(t[at], labels[at].items);
    CompleteLinks(t, t', top, at);
    CompleteLabels(t, t', top, labels, pending, at);
    CompleteCursor(t, t', top, labels, at);
    CompleteSums(t, t', labels, at, top);
    forall l ensures PendingAt(t', l) <==> PendingAt(t, l) {}
    KeepJobs(t, t', top, jobs, pending);
  }

  /** When the root completes, nothing is left: every value was emitted and no work is outstanding. */
  lemma RootComplete(t: Tree, top: nat, labels: Labels, pending: map<Location, Input>, jobs: seq<Job>)
    requires TreeOk(t, top, labels, pending, 0) && JobsOk(t, top, jobs, pending)
    requires labels[0].done == |t[0].children|
    requires LocalOk(t[0])
    ensures t.Keys == {0}
    ensures t[0].remainingWeight == 0
    ensures Remaining(labels, 0) == []
    ensures jobs == []
  {
    assert PassedOnly(t, labels, 0, 0);
    CompletedNode(t[0], labels[0].items);
    forall i | i in t ensures i == 0 {
      OnlyRoot(t, top, i);
    }
    assert forall j :: 0 <= j < top + 1 ==> At(PendingCounts(t), j) == At(map[], j);
    SumSame(PendingCounts(t), map[], top + 1);
    SumEmpty(top + 1);
  }

  lemma {:induction false} SumEmpty(n: nat)
    ensures Sum(map[], n) == 0
  {
    if n > 0 {
      SumEmpty(n - 1);
    }
  }

  lemma {:induction false} OnlyRoot(t: Tree, top: nat, i: nat)
    requires Linked(t, top) && i in t
    requires forall c :: 0 <= c < |t[0].children| ==> !t[0].children[c].Node?
    ensures i == 0
    decreases i
  {
    if i != 0 {
      assert ParentLinked(t, i);
      OnlyRoot(t, top, t[i].parent.value.nodeIndex);
    }
  }

  // ---------------------------------------------------------------- completed unfolds

  lemma RemoveJob(jobs: seq<Job>, a: nat, loc: Location, pending: map<Location, Input>)
    requires a < |jobs| && jobs[a].location == loc
    requires forall a :: 0 <= a < |jobs| ==> jobs[a].location in pending && pending[jobs[a].location] == jobs[a].input
    requires forall a, b :: 0 <= a < b < |jobs| ==> jobs[a].location != jobs[b].location
    ensures var jobs' := jobs[..a] + jobs[a + 1..];
            && (forall b :: 0 <= b < |jobs'| ==>
                 jobs'[b].location != loc && jobs'[b].location in pending
                   && pending[jobs'[b].location] == jobs'[b].input)
            && (forall b, d :: 0 <= b < d < |jobs'| ==> jobs'[b].location != jobs'[d].location)
  {
    var jobs' := jobs[..a] + jobs[a + 1..];
    forall b | 0 <= b < |jobs'| ensures jobs'[b] == jobs[if b < a then b else b + 1] {}
  }

  /** The job of a child that is no longer pending is gone. */
  lemma JobDone(t: Tree, t': Tree, top: nat, top': nat, jobs: seq<Job>, pending: map<Location, Input>, a: nat)
    requires JobsOk(t, top, jobs, pending) && a < |jobs|
    requires forall l :: PendingAt(t', l) <==> PendingAt(t, l) && l != jobs[a].location
    requires PendingTotal(t', top') + 1 == PendingTotal(t, top)
    ensures JobsOk(t', top', jobs[..a] + jobs[a + 1..], pending - {jobs[a].location})
  {
    RemoveJob(jobs, a, jobs[a].location, pending);
    forall l ensures l in pending - {jobs[a].location} <==> PendingAt(t', l) {
      assert l in pending <==> PendingAt(t, l);
    }
  }

  lemma UnfoldEmptyTree(t: Tree, t': Tree, top: nat, labels: Labels, pending: map<Location, Input>, at: nat,
                        loc: Location)
    requires TreeOk(t, top, labels, pending, at)
    requires loc in pending && pending[loc].items == [] && PendingAt(t, loc)
    requires ChildReplaced(t, t', loc.nodeIndex, loc.childIndex, Yielded)
    ensures TreeOk(t', top, labels, pending - {loc}, at)
    ensures labels[loc.nodeIndex].items[loc.childIndex].Recurse?
  {
    var i, c := loc.nodeIndex, loc.childIndex;
    assert Corresponds(t, labels, pending, i, c);
    assert FlattenItem(labels[i].items[c]) == [];
    assert PassedOnly(t, labels, at, i);
    ReplacedLeafKeepsLinks(t, t', top, i, c, Yielded);
    ReplacedLeafKeepsLabels(t, t', top, labels, labels, pending, pending - {loc}, i, c, Yielded);
    ReplacedLeafKeepsCursor(t, t', labels, at, i, c, Yielded);
  }

  /** An unfold that produced nothing leaves a yielded child behind. */
  lemma UnfoldEmptyStep(t: Tree, t': Tree, top: nat, labels: Labels, pending: map<Location, Input>, at: nat,
                        jobs: seq<Job>, a: nat)
    requires TreeOk(t, top, labels, pending, at) && JobsOk(t, top, jobs, pending)
    requires a < |jobs| && jobs[a].input.items == []
    requires PendingAt(t, jobs[a].location)
    requires ChildReplaced(t, t', jobs[a].location.nodeIndex, jobs[a].location.childIndex, Yielded)
    ensures var pending' := pending - {jobs[a].location};
            && TreeOk(t', top, labels, pending', at)
            && JobsOk(t', top, jobs[..a] + jobs[a + 1..], pending')
            && WorkTotal(t', labels, top) < WorkTotal(t, labels, top)
  {
    var loc := jobs[a].location;
    var i, c := loc.nodeIndex, loc.childIndex;
    UnfoldEmptyTree(t, t', top, labels, pending, at, loc);
    ReplacedSums(t, t', labels, labels, i, c, Yielded, top);
    PendingGone(t, t', i, c, Yielded);
    JobDone(t, t', top, top, jobs, pending, a);
  }

  /** The children of a node fresh from an unfold. */
  ghost predicate FreshChildren(cs: seq<Child>, items: seq<OrderedTraversal>) {
    && |cs| == |items|
    && forall c :: 0 <= c < |cs| ==>
        if items[c].Output? then cs[c] == Child.Output(items[c].out)
        else cs[c].Unscheduled? && cs[c].input == items[c].input
             && cs[c].weight == (if items[c].weight == 0 then 1 else items[c].weight)
  }

  lemma {:induction false} FreshCounts(cs: seq<Child>, items: seq<OrderedTraversal>, k: nat)
    requires FreshChildren(cs, items) && k <= |cs|
    ensures CountPending(cs[..k]) == 0
    ensures NodeWork(cs[..k], items[..k]) == Size(items[..k])
  {
    if k > 0 {
      FreshCounts(cs, items, k - 1);
      CountStep(cs, k - 1);
      WorkStep(cs, items, k - 1);
      SizeSnoc(items[..k - 1], items[k - 1]);
      assert items[..k] == items[..k - 1] + [items[k - 1]];
    }
  }

  lemma {:induction false} SizeSnoc(items: seq<OrderedTraversal>, item: OrderedTraversal)
    ensures Size(items + [item]) == Size(items) + ItemSize(item)
  {
    if items != [] {
      SizeSnoc(items[1..], item);
      assert (items + [item])[1..] == items[1..] + [item];
    } else {
      assert (items + [item])[1..] == [];
    }
  }

  /** The label of a node that was unfolded at `loc`. */
  ghost function UnfoldedLabel(labels: Labels, loc: Location, items: seq<OrderedTraversal>): Label
    requires loc.nodeIndex in labels && loc.childIndex < |labels[loc.nodeIndex].items|
  {
    Label(items, 0, Flatten(labels[loc.nodeIndex].items[loc.childIndex + 1..]) + labels[loc.nodeIndex].after)
  }

  /** Node `j` was added to the tree in place of the pending child at `loc`. */
  ghost predicate NodeAdded(t: Tree, t': Tree, j: nat, loc: Location, weight: nat, items: seq<OrderedTraversal>) {
    && j !in t && j in t' && t'[j].parent == Some(loc)
    && FreshChildren(t'[j].children, items)
    && PendingAt(t, loc)
    && ChildReplaced(t, t' - {j}, loc.nodeIndex, loc.childIndex, Node(weight, j))
  }

  lemma UnfoldLinks(t: Tree, t': Tree, top: nat, loc: Location, weight: nat, items: seq<OrderedTraversal>)
    requires Linked(t, top) && NodeAdded(t, t', top + 1, loc, weight, items)
    ensures Linked(t', top + 1)
  {
    var j := top + 1;
    assert forall k :: k in t' && k != j ==> k in t' - {j};
    forall k | k in t' && k != 0 ensures ParentLinked(t', k) {
      if k != j {
        assert ParentLinked(t, k);
      }
    }
    forall k, d | k in t' && 0 <= d < |t'[k].children| && t'[k].children[d].Node? ensures ChildLinked(t', k, d) {
      if k != j && NodeLocation(k, d) != loc {
        assert t[k].children[d] == t'[k].children[d];
        assert ChildLinked(t, k, d);
      }
    }
  }

  lemma UnfoldLabels(t: Tree, t': Tree, top: nat, labels: Labels, pending: map<Location, Input>, loc: Location,
                     weight: nat, input: Input)
    requires Linked(t, top) && Linked(t', top + 1) && Labelled(t, labels, pending)
    requires NodeAdded(t, t', top + 1, loc, weight, input.items)
    requires loc in pending && pending[loc] == input
    ensures loc.nodeIndex in labels && loc.childIndex < |labels[loc.nodeIndex].items|
    ensures Labelled(t', labels[top + 1 := UnfoldedLabel(labels, loc, input.items)], pending - {loc})
  {
    var j := top + 1;
    assert Corresponds(t, labels, pending, loc.nodeIndex, loc.childIndex);
    var labels' := labels[j := UnfoldedLabel(labels, loc, input.items)];
    assert forall k :: k in t' && k != j ==> k in t' - {j};
    forall k, d | k in t' && 0 <= d < |t'[k].children| ensures Corresponds(t', labels', pending - {loc}, k, d) {
      if k != j && NodeLocation(k, d) != loc {
        assert t[k].children[d] == t'[k].children[d];
        assert Corresponds(t, labels, pending, k, d);
        if t'[k].children[d].Node? {
          assert ChildLinked(t, k, d);
        }
      }
    }
  }

  lemma UnfoldCursor(t: Tree, t': Tree, top: nat, labels: Labels, newLabel: Label, at: nat, loc: Location,
                     weight: nat, items: seq<OrderedTraversal>)
    requires Linked(t, top) && Linked(t', top + 1)
    requires NodeAdded(t, t', top + 1, loc, weight, items)
    requires labels.Keys == t.Keys
    requires forall j :: j in t ==> labels[j].done <= |t[j].children|
    requires CursorOk(t, labels, at) && newLabel.done == 0
    ensures CursorOk(t', labels[top + 1 := newLabel], at)
  {
    var j := top + 1;
    var labels' := labels[j := newLabel];
    assert forall k :: k in t' && k != j ==> k in t' - {j};
    assert PassedOnly(t, labels, at, loc.nodeIndex);
    forall k | k in t' && k != 0 && (labels'[k].done > 0 || k == at) ensures EnteredFrom(t', labels', k) {
      assert EnteredFrom(t, labels, k);
      assert ParentLinked(t, k);
    }
    forall k | k in t' ensures PassedOnly(t', labels', at, k) {
      if k != j {
        assert PassedOnly(t, labels, at, k);
      }
    }
  }

  /** An unfold that produced something becomes a node of the tree. */
  lemma UnfoldNodeStep(t: Tree, t': Tree, top: nat, labels: Labels, pending: map<Location, Input>, at: nat,
                       jobs: seq<Job>, a: nat, weight: nat)
    requires TreeOk(t, top, labels, pending, at) && JobsOk(t, top, jobs, pending)
    requires a < |jobs|
    requires NodeAdded(t, t', top + 1, jobs[a].location, weight, jobs[a].input.items)
    ensures var pending' := pending - {jobs[a].location};
            var loc := jobs[a].location;
            && loc.nodeIndex in labels && loc.childIndex < |labels[loc.nodeIndex].items|
            && var labels' := labels[top + 1 := UnfoldedLabel(labels, loc, jobs[a].input.items)];
            && TreeOk(t', top + 1, labels', pending', at)
            && JobsOk(t', top + 1, jobs[..a] + jobs[a + 1..], pending')
            && Remaining(labels', at) == Remaining(labels, at)
            && WorkTotal(t', labels', top + 1) < WorkTotal(t, labels, top)
  {
    var loc := jobs[a].location;
    var input := jobs[a].input;
    assert Corresponds(t, labels, pending, loc.nodeIndex, loc.childIndex);
    UnfoldLinks(t, t', top, loc, weight, input.items);
    UnfoldLabels(t, t', top, labels, pending, loc, weight, input);
    UnfoldCursor(t, t', top, labels, UnfoldedLabel(labels, loc, input.items), at, loc, weight, input.items);
    UnfoldNodeCounts(t, t', top, jobs[a], weight);
    UnfoldNodeWorks(t, t', top, labels, jobs[a], weight);
    forall l ensures PendingAt(t', l) <==> PendingAt(t, l) && l != loc {
      var j := top + 1;
      assert l.nodeIndex in t' && l.nodeIndex != j ==> l.nodeIndex in t' - {j};
      assert l.nodeIndex in t ==> l.nodeIndex in t' - {j};
    }
    JobDone(t, t', top, top + 1, jobs, pending, a);
  }

  lemma UnfoldNodeCounts(t: Tree, t': Tree, top: nat, job: Job, weight: nat)
    requires forall i :: i in t ==> i <= top
    requires NodeAdded(t, t', top + 1, job.location, weight, job.input.items)
    ensures PendingTotal(t', top + 1) + 1 == PendingTotal(t, top)
  {
    var j := top + 1;
    var i, c := job.location.nodeIndex, job.location.childIndex;
    assert i in t' - {j};
    var cs, items := t'[j].children, job.input.items;
    FreshCounts(cs, items, |cs|);
    assert cs[..|cs|] == cs;
    NodeCountUpdate(t[i].children, c, Node(weight, j));
    forall k | 0 <= k < top + 1 && k != i ensures At(PendingCounts(t), k) == At(PendingCounts(t'), k) {
      assert k in t' ==> k in t' - {j};
      assert k in t ==> k in t' - {j};
    }
    SumChange(PendingCounts(t), PendingCounts(t'), i, top + 1);
  }

  lemma UnfoldNodeWorks(t: Tree, t': Tree, top: nat, labels: Labels, job: Job, weight: nat)
    requires labels.Keys == t.Keys
    requires forall i :: i in t ==> i <= top && |t[i].children| == |labels[i].items|
    requires NodeAdded(t, t', top + 1, job.location, weight, job.input.items)
    requires labels[job.location.nodeIndex].items[job.location.childIndex].Recurse?
    requires labels[job.location.nodeIndex].items[job.location.childIndex].input == job.input
    ensures WorkTotal(t', labels[top + 1 := UnfoldedLabel(labels, job.location, job.input.items)], top + 1)
          < WorkTotal(t, labels, top)
  {
    var j := top + 1;
    var i, c := job.location.nodeIndex, job.location.childIndex;
    var labels' := labels[j := UnfoldedLabel(labels, job.location, job.input.items)];
    assert i in t' - {j};
    var cs, items := t'[j].children, job.input.items;
    FreshCounts(cs, items, |cs|);
    assert cs[..|cs|] == cs && items[..|cs|] == items;
    NodeWorkUpdate(t[i].children, labels[i].items, c, Node(weight, j));
    forall k | 0 <= k < top + 1 && k != i ensures At(Works(t, labels), k) == At(Works(t', labels'), k) {
      assert k in t' ==> k in t' - {j};
      assert k in t ==> k in t' - {j};
    }
    SumChange(Works(t, labels), Works(t', labels'), i, top + 1);
  }
}
