/** The traversal of a directed graph with memoised results. */
module Dag {
  import opened Common
  import opened Digraph
  import opened DagFold
  import opened DagTree
  import opened Jobs
  import opened Slots

  datatype Poll = Ready(output: Option<Out>) | PollPending

  ghost predicate UniverseOk(pb: Problem, universe: set<In>) {
    pb.init in universe && forall v, c ::
      v in universe && 0 <= c < |pb.unfold(v).children| ==> pb.unfold(v).children[c] in universe
  }

  /** The whole graph. */
  ghost function Whole(pb: Problem, universe: set<In>): Graph {
    map v | v in universe :: pb.unfold(v).children
  }

  /** What the traversal returns.  Everything that can be reached was unfolded once, on the children it was
      given, and was folded once if it has a recursive fold; the result is the recursive fold of `pb.init`. */
  ghost predicate Answer(pb: Problem, limit: Option<nat>, universe: set<In>, b: Book, result: Option<Out>) {
    && Closed(b.eff) && pb.init in b.eff && (limit == None ==> b.eff.Keys <= universe)
    && result == RecFold(pb, b.eff, pb.init)
    && (forall i, j :: 0 <= i < j < |b.unfolds| ==> b.unfolds[i] != b.unfolds[j])
    && (forall i, j :: 0 <= i < j < |b.folds| ==> b.folds[i] != b.folds[j])
    && (forall v :: v in b.unfolds <==> v in b.eff)
    && (forall v {:trigger b.eff[v]} :: v in b.eff ==> Reachable(b.eff, pb.init, v))
    && (forall v {:trigger b.eff[v]} :: v in b.eff ==> (v in b.folds <==> RecFold(pb, b.eff, v).Some?))
    && (forall v {:trigger b.eff[v]} :: v in b.eff ==> ChildrenOk(pb, limit, |b.eff|, v, b.eff[v]))
    && (limit.Some? ==> |b.eff| <= if limit.value == 0 then 1 else limit.value)
  }

  /** Without a limit, the result is the recursive fold on the whole graph, and there is none exactly when a
      cycle can be reached; and `unfold` was called for exactly what can be reached. */
  lemma UnlimitedAnswer(pb: Problem, universe: set<In>, b: Book, result: Option<Out>)
    requires UniverseOk(pb, universe) && Answer(pb, None, universe, b, result)
    ensures result == RecFold(pb, Whole(pb, universe), pb.init)
    ensures result == None <==> ReachesCycle(Whole(pb, universe), pb.init)
    ensures forall v :: v in b.unfolds <==> Reachable(Whole(pb, universe), pb.init, v)
  {
    var g := Whole(pb, universe);
    forall v | v in b.eff ensures v in g && g[v] == b.eff[v] {
      assert ChildrenOk(pb, None, |b.eff|, v, b.eff[v]);
    }
    RecFoldInPart(pb, b.eff, g, pb.init);
    FoldExists(pb, g, pb.init);
    forall v ensures v in b.unfolds <==> Reachable(g, pb.init, v) {
      ReachableInPart(b.eff, g, pb.init, v);
      assert v in b.eff ==> b.eff[v] == g[v];
      assert Reachable(b.eff, pb.init, v) ==> v in b.eff;
    }
  }

  lemma DoneAdded(t: Tree, t': Tree, value: In)
    requires value in t && t[value].Pending? && value in t' && t'[value].Done? && t' == t[value := t'[value]]
    ensures |DoneValues(t')| == |DoneValues(t)| + 1
  {
    OneMoreExactly(DoneValues(t), DoneValues(t'), value);
  }

  /** What `EnqueueUnfold` is called for: the next child `w` of `v`. */
  ghost predicate ChildEnqueued(t: Tree, b: Book, v: In, w: In, t': Tree, out: Option<Out>) {
    && v in b.eff
    && (w !in t ==> t' == t[w := Pending([NodeLocation(v, |b.eff[v]|)], None)] && out == None)
    && (w in t && t[w].Done? ==> t' == t && out == Some(t[w].out))
    && (w in t && t[w].Pending? ==>
          t' == t[w := t[w].(parents := t[w].parents + [NodeLocation(v, |b.eff[v]|)])] && out == None)
  }

  lemma RecordInvariant(pb: Problem, t: Tree, b: Book, v: In, w: In, t': Tree, out: Option<Out>) returns (b': Book)
    requires Kept(pb, t, b, {v}) && Open(t, b, v) && ChildEnqueued(t, b, v, w, t', out)
    ensures Kept(pb, t', b', {v}) && Open(t', b', v)
    ensures w !in t ==> w !in b.work && b' == AddNew(b, v, w)
    ensures w in t && t[w].Pending? ==> w in b.links && b' == AddLink(b, v, w)
    ensures w in t && t[w].Done? ==> b' == AddSlot(b, v, w, out)
  {
    assert Look(Part.GraphTree);
    if w !in t {
      ChildNew(pb, t, b, v, w);
      b' := AddNew(b, v, w);
    } else if t[w].Pending? {
      ChildPending(pb, t, b, v, w);
      b' := AddLink(b, v, w);
    } else {
      ChildDone(pb, t, b, v, w);
      b' := AddSlot(b, v, w, out);
    }
  }

  /** What `EnqueueUnfold` did to the execution tree, in the record. */
  lemma RecordChild(pb: Problem, t: Tree, b: Book, v: In, w: In, t': Tree, out: Option<Out>) returns (b': Book)
    requires Kept(pb, t, b, {v}) && Open(t, b, v) && ChildEnqueued(t, b, v, w, t', out)
    ensures Kept(pb, t', b', {v}) && Open(t', b', v) && w in t'
    ensures b'.eff == b.eff[v := b.eff[v] + [w]] && v in b'.slots && b'.slots[v] == b.slots[v] + [out]
    ensures b'.work == (if w in t then b.work else b.work[w := Unfold]) && (w !in t ==> w !in b.work)
    ensures b'.unfolds == (if w in t then b.unfolds else b.unfolds + [w]) && b'.folds == b.folds
    ensures v in t' && t'[v].Pending? && t'[v].children == t[v].children && t'.Keys == t.Keys + {w}
  {
    b' := RecordInvariant(pb, t, b, v, w, t', out);
  }

  lemma OneMore<T>(s: set<T>, s': set<T>, x: T)
    requires s' == s + {x}
    ensures |s| <= |s'| <= |s| + 1
  {
    if x in s {
      assert s' == s;
    }
  }

  lemma OneMoreExactly<T>(s: set<T>, s': set<T>, x: T)
    requires s' == s + {x} && x !in s
    ensures |s'| == |s| + 1
  {
  }

  lemma SubsetSize<T>(s: set<T>, s': set<T>)
    requires s <= s'
    ensures |s| <= |s'|
  {
    assert s' == s + (s' - s);
  }

  ghost function DoneValues(t: Tree): set<In> {
    set v | v in t && t[v].Done?
  }

  /** The children given to others stay enough while the tree grows within the limit. */
  lemma GivenLater(pb: Problem, limit: Option<nat>, t: Tree, b: Book, t': Tree, b': Book, busy: set<In>)
    requires AllGiven(pb, limit, t, b, busy) && |t| <= |t'| && (limit.Some? ==> |t'| <= limit.value || |t'| == |t|)
    requires forall v :: v in b'.eff && v !in busy ==> v in b.eff && b'.eff[v] == b.eff[v]
    ensures AllGiven(pb, limit, t', b', busy)
  {
    forall v | v in b'.eff && v !in busy ensures ChildrenOk(pb, limit, |t'|, v, b'.eff[v]) {
      assert ChildrenOk(pb, limit, |t|, v, b.eff[v]);
    }
  }

  lemma GivenNow(pb: Problem, limit: Option<nat>, t: Tree, b: Book, busy: set<In>, v: In)
    requires AllGiven(pb, limit, t, b, busy + {v}) && v in b.eff && ChildrenOk(pb, limit, |t|, v, b.eff[v])
    ensures AllGiven(pb, limit, t, b, busy)
  {
    assert forall u :: u in b.eff && u !in busy && u != v ==> u !in busy + {v};
  }

  ghost function InitialBook(pb: Problem): Book {
    Book(map[pb.init := Unfold], map[], map[], map[pb.init := [NodeLocation(pb.init, 0)]], [pb.init], [])
  }

  lemma Initially(pb: Problem)
    ensures Kept(pb, map[pb.init := Pending([NodeLocation(pb.init, 0)], None)], InitialBook(pb), {})
    ensures |map[pb.init := Pending([NodeLocation(pb.init, 0)], None)]| == 1 && |InitialBook(pb).work| == 1
  {
  }

  class BoundedTraversalDAG {
    const pb: Problem
    const scheduledMax: nat
    const unfoldLimit: Option<nat>
    var scheduled: seq<Task>
    var unscheduled: seq<Task>
    var executionTree: Tree

    /** Without a limit, a finite set that contains everything below `pb.init`. */
    ghost const universe: set<In>
    ghost var book: Book
    /** The calls of `unfold` and `fold`. */
    ghost var unfoldCalls: seq<In>
    ghost var foldCalls: seq<In>

    ghost function Jobs(): seq<Task>
      reads `scheduled, `unscheduled
    {
      scheduled + unscheduled
    }

    /** The invariant, while the values in `busy` are processed and `work` is outstanding. */
    ghost predicate Processing(busy: set<In>, work: map<In, Work>)
      reads this
    {
      && Kept(pb, executionTree, book, busy)
      && JobsOk(Jobs(), work)
      && |scheduled| <= scheduledMax && scheduledMax >= 1
      && AllGiven(pb, unfoldLimit, executionTree, book, busy)
      && book.unfolds == unfoldCalls && book.folds == foldCalls
      && Covered()
    }

    /** Without a limit, only values of the universe are found. */
    ghost predicate Covered()
      reads `executionTree
    {
      unfoldLimit == None ==> UniverseOk(pb, universe) && executionTree.Keys <= universe
    }

    ghost predicate Valid()
      reads this
    {
      Processing({}, book.work)
    }

    /** No more values than this are ever unfolded. */
    ghost function Bound(): nat {
      match unfoldLimit
      case None => |universe|
      case Some(limit) => if limit == 0 then 1 else limit
    }

    /** The futures that run, and those that are queued. */
    ghost function Now(): Lanes<Task>
      reads `scheduled, `unscheduled
    {
      Lanes(scheduled, unscheduled)
    }

    /** New futures are queued in front of the others. */
    twostate predicate QueuedFirst()
      reads `scheduled, `unscheduled
    {
      scheduled == old(scheduled) && EndsWith(unscheduled, old(unscheduled))
    }

    /** What is left to do. */
    ghost function ToUnfold(): nat
      reads this
    {
      SaturatingSub(Bound(), |book.eff.Keys|)
    }

    ghost function ToFold(): nat
      reads this
    {
      SaturatingSub(Bound(), |DoneValues(executionTree)|)
    }

    /** Less is left to unfold than `unfolds`, or as much and less to fold than `folds`. */
    ghost predicate Nearer(unfolds: nat, folds: nat)
      reads this
    {
      ToUnfold() < unfolds || (ToUnfold() == unfolds && ToFold() < folds)
    }

    lemma WithinBound(busy: set<In>, work: map<In, Work>)
      requires Processing(busy, work)
      ensures |book.eff.Keys| <= Bound() && |DoneValues(executionTree)| <= Bound()
    {
      assert Look(Part.GraphTree);
      assert |executionTree.Keys| == |executionTree|;
      if unfoldLimit == None {
        SubsetSize(executionTree.Keys, universe);
      }
      SubsetSize(book.eff.Keys, executionTree.Keys);
      SubsetSize(DoneValues(executionTree), executionTree.Keys);
    }

    /** Starts the unfold of `value`, unless it was seen before; otherwise its result, if there is one. */
    method EnqueueUnfold(parent: Location, value: In) returns (out: Option<Out>)
      modifies `executionTree, `unscheduled, `unfoldCalls
      ensures value !in old(executionTree) ==>
                && executionTree == old(executionTree)[value := Pending([parent], None)] && out == None
                && unscheduled == [Job(value, Unfold)] + old(unscheduled) && unfoldCalls == old(unfoldCalls) + [value]
      ensures value in old(executionTree) ==> unscheduled == old(unscheduled) && unfoldCalls == old(unfoldCalls)
      ensures value in old(executionTree) && old(executionTree)[value].Done? ==>
                executionTree == old(executionTree) && out == Some(executionTree[value].out)
      ensures value in old(executionTree) && old(executionTree)[value].Pending? ==>
                var node := old(executionTree)[value];
                executionTree == old(executionTree)[value := node.(parents := node.parents + [parent])] && out == None
    {
      if value !in executionTree {
        executionTree := executionTree[value := Pending([parent], None)];
        unscheduled := [Job(value, Unfold)] + unscheduled;
        unfoldCalls := unfoldCalls + [value];
        return None;
      }
      match executionTree[value] {
        case Pending(parents, children) =>
          executionTree := executionTree[value := Pending(parents + [parent], children)];
          return None;
        case Done(result) => return Some(result);
      }
    }

    method EnqueueFold(value: In, context: OutCtx, children: seq<Out>)
      modifies `unscheduled, `foldCalls
      ensures unscheduled == [Job(value, Fold(context, children))] + old(unscheduled)
      ensures foldCalls == old(foldCalls) + [value]
    {
      unscheduled := [Job(value, Fold(context, children))] + unscheduled;
      foldCalls := foldCalls + [value];
    }

    /** The next child of `value`, which was seen before or not. */
    method EnqueueChild(value: In, childIndex: nat, child: In) returns (out: Option<Out>)
      requires Processing({value}, book.work) && Open(executionTree, book, value)
      requires childIndex == |book.eff[value]| && (unfoldLimit == None ==> child in universe)
      requires unfoldLimit.Some? ==> |executionTree| < unfoldLimit.value
      modifies `executionTree, `unscheduled, `unfoldCalls, `book
      ensures Processing({value}, book.work) && Open(executionTree, book, value)
      ensures book.eff == old(book.eff)[value := old(book.eff[value]) + [child]]
      ensures book.slots[value] == old(book.slots[value]) + [out]
      ensures executionTree[value].children == old(executionTree[value].children)
      ensures old(|executionTree|) <= |executionTree| <= old(|executionTree|) + 1
      ensures QueuedFirst()
    {
      ghost var t, b := executionTree, book;
      out := EnqueueUnfold(NodeLocation(value, childIndex), child);
      EndsWithItself(old(unscheduled));
      EndsBehind(Job(child, Unfold), old(unscheduled));
      book := RecordChild(pb, t, b, value, child, executionTree, out);
      if child !in t {
        JobAdded(scheduled, old(unscheduled), Job(child, Unfold), b.work);
      }
      OneMore(t.Keys, executionTree.Keys, child);
      assert |t| == |t.Keys| && |executionTree| == |executionTree.Keys|;
      GivenLater(pb, unfoldLimit, t, b, executionTree, book, {value});
    }

    /** All children of `value` are done: its fold starts. */
    method FoldReady(value: In, context: OutCtx, slots: seq<Option<Out>>, ghost busy: set<In>)
      requires Processing(busy + {value}, book.work) && Open(executionTree, book, value)
      requires executionTree[value].children == None && book.slots[value] == slots && CountNone(slots) == 0
      requires context == pb.unfold(value).context
      requires ChildrenOk(pb, unfoldLimit, |executionTree|, value, book.eff[value])
      modifies `unscheduled, `foldCalls, `book
      ensures Processing(busy, book.work) && book == StartingFold(pb, old(book), value) && QueuedFirst()
    {
      StartFold(pb, executionTree, book, busy, value);
      GivenNow(pb, unfoldLimit, executionTree, book, busy, value);
      assert executionTree == executionTree[value := Pending(book.links[value], None)];
      JobAdded(scheduled, unscheduled, Job(value, Fold(context, Flatten(slots))), book.work);
      book := StartingFold(pb, book, value);
      EndsBehind(Job(value, Fold(context, Flatten(slots))), unscheduled);
      EnqueueFold(value, context, Flatten(slots));
    }

    /** The children of `value`, one after the other; `childrenLeft` of them have no result yet. */
    method EnqueueChildren(value: In, children: seq<In>) returns (outs: seq<Option<Out>>, childrenLeft: nat)
      requires Processing({value}, book.work) && Open(executionTree, book, value)
      requires book.eff[value] == [] && book.slots[value] == [] && executionTree[value].children == None
      requires unfoldLimit == None ==> forall c :: 0 <= c < |children| ==> children[c] in universe
      requires unfoldLimit.Some? ==> |children| <= SaturatingSub(unfoldLimit.value, |executionTree|)
      modifies `executionTree, `unscheduled, `unfoldCalls, `book
      ensures Processing({value}, book.work) && Open(executionTree, book, value)
      ensures executionTree[value].children == None && book.eff.Keys == old(book.eff.Keys)
      ensures book.eff[value] == children && book.slots[value] == outs && CountNone(outs) == childrenLeft
      ensures old(|executionTree|) <= |executionTree| && QueuedFirst()
    {
      outs, childrenLeft := [], 0;
      EndsWithItself(unscheduled);
      for childIndex := 0 to |children|
        invariant Processing({value}, book.work) && Open(executionTree, book, value)
        invariant executionTree[value].children == None && book.eff.Keys == old(book.eff.Keys)
        invariant book.eff[value] == children[..childIndex] && book.slots[value] == outs
                  && CountNone(outs) == childrenLeft
        invariant old(|executionTree|) <= |executionTree| <= old(|executionTree|) + childIndex
        invariant QueuedFirst()
      {
        ghost var queue := unscheduled;
        var out := EnqueueChild(value, childIndex, children[childIndex]);
        EndsWithin(unscheduled, queue, old(unscheduled));
        CountNoneAppend(outs, out);
        if out.None? {
          childrenLeft := childrenLeft + 1;
        }
        outs := outs + [out];
      }
      assert children[..|children|] == children;
    }

    /** `value` has to wait for its children. */
    method BlockNode(value: In, context: OutCtx, outs: seq<Option<Out>>, childrenLeft: nat)
      requires Processing({value}, book.work) && Open(executionTree, book, value)
      requires book.slots[value] == outs && CountNone(outs) == childrenLeft > 0 && context == pb.unfold(value).context
      requires ChildrenOk(pb, unfoldLimit, |executionTree|, value, book.eff[value])
      modifies `executionTree
      ensures Processing({}, book.work)
    {
      Block(pb, executionTree, book, {}, value);
      GivenNow(pb, unfoldLimit, executionTree, book, {}, value);
      match executionTree[value] {
        case Pending(parents, _) =>
          executionTree := executionTree[value := Pending(parents, Some(Children(context, outs, childrenLeft)))];
        case Done(_) => assert false;
      }
      assert |executionTree.Keys| == |executionTree| && executionTree.Keys == old(executionTree.Keys);
    }

    ghost method StartProcessing(value: In)
      requires value in book.work && book.work[value].Unfold? && Processing({}, book.work - {value})
      modifies `book
      ensures book == Unfolding(old(book), value) && Processing({value}, book.work) && Open(executionTree, book, value)
      ensures executionTree[value].children == None && value !in old(book.eff)
      ensures book.eff.Keys == old(book.eff.Keys) + {value} && (unfoldLimit == None ==> value in universe)
    {
      BeginUnfold(pb, executionTree, book, value);
      book := Unfolding(book, value);
    }

    /** The children that are unfolded: under a limit, as many as there is room for. */
    function Taken(children: seq<In>): (taken: seq<In>)
      reads `executionTree
      ensures taken <= children
      ensures unfoldLimit == None ==> taken == children
      ensures unfoldLimit.Some? ==> |taken| == Min(|children|, SaturatingSub(unfoldLimit.value, |executionTree|))
    {
      match unfoldLimit
      case None => children
      case Some(limit) => children[..Min(|children|, SaturatingSub(limit, |executionTree|))]
    }

    lemma UnfoldCounted(unfolded: set<In>, value: In)
      requires Processing({value}, book.work) && book.eff.Keys == unfolded + {value} && value !in unfolded
      ensures ToUnfold() < SaturatingSub(Bound(), |unfolded|)
    {
      OneMoreExactly(unfolded, book.eff.Keys, value);
      WithinBound({value}, book.work);
    }

    /** Inserts the children of an unfolded value into the execution tree. */
    method ProcessUnfold(value: In, context: OutCtx, children: seq<In>)
      requires value in book.work && book.work[value].Unfold? && Processing({}, book.work - {value})
      requires Unfolded(context, children) == pb.unfold(value)
      modifies `executionTree, `unscheduled, `unfoldCalls, `foldCalls, `book
      ensures Valid() && ToUnfold() < old(ToUnfold()) && QueuedFirst()
    {
      var taken := Taken(children);
      StartProcessing(value);
      var outs, childrenLeft := EnqueueChildren(value, taken);
      UnfoldCounted(old(book.eff.Keys), value);
      ghost var queue := unscheduled;
      EndUnfold(value, context, outs, childrenLeft);
      EndsWithin(unscheduled, queue, old(unscheduled));
    }

    /** All children of `value` are known: its fold starts if they all have a result. */
    method EndUnfold(value: In, context: OutCtx, outs: seq<Option<Out>>, childrenLeft: nat)
      requires Processing({value}, book.work) && Open(executionTree, book, value)
               && executionTree[value].children == None
      requires book.slots[value] == outs && CountNone(outs) == childrenLeft && context == pb.unfold(value).context
      requires ChildrenOk(pb, unfoldLimit, |executionTree|, value, book.eff[value])
      modifies `executionTree, `unscheduled, `foldCalls, `book
      ensures Valid() && book.eff == old(book.eff) && QueuedFirst()
    {
      EndsWithItself(unscheduled);
      if childrenLeft != 0 {
        BlockNode(value, context, outs, childrenLeft);
      } else {
        assert {} + {value} == {value};
        FoldReady(value, context, outs, {});
      }
    }

    /** Stores a result in slot `loc` of a blocked node. */
    method FillSlot(loc: Location, node: Node, result: Out, ghost child: In)
      requires Processing({child}, book.work) && Finished(pb, executionTree, book, child)
      requires executionTree[child] == Done(result) && child in book.links && book.links[child] != []
      requires loc == book.links[child][0]
      requires loc.nodeIndex in book.links && node.Pending? && node.parents == book.links[loc.nodeIndex]
      requires SlotAt(book, loc) && loc.nodeIndex in executionTree && executionTree[loc.nodeIndex].Pending?
               && loc.nodeIndex != child
      modifies `executionTree, `book
      ensures Processing({child} + {loc.nodeIndex}, book.work) && Finished(pb, executionTree, book, child)
      ensures Open(executionTree, book, loc.nodeIndex) && executionTree == old(executionTree)[loc.nodeIndex := node]
      ensures old(SlotAt(book, book.links[child][0])) && book == old(Delivered(book, child, result))
      ensures CountNone(old(book.slots[loc.nodeIndex])) == CountNone(book.slots[loc.nodeIndex]) + 1
      ensures ChildrenOk(pb, unfoldLimit, |executionTree|, loc.nodeIndex, book.eff[loc.nodeIndex])
      ensures ToFold() == old(ToFold()) && |executionTree| == old(|executionTree|)
    {
      Deliver(pb, executionTree, book, child, loc.nodeIndex, node);
      book := Delivered(book, child, result);
      executionTree := executionTree[loc.nodeIndex := node];
      assert |executionTree.Keys| == |executionTree| && executionTree.Keys == old(executionTree.Keys);
      assert DoneValues(executionTree) == DoneValues(old(executionTree));
    }

    /** Stores a result in the slot `loc` of a blocked node, whose fold starts when no slot is left. */
    method UpdateLocation(loc: Location, result: Out, ghost child: In)
      requires Processing({child}, book.work) && Finished(pb, executionTree, book, child)
      requires executionTree[child] == Done(result) && child in book.links && book.links[child] != []
      requires loc == book.links[child][0]
      modifies `executionTree, `unscheduled, `foldCalls, `book
      ensures Processing({child}, book.work) && Finished(pb, executionTree, book, child)
      ensures executionTree[child] == Done(result) && child in book.links
              && book.links[child] == old(book.links[child])[1..]
      ensures book.eff == old(book.eff) && ToFold() == old(ToFold()) && |executionTree| == old(|executionTree|)
      ensures QueuedFirst()
    {
      Waiting(pb, executionTree, book, child);
      EndsWithItself(unscheduled);
      match executionTree[loc.nodeIndex] {
        case Pending(parents, Some(Children(context, children, childrenLeft))) =>
          assert children[loc.childIndex].None?;
          var filled := children[loc.childIndex := Some(result)];
          if childrenLeft - 1 != 0 {
            FillSlot(loc, Pending(parents, Some(Children(context, filled, childrenLeft - 1))), result, child);
            BlockAgain(loc.nodeIndex, child);
          } else {
            FillSlot(loc, Pending(parents, None), result, child);
            FoldReady(loc.nodeIndex, context, filled, {child});
          }
        case Pending(_, None) => assert false;
        case Done(_) => assert false;
      }
    }

    /** A node that still waits for other children stays blocked. */
    ghost method BlockAgain(u: In, child: In)
      requires Processing({child} + {u}, book.work) && Open(executionTree, book, u)
      requires executionTree[u] == Blocked(pb, book, u) && CountNone(book.slots[u]) > 0
      requires ChildrenOk(pb, unfoldLimit, |executionTree|, u, book.eff[u])
      ensures Processing({child}, book.work)
    {
      Block(pb, executionTree, book, {child}, u);
      assert executionTree == executionTree[u := Blocked(pb, book, u)];
      GivenNow(pb, unfoldLimit, executionTree, book, {child}, u);
    }

    /** Marks `value` as done. */
    method SetDone(value: In, result: Out) returns (parents: seq<Location>)
      requires value in book.work && book.work[value].Fold? && value != pb.init && Processing({}, book.work - {value})
      requires result == pb.fold(book.work[value].context, book.work[value].children)
      modifies `executionTree, `book
      ensures Processing({value}, book.work) && Finished(pb, executionTree, book, value)
      ensures executionTree[value] == Done(result) && value in book.links && book.links[value] == parents
      ensures book.eff == old(book.eff) && ToFold() < old(ToFold())
      ensures value in book.eff && ChildrenOk(pb, unfoldLimit, |executionTree|, value, book.eff[value])
    {
      BeginFold(pb, executionTree, book, value);
      book := book.(work := book.work - {value});
      match executionTree[value] {
        case Pending(waiting, _) =>
          parents := waiting;
          executionTree := executionTree[value := Done(result)];
        case Done(_) => assert false;
      }
      assert |executionTree.Keys| == |executionTree| && executionTree.Keys == old(executionTree.Keys);
      DoneAdded(old(executionTree), executionTree, value);
      WithinBound({value}, book.work);
    }

    /** Marks `value` as done and passes its result on to everything that waits for it. */
    method ProcessFold(value: In, result: Out)
      requires value in book.work && book.work[value].Fold? && value != pb.init && Processing({}, book.work - {value})
      requires result == pb.fold(book.work[value].context, book.work[value].children)
      modifies `executionTree, `unscheduled, `foldCalls, `book
      ensures Valid() && book.eff == old(book.eff) && ToFold() < old(ToFold()) && QueuedFirst()
    {
      var parents := SetDone(value, result);
      EndsWithItself(unscheduled);
      for i := 0 to |parents|
        invariant Processing({value}, book.work) && Finished(pb, executionTree, book, value)
        invariant executionTree[value] == Done(result) && value in book.links && book.links[value] == parents[i..]
        invariant book.eff == old(book.eff) && ToFold() < old(ToFold())
        invariant value in book.eff && ChildrenOk(pb, unfoldLimit, |executionTree|, value, book.eff[value])
        invariant QueuedFirst()
      {
        ghost var queue := unscheduled;
        UpdateLocation(parents[i], result, value);
        EndsWithin(unscheduled, queue, old(unscheduled));
      }
      EndFold(pb, executionTree, book, value);
      assert {} + {value} == {value};
      GivenNow(pb, unfoldLimit, executionTree, book, {}, value);
    }

    constructor (pb: Problem, scheduledMax: nat, unfoldLimit: Option<nat>, ghost universe: set<In>)
      requires scheduledMax >= 1 && (unfoldLimit == None ==> UniverseOk(pb, universe))
      ensures Valid() && this.pb == pb && this.scheduledMax == scheduledMax && this.unfoldLimit == unfoldLimit
      ensures this.universe == universe
    {
      this.pb := pb;
      this.scheduledMax := scheduledMax;
      this.unfoldLimit := unfoldLimit;
      this.universe := universe;
      scheduled := [];
      unscheduled := [];
      executionTree := map[];
      book := InitialBook(pb);
      unfoldCalls := [];
      foldCalls := [];
      new;
      var out := EnqueueUnfold(NodeLocation(pb.init, 0), pb.init);
      assert out == None;
      Initially(pb);
      assert executionTree == map[pb.init := Pending([NodeLocation(pb.init, 0)], None)];
      assert book.work == map[pb.init := Unfold];
    }

    /** Starts as many queued futures as allowed. */
    method Fill()
      requires Valid()
      modifies `scheduled, `unscheduled
      ensures Valid() && Jobs() == old(Jobs()) && Fills(old(Now()), Now(), scheduledMax)
    {
      var n := Min(|unscheduled|, scheduledMax - |scheduled|);
      JobsMoved(scheduled, unscheduled, n);
      scheduled, unscheduled := scheduled + unscheduled[..n], unscheduled[n..];
    }

    /** Running future `k` has completed. */
    method TakeCompleted(k: nat) returns (job: Task)
      requires Valid() && k < |scheduled|
      modifies `scheduled
      ensures job.key in book.work && book.work[job.key] == job.work && Processing({}, book.work - {job.key})
      ensures job == old(scheduled)[k] && scheduled == old(scheduled)[..k] + old(scheduled)[k + 1..]
    {
      job := scheduled[k];
      JobTaken(scheduled, unscheduled, k, book.work);
      scheduled := scheduled[..k] + scheduled[k + 1..];
    }

    /** The fold of the traversed value has completed: nothing else is outstanding. */
    method Finish(value: In, result: Out)
      requires value == pb.init && value in book.work && book.work[value].Fold? && Processing({}, book.work - {value})
      requires result == pb.fold(book.work[value].context, book.work[value].children)
      ensures unscheduled == [] && scheduled == [] && Answer(pb, unfoldLimit, universe, book, Some(result))
    {
      InitFolded(pb, executionTree, book);
      CallsMade(pb, executionTree, book);
      assert |(book.work - {value}).Keys| == 0;
    }

    /** One turn of a poll: running future `k` completes, if there is one. */
    method PollTurn(k: nat) returns (r: Option<Poll>)
      requires Valid()
      modifies this
      ensures r == None ==> Valid() && Nearer(old(ToUnfold()), old(ToFold()))
      ensures r == None ==> Completes(old(Now()), k, Now(), scheduledMax)
      ensures r == Some(PollPending) ==> Valid() && scheduled != [] && k >= |scheduled| && old(Jobs()) != []
      ensures r == Some(PollPending) ==> Fills(old(Now()), Now(), scheduledMax)
      ensures r.Some? && r.value.Ready? ==>
                unscheduled == [] && scheduled == [] && Answer(pb, unfoldLimit, universe, book, r.value.output)
    {
      if unscheduled == [] && scheduled == [] {
        InitBlocked(pb, executionTree, book);
        CallsMade(pb, executionTree, book);
        return Some(Ready(None));
      }
      Fill();
      if k >= |scheduled| {
        return Some(PollPending);
      }
      ghost var filled := Now();
      var job := TakeCompleted(k);
      match job.work {
        case Unfold =>
          var unfolded := pb.unfold(job.key);
          ProcessUnfold(job.key, unfolded.context, unfolded.children);
        case Fold(context, children) =>
          var result := pb.fold(context, children);
          if job.key == pb.init {
            Finish(job.key, result);
            return Some(Ready(Some(result)));
          }
          ProcessFold(job.key, result);
      }
      CompletesAfter(old(Now()), filled, k, Now(), scheduledMax);
      return None;
    }

    /** Polls the traversal.  Which running future has completed, if any, is arbitrary.  It waits only when as many
        futures run as allowed, or none is queued; they were started in the order of the queue. */
    method Poll() returns (r: Poll)
      requires Valid()
      modifies this
      ensures r == PollPending ==> Valid() && scheduled != [] && (|scheduled| == scheduledMax || unscheduled == [])
      ensures r == PollPending ==> Waits(old(Now()), Now(), scheduledMax)
      ensures r.Ready? ==> unscheduled == [] && scheduled == [] && Answer(pb, unfoldLimit, universe, book, r.output)
      ensures r.Ready? && unfoldLimit == None ==> r.output == RecFold(pb, Whole(pb, universe), pb.init)
    {
      ghost var trail := [Now()];
      while true
        invariant Valid() && Leads(trail, scheduledMax)
        invariant trail[0] == old(Now()) && trail[|trail| - 1] == Now()
        decreases ToUnfold(), ToFold()
      {
        var k: nat := *;
        var turn := PollTurn(k);
        if turn.Some? {
          if turn.value.Ready? && unfoldLimit == None {
            UnlimitedAnswer(pb, universe, book, turn.value.output);
          }
          return turn.value;
        }
        LeadsOn(trail, k, Now(), scheduledMax);
        trail := trail + [Now()];
      }
    }

    /** One turn in which some future does complete, unless none is outstanding. */
    method RunTurn() returns (turn: Option<Option<Out>>)
      requires Valid()
      modifies this
      ensures turn == None ==>
                Valid() && Nearer(old(ToUnfold()), old(ToFold()))
      ensures turn.Some? ==> Answer(pb, unfoldLimit, universe, book, turn.value)
    {
      Fill();
      assert scheduled == [] ==> Jobs() == [];
      assert ToUnfold() == old(ToUnfold()) && ToFold() == old(ToFold());
      var k: nat :| scheduled == [] || k < |scheduled|;
      var r := PollTurn(k);
      if r == None {
        return None;
      }
      assert r.value.Ready?;
      return Some(r.value.output);
    }

    /** Runs the traversal to its end: in whatever order futures complete, it ends. */
    method Run() returns (output: Option<Out>)
      requires Valid()
      modifies this
      ensures Answer(pb, unfoldLimit, universe, book, output)
      ensures unfoldLimit == None ==> output == RecFold(pb, Whole(pb, universe), pb.init)
    {
      while true
        invariant Valid()
        decreases ToUnfold(), ToFold()
      {
        var turn := RunTurn();
        if turn.Some? {
          if unfoldLimit == None {
            UnlimitedAnswer(pb, universe, book, turn.value);
          }
          return turn.value;
        }
      }
    }
  }
}
