/** The traversal of a tree: unfolds and folds complete in any order. */
module TreeTraversal {
  import opened Common
  import opened Jobs
  import opened Slots
  import opened TreeFold

  datatype Poll = Ready(output: Out) | PollPending

  /** What the future of a job still leads to. */
  ghost function TaskSize(work: Work): nat {
    match work
    case Unfold(v) => 2 * Size(v)
    case Fold(_, _) => 1
  }

  ghost function AddSizes(jobs: seq<Task>): nat {
    if jobs == [] then 0 else TaskSize(jobs[0].work) + AddSizes(jobs[1..])
  }

  lemma FirstSize(job: Task, rest: seq<Task>)
    ensures AddSizes([job] + rest) == TaskSize(job.work) + AddSizes(rest)
  {
    assert ([job] + rest)[1..] == rest;
  }

  lemma {:induction false} SizesConcat(a: seq<Task>, b: seq<Task>)
    ensures AddSizes(a + b) == AddSizes(a) + AddSizes(b)
  {
    if a == [] {
      assert a + b == b;
    } else {
      ConcatFirst(a, b);
      SizesConcat(a[1..], b);
      FirstSize(a[0], a[1..] + b);
    }
  }

  lemma SizeRemoved(jobs: seq<Task>, k: nat)
    requires k < |jobs|
    ensures AddSizes(jobs) == AddSizes(jobs[..k] + jobs[k + 1..]) + TaskSize(jobs[k].work)
  {
    assert jobs == jobs[..k] + ([jobs[k]] + jobs[k + 1..]);
    SizesConcat(jobs[..k], [jobs[k]] + jobs[k + 1..]);
    FirstSize(jobs[k], jobs[k + 1..]);
    SizesConcat(jobs[..k], jobs[k + 1..]);
  }

  lemma SizeAdded(before: seq<Task>, after: seq<Task>, job: Task)
    ensures AddSizes(before + ([job] + after)) == AddSizes(before + after) + TaskSize(job.work)
  {
    SizesConcat(before, [job] + after);
    FirstSize(job, after);
    SizesConcat(before, after);
  }

  lemma {:induction false} SizeOfChildren(vs: seq<In>, n: nat)
    requires n < |vs|
    ensures SizeAll(vs[..n + 1]) == SizeAll(vs[..n]) + Size(vs[n])
  {
    assert vs[..n + 1][1..] == vs[1..][..n];
    if n > 0 {
      assert vs[..n][1..] == vs[1..][..n - 1];
      SizeOfChildren(vs[1..], n - 1);
    } else {
      assert vs[..0] == [] && vs[..1][1..] == [];
    }
  }

  lemma InsertedSize<T>(m: map<nat, T>, k: nat, x: T)
    requires k !in m
    ensures |m[k := x]| == |m| + 1
  {
    assert m[k := x].Keys == m.Keys + {k} && |m.Keys| == |m| && |m[k := x].Keys| == |m[k := x]|;
  }

  lemma UpdatedSize<T>(m: map<nat, T>, k: nat, x: T)
    requires k in m
    ensures |m[k := x]| == |m|
  {
    assert m[k := x].Keys == m.Keys && |m.Keys| == |m| && |m[k := x].Keys| == |m[k := x]|;
  }

  lemma RemovedSize<T>(m: map<nat, T>, k: nat)
    requires k in m
    ensures |m - {k}| == |m| - 1
  {
    assert m.Keys == (m - {k}).Keys + {k} && |m.Keys| == |m| && |(m - {k}).Keys| == |m - {k}|;
  }

  /** One slot for each child, without results. */
  method EmptySlots(count: nat) returns (slots: seq<Option<Out>>)
    ensures slots == NoResults(count)
  {
    slots := seq(count, _ => None);
  }

  class BoundedTraversal {
    const fold: Fold
    const scheduledMax: nat
    var scheduled: seq<Task>
    var unscheduled: seq<Task>
    var executionTree: Tree
    var executionTreeIndex: nat

    ghost var book: Book

    ghost function Jobs(): seq<Task>
      reads `scheduled, `unscheduled
    {
      scheduled + unscheduled
    }

    /** The invariant, while `work` is outstanding and the slot `busy` is processed. */
    ghost predicate Processing(busy: Option<Location>, work: map<Location, Work>)
      reads this
    {
      && Kept(fold, executionTree, book, busy)
      && JobsOk(Jobs(), work)
      && |scheduled| <= scheduledMax && scheduledMax >= 1
      && executionTreeIndex == book.top
    }

    ghost predicate Valid()
      reads this
    {
      Processing(None, book.work)
    }

    /** The number of unfolds and folds that are left. */
    ghost function Left(): nat
      reads this
    {
      AddSizes(Jobs()) + |executionTree|
    }

    /** The futures that run, and those that are queued. */
    ghost function Now(): Lanes<Task>
      reads `scheduled, `unscheduled
    {
      Lanes(scheduled, unscheduled)
    }

    /** New futures are queued in front of the others. */
    twostate predicate QueuedFirst()
      reads `scheduled, `unscheduled
    {
      scheduled == old(scheduled) && EndsWith(unscheduled, old(unscheduled))
    }

    method EnqueueUnfold(parent: Location, value: In)
      modifies `unscheduled
      ensures unscheduled == [Job(parent, Unfold(value))] + old(unscheduled)
      ensures AddSizes(Jobs()) == old(AddSizes(Jobs())) + 2 * Size(value)
    {
      SizeAdded(scheduled, unscheduled, Job(parent, Unfold(value)));
      unscheduled := [Job(parent, Unfold(value))] + unscheduled;
    }

    method EnqueueFold(parent: Location, context: OutCtx, children: seq<Out>)
      modifies `unscheduled
      ensures unscheduled == [Job(parent, Work.Fold(context, children))] + old(unscheduled)
      ensures AddSizes(Jobs()) == old(AddSizes(Jobs())) + 1
    {
      SizeAdded(scheduled, unscheduled, Job(parent, Work.Fold(context, children)));
      unscheduled := [Job(parent, Work.Fold(context, children))] + unscheduled;
    }

    /** A fold is started for the slot that is processed. */
    method FoldNow(parent: Location, context: OutCtx, children: seq<Out>)
      requires Processing(Some(parent), book.work) && InSource(book, parent)
      requires fold(context, children) == Eval(fold, ValueAt(book, parent))
      modifies `unscheduled, `book
      ensures Valid() && Left() == old(Left()) + 1 && book.init == old(book.init) && QueuedFirst()
    {
      StartFold(fold, executionTree, book, parent, context, children);
      JobAdded(scheduled, unscheduled, Job(parent, Work.Fold(context, children)), book.work);
      EndsBehind(Job(parent, Work.Fold(context, children)), unscheduled);
      EnqueueFold(parent, context, children);
      book := book.(work := book.work[parent := Work.Fold(context, children)]);
    }

    /** Starts the unfolds of the children of a new node. */
    method EnqueueChildren(nodeIndex: nat, children: seq<In>, ghost work: map<Location, Work>)
      requires JobsOk(Jobs(), work) && FreshFor(work, nodeIndex)
      modifies `unscheduled
      ensures JobsOk(Jobs(), NewWork(work, nodeIndex, children))
      ensures AddSizes(Jobs()) == old(AddSizes(Jobs())) + 2 * SizeAll(children)
      ensures QueuedFirst()
    {
      EndsWithItself(unscheduled);
      for childIndex := 0 to |children|
        invariant JobsOk(Jobs(), NewWork(work, nodeIndex, children[..childIndex]))
        invariant AddSizes(Jobs()) == old(AddSizes(Jobs())) + 2 * SizeAll(children[..childIndex])
        invariant QueuedFirst()
      {
        assert children[..childIndex + 1][..childIndex] == children[..childIndex];
        SizeOfChildren(children, childIndex);
        NewWorkAt(work, nodeIndex, children[..childIndex], NodeLocation(nodeIndex, childIndex));
        JobAdded(scheduled, unscheduled, Job(NodeLocation(nodeIndex, childIndex), Unfold(children[childIndex])),
                 NewWork(work, nodeIndex, children[..childIndex]));
        EndsBehind(Job(NodeLocation(nodeIndex, childIndex), Unfold(children[childIndex])), unscheduled);
        ghost var queue := unscheduled;
        EnqueueUnfold(NodeLocation(nodeIndex, childIndex), children[childIndex]);
        EndsWithin(unscheduled, queue, old(unscheduled));
      }
      assert children[..|children|] == children;
    }

    /** Stores the node of a value that has children. */
    method InsertNode(nodeIndex: nat, parent: Location, ghost value: In, context: OutCtx, count: nat)
      requires Processing(Some(parent), NewWork(book.work, nodeIndex, value.children)) && InSource(book, parent)
      requires ValueAt(book, parent) == value && context == value.context && count == |value.children| > 0
      requires nodeIndex == book.top + 1 && executionTreeIndex == book.top
      modifies `executionTree, `executionTreeIndex, `book
      ensures Valid() && Left() == old(Left()) + 1 && book.init == old(book.init)
    {
      FreshIndex(fold, executionTree, book, Some(parent));
      Expand(fold, executionTree, book, parent, value);
      InsertedSize(executionTree, nodeIndex, NewNode(parent, value));
      executionTreeIndex := nodeIndex;
      var children := EmptySlots(count);
      executionTree := executionTree[nodeIndex := Node(parent, context, children, count)];
      book := Grown(book, nodeIndex, value);
      assert executionTree == old(executionTree)[nodeIndex := NewNode(parent, value)];
      assert Kept(fold, executionTree, book, None);
      assert |executionTree| == old(|executionTree|) + 1;
    }

    /** Inserts the result of an unfold into the execution tree. */
    method ProcessUnfold(parent: Location, ghost value: In, context: OutCtx, children: seq<In>)
      requires Processing(Some(parent), book.work) && InSource(book, parent)
               && ValueAt(book, parent) == value == In(context, children)
      modifies `unscheduled, `executionTree, `executionTreeIndex, `book
      ensures Valid() && Left() == old(Left()) + 2 * Size(value) - 1 && book.init == old(book.init)
      ensures QueuedFirst()
    {
      FreshIndex(fold, executionTree, book, Some(parent));
      var nodeIndex := executionTreeIndex + 1;
      EnqueueChildren(nodeIndex, children, book.work);
      ghost var queue := unscheduled;
      EndsWithItself(queue);
      if |children| != 0 {
        InsertNode(nodeIndex, parent, value, context, |children|);
      } else {
        FoldLeaf(nodeIndex, parent, value, context);
      }
      EndsWithin(unscheduled, queue, old(unscheduled));
    }

    /** A value without children is folded at once. */
    method FoldLeaf(nodeIndex: nat, parent: Location, ghost value: In, context: OutCtx)
      requires Processing(Some(parent), book.work) && InSource(book, parent) && ValueAt(book, parent) == value
      requires value == In(context, []) && nodeIndex == book.top + 1
      modifies `unscheduled, `executionTreeIndex, `book
      ensures Valid() && Left() == old(Left()) + 1 && book.init == old(book.init) && QueuedFirst()
    {
      SkipIndex(fold, executionTree, book, Some(parent));
      executionTreeIndex := nodeIndex;
      book := book.(top := nodeIndex);
      FoldNow(parent, context, []);
    }

    /** The node has all results: it is removed and folded. */
    method RemoveNode(parent: Location, result: Out, node: Node)
      requires Processing(Some(parent), book.work) && InSource(book, parent) && parent != ROOT
      requires result == Eval(fold, ValueAt(book, parent))
      requires parent.nodeIndex in executionTree && parent.childIndex < |executionTree[parent.nodeIndex].children|
      requires executionTree[parent.nodeIndex].childrenLeft == 1 && node == Filled(executionTree, parent, result)
      modifies `unscheduled, `executionTree, `book
      ensures Valid() && Left() == old(Left()) && book.init == old(book.init) && QueuedFirst()
    {
      Remove(fold, executionTree, book, parent, result);
      RemovedSize(executionTree, parent.nodeIndex);
      executionTree := executionTree - {parent.nodeIndex};
      book := book.(src := book.src - {parent.nodeIndex});
      FoldNow(node.parent, node.context, Flatten(node.children));
    }

    /** The node waits for other results. */
    method UpdateNode(parent: Location, result: Out, node: Node)
      requires Processing(Some(parent), book.work) && InSource(book, parent) && parent != ROOT
      requires result == Eval(fold, ValueAt(book, parent))
      requires parent.nodeIndex in executionTree && parent.childIndex < |executionTree[parent.nodeIndex].children|
      requires executionTree[parent.nodeIndex].childrenLeft > 1 && node == Filled(executionTree, parent, result)
      modifies `executionTree
      ensures Valid() && Left() == old(Left())
    {
      Fill(fold, executionTree, book, parent, result);
      UpdatedSize(executionTree, parent.nodeIndex, node);
      executionTree := executionTree[parent.nodeIndex := node];
    }

    /** Stores the result of a fold in its slot; when no slot of the node is left, the node is folded. */
    method ProcessFold(parent: Location, result: Out)
      requires Processing(Some(parent), book.work) && InSource(book, parent) && parent != ROOT
      requires result == Eval(fold, ValueAt(book, parent))
      modifies `unscheduled, `executionTree, `book
      ensures Valid() && Left() == old(Left()) && book.init == old(book.init) && QueuedFirst()
    {
      Waiting(fold, executionTree, book, parent);
      EndsWithItself(unscheduled);
      var node := executionTree[parent.nodeIndex];
      assert node.children[parent.childIndex].None?;
      node := node.(children := node.children[parent.childIndex := Some(result)],
                    childrenLeft := node.childrenLeft - 1);
      if node.childrenLeft == 0 {
        RemoveNode(parent, result, node);
      } else {
        UpdateNode(parent, result, node);
      }
    }

    /** Starts as many queued futures as allowed. */
    method Schedule()
      requires Valid()
      modifies `scheduled, `unscheduled
      ensures Valid() && scheduled != [] && Left() == old(Left()) && Fills(old(Now()), Now(), scheduledMax)
    {
      var n := Min(|unscheduled|, scheduledMax - |scheduled|);
      JobsMoved(scheduled, unscheduled, n);
      scheduled, unscheduled := scheduled + unscheduled[..n], unscheduled[n..];
      SomethingToDo(fold, executionTree, book);
    }

    /** Running future `k` has completed. */
    method TakeCompleted(k: nat) returns (job: Task)
      requires Valid() && k < |scheduled|
      modifies `scheduled, `book
      ensures Processing(Some(job.key), book.work) && InSource(book, job.key) && job == old(scheduled[k])
      ensures job.key.nodeIndex == 0 ==> job.key == ROOT
      ensures scheduled == old(scheduled)[..k] + old(scheduled)[k + 1..]
      ensures Left() == old(Left()) - TaskSize(job.work) && book.init == old(book.init)
      ensures match job.work
              case Unfold(v) => v == ValueAt(book, job.key)
              case Fold(context, children) => fold(context, children) == Eval(fold, ValueAt(book, job.key))
    {
      job := scheduled[k];
      assert Jobs()[k] == job;
      JobRemoved(Jobs(), k, book.work);
      SizeRemoved(Jobs(), k);
      Begin(fold, executionTree, book, job.key);
      scheduled := scheduled[..k] + scheduled[k + 1..];
      assert Jobs() == old(Jobs())[..k] + old(Jobs())[k + 1..];
      book := book.(work := book.work - {job.key});
    }

    /** The fold of the whole tree has completed: nothing else is left. */
    method Finish(result: Out)
      requires Processing(Some(ROOT), book.work) && result == Eval(fold, ValueAt(book, ROOT))
      ensures executionTree == map[] && unscheduled == [] && scheduled == [] && result == Eval(fold, book.init)
    {
      RootCompleted(fold, executionTree, book);
    }

    /** One turn of a poll: running future `k` completes, if there is one. */
    method PollTurn(k: nat) returns (r: Option<Poll>)
      requires Valid()
      modifies this
      ensures book.init == old(book.init)
      ensures match r
              case None => Valid() && Left() < old(Left()) && Completes(old(Now()), k, Now(), scheduledMax)
              case Some(PollPending) =>
                && Valid() && scheduled != [] && k >= |scheduled| && Left() == old(Left())
                && Fills(old(Now()), Now(), scheduledMax)
              case Some(Ready(output)) =>
                output == Eval(fold, book.init) && executionTree == map[] && unscheduled == [] && scheduled == []
    {
      Schedule();
      if k >= |scheduled| {
        return Some(PollPending);
      }
      ghost var filled := Now();
      var job := TakeCompleted(k);
      match job.work {
        case Unfold(value) =>
          ProcessUnfold(job.key, value, value.context, value.children);
        case Fold(context, children) =>
          var result := fold(context, children);
          if job.key.nodeIndex == 0 {
            Finish(result);
            return Some(Ready(result));
          }
          ProcessFold(job.key, result);
      }
      CompletesAfter(old(Now()), filled, k, Now(), scheduledMax);
      return None;
    }

    /** Polls the traversal.  Which running future has completed, if any, is arbitrary.  It waits only when as many
        futures run as allowed, or none is queued; they were started in the order of the queue. */
    method Poll() returns (r: Poll)
      requires Valid()
      modifies this
      ensures book.init == old(book.init)
      ensures r == PollPending ==> Valid() && scheduled != [] && (|scheduled| == scheduledMax || unscheduled == [])
      ensures r == PollPending ==> Waits(old(Now()), Now(), scheduledMax)
      ensures r.Ready?
              ==> r.output == Eval(fold, book.init) && executionTree == map[] && unscheduled == [] && scheduled == []
    {
      ghost var trail := [Now()];
      while true
        invariant Valid() && book.init == old(book.init) && Leads(trail, scheduledMax)
        invariant trail[0] == old(Now()) && trail[|trail| - 1] == Now()
        decreases Left()
      {
        var k: nat := *;
        var turn := PollTurn(k);
        if turn.Some? {
          return turn.value;
        }
        LeadsOn(trail, k, Now(), scheduledMax);
        trail := trail + [Now()];
      }
    }

    /** Runs the traversal to its end: in whatever order futures complete, it ends with the recursive fold. */
    method Run() returns (output: Out)
      requires Valid()
      modifies this
      ensures output == Eval(fold, old(book.init))
    {
      while true
        invariant Valid() && book.init == old(book.init)
        decreases Left()
      {
        Schedule();
        var k: nat :| k < |scheduled|;
        var turn := PollTurn(k);
        if turn.Some? && turn.value.Ready? {
          return turn.value.output;
        }
      }
    }

    constructor (scheduledMax: nat, init: In, fold: Fold)
      requires scheduledMax >= 1
      ensures Valid() && this.scheduledMax == scheduledMax && this.fold == fold && book.init == init
    {
      this.fold := fold;
      this.scheduledMax := scheduledMax;
      scheduled := [];
      unscheduled := [];
      executionTree := map[];
      executionTreeIndex := 0;
      book := Book(init, map[ROOT := Unfold(init)], map[], 0);
      new;
      EnqueueUnfold(ROOT, init);
      Initially(fold, init);
    }
  }

  lemma Initially(fold: Fold, init: In)
    ensures var b := Book(init, map[ROOT := Unfold(init)], map[], 0);
            Kept(fold, map[], b, None) && JobsOk([Job(ROOT, Unfold(init))], b.work)
  {
    assert |map[ROOT := Unfold(init)]| == 1;
  }
}
