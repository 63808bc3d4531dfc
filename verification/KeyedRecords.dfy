/** What a traversal that is limited by key and by shard has done, and how each step keeps the record. */
module KeyedRecords {
  import opened Common
  import opened KeyedQueues
  import opened KeyedExclusion
  import opened KeyedShards

  lemma RunningIsLive(q: Queues, live: seq<Item>, x: Item) returns (i: nat)
    requires Kept(q, multiset(live)) && x in q.scheduled
    ensures i < |live| && live[i] == x
  {
    assert Look(Part.KeyedQueue);
    assert multiset(q.scheduled)[x] > 0;
    assert x in multiset(live);
    i :| 0 <= i < |live| && live[i] == x;
  }

  /** The next item is one of all. */
  lemma NextIsLive(q: Queues, live: seq<Item>, completed: seq<Item>, all: multiset<Item>, x: Item, rest: seq<Item>)
    requires Kept(q, multiset(live)) && q.unscheduled == [x] + rest && multiset(completed) + Trees(live) == all
    ensures x in all && multiset(completed) + multiset(live) <= all
  {
    assert Look(Part.KeyedQueue);
    TreesIncludeItems(live);
    assert q.unscheduled[0] == x;
    assert multiset(live)[x] > 0;
    assert x in live;
    TreesContain(live, x);
  }

  lemma {:induction false} ReversedMultiset(items: seq<Item>)
    ensures multiset(Reversed(items)) == multiset(items)
  {
    if items != [] {
      ReversedMultiset(items[..|items| - 1]);
      assert items == items[..|items| - 1] + [items[|items| - 1]];
    }
  }

  /** The completed item was started before, and the item that is let in is started. */
  lemma StartedOnce(q: Queues, k: nat, started: seq<Item>, completed: seq<Item>, next: seq<Item>)
    requires k < |q.scheduled| && multiset(started) == multiset(completed) + multiset(q.scheduled)
    ensures multiset(started + next)
         == multiset(completed + [q.scheduled[k]]) + multiset(q.scheduled[..k] + q.scheduled[k + 1..] + next)
  {
    Removed(q.scheduled, k);
  }

  /** What was started is completed or running; completed items and everything below live ones is everything. */
  ghost predicate Balanced(started: seq<Item>, completed: seq<Item>, scheduled: seq<Item>, live: seq<Item>,
                           all: multiset<Item>) {
    && multiset(started) == multiset(completed) + multiset(scheduled)
    && multiset(completed) + Trees(live) == all
  }

  lemma StartBalanced(started: seq<Item>, completed: seq<Item>, scheduled: seq<Item>, live: seq<Item>,
                      all: multiset<Item>, x: Item)
    requires Balanced(started, completed, scheduled, live, all)
    ensures Balanced(started + [x], completed, scheduled + [x], live, all)
  {
  }

  lemma CompleteBalanced(q: Queues, k: nat, i: nat, started: seq<Item>, completed: seq<Item>, next: seq<Item>,
                         live: seq<Item>, all: multiset<Item>)
    requires k < |q.scheduled| && i < |live| && q.scheduled[k] == live[i]
             && Balanced(started, completed, q.scheduled, live, all)
    ensures Balanced(started + next, completed + [live[i]], q.scheduled[..k] + q.scheduled[k + 1..]
                     + next, Expanded(live, i), all)
    ensures multiset(Expanded(live, i)) + multiset{live[i]} == multiset(live) + multiset(live[i].Children())
    ensures |Trees(Expanded(live, i))| < |Trees(live)|
  {
    TreesExpanded(live, i);
    MultisetExpanded(live, i);
    StartedOnce(q, k, started, completed, next);
    assert multiset(completed + [live[i]]) + Trees(Expanded(live, i)) == multiset(completed) + Trees(live);
  }

  /** Queues and records agree: every item is where it belongs, and what happened to keys and shards is known. */
  ghost predicate RecordsOk(q: Queues, live: seq<Item>, started: seq<Item>, completed: seq<Item>, w: Watch,
                            letIn: multiset<ShardKey>, all: multiset<Item>) {
    && Kept(q, multiset(live))
    && Balanced(started, completed, q.scheduled, live, all)
    && Watched(q, w) && Explained(w, completed, all)
    && Limited(q.byShard, all) && Accounted(q, letIn) && AllShare(letIn, all)
  }

  /** The same, as the traversal passes it on. */
  ghost predicate Recorded(q: Queues, live: seq<Item>, started: seq<Item>, completed: seq<Item>, w: Watch,
                           letIn: multiset<ShardKey>, all: multiset<Item>) {
    forall part {:trigger Look(part)} :: Look(part) && part == Part.KeyedRecord ==>
      RecordsOk(q, live, started, completed, w, letIn, all)
  }

  lemma RecordsStart(init: seq<Item>)
    ensures Recorded(Queues(init, [], map[], map[]), init, [], [], Watch(true, {}, false), multiset{}, Trees(init))
  {
    WatchStarts(init);
    AccountStarts(init);
  }

  /** The next item starts, and does not wait for its key or its shard. */
  ghost predicate Starts(q: Queues)
    requires q.unscheduled != []
  {
    var x := q.unscheduled[0];
    x.key !in q.byKey && (x.shard.Some? ==> ShardOf(q, x.shard.value.0).0 <= x.shard.value.1)
  }

  /** The next item starts or waits; something is running then that will let it in.  An item that starts runs
      together with another one with its key exactly if its key is exposed. */
  lemma ScheduleRecorded(q: Queues, live: seq<Item>, started: seq<Item>, completed: seq<Item>, w: Watch,
                         letIn: multiset<ShardKey>, all: multiset<Item>)
    requires Recorded(q, live, started, completed, w, letIn, all) && q.unscheduled != []
    ensures var x, q' := q.unscheduled[0], ScheduleFirst(q);
            && q'.scheduled != []
            && (if Starts(q)
                then Recorded(q', live, started + [x], completed, Started(w, x.key), letIn, all)
                else Recorded(q', live, started, completed, w, letIn, all))
            && (Starts(q) && !w.clashed ==> (Exclusive(q') <==> x.key !in w.exposed))
  {
    assert Look(Part.KeyedRecord);
    var x, rest := q.unscheduled[0], q.unscheduled[1..];
    assert q.unscheduled == [x] + rest;
    ScheduleAccounted(q, letIn);
    if x.key in q.byKey {
      WaitForKeyOk(q, multiset(live), x, rest);
      WaitExclusive(q, WaitForKey(q, x, rest), w);
    } else if !Starts(q) {
      WaitForShardOk(q, multiset(live), x, x.shard.value.0, rest);
      WaitExclusive(q, WaitForShard(q, x, x.shard.value.0, rest), w);
      WaitLimited(q, all, x, x.shard.value.0, rest);
    } else {
      StartRecorded(q, live, started, completed, w, letIn, all);
    }
  }

  lemma StartRecorded(q: Queues, live: seq<Item>, started: seq<Item>, completed: seq<Item>, w: Watch,
                      letIn: multiset<ShardKey>, all: multiset<Item>)
    requires RecordsOk(q, live, started, completed, w, letIn, all) && q.unscheduled != [] && Starts(q)
    requires Accounted(ScheduleFirst(q), letIn)
    ensures var x := q.unscheduled[0];
            && RecordsOk(ScheduleFirst(q), live, started + [x], completed, Started(w, x.key), letIn, all)
            && (!w.clashed ==> (Exclusive(ScheduleFirst(q)) <==> x.key !in w.exposed))
  {
    var x, rest := q.unscheduled[0], q.unscheduled[1..];
    assert q.unscheduled == [x] + rest;
    NextIsLive(q, live, completed, all, x, rest);
    StartExplained(q, multiset(live), x, rest, w, completed, all);
    StartOk(q, multiset(live), x, rest);
    StartBalanced(started, completed, q.scheduled, live, all, x);
    StartExclusive(q, x, rest, w);
    StartLimited(q, all, x);
  }

  /** Running item `k`, which is live item `i`, completes. */
  lemma CompleteRecorded(q: Queues, k: nat, i: nat, live: seq<Item>, started: seq<Item>, completed: seq<Item>,
                         w: Watch, letIn: multiset<ShardKey>, all: multiset<Item>)
    requires Recorded(q, live, started, completed, w, letIn, all)
    requires k < |q.scheduled| && i < |live| && live[i] == q.scheduled[k]
    ensures var x := live[i];
            && Recorded(Complete(q, k, Reversed(x.Children())), Expanded(live, i), started + NextForKey(q, x.key),
                        completed + [x], Completed(w, q, x.key), letIn + LetIn(q, k), all)
            && forall s :: letIn[s] == 0 ==>
                 (Uncounted(Complete(q, k, Reversed(x.Children())), s) > 0 <==> s in letIn + LetIn(q, k))
    ensures |Trees(Expanded(live, i))| < |Trees(live)|
  {
    assert Look(Part.KeyedRecord);
    var x, front := live[i], Reversed(live[i].Children());
    ReversedMultiset(x.Children());
    CompleteBalanced(q, k, i, started, completed, NextForKey(q, x.key), live, all);
    TreesIncludeItems(live);
    CompleteOk(q, multiset(live), multiset(Expanded(live, i)), k, front);
    CompleteWatched(q, multiset(live), k, front, w);
    CompleteExplained(w, q, x, completed, all);
    CompleteLimited(q, all, k, front);
    CompleteAccounted(q, k, front, letIn);
    CompleteShares(q, multiset(live), k, letIn, all);
  }

  /** Some live item is the running item `k` that completes. */
  lemma Completes(q: Queues, k: nat, live: seq<Item>, started: seq<Item>, completed: seq<Item>, w: Watch,
                  letIn: multiset<ShardKey>, all: multiset<Item>) returns (i: nat)
    requires Recorded(q, live, started, completed, w, letIn, all) && k < |q.scheduled|
    ensures i < |live| && live[i] == q.scheduled[k]
    ensures var x := live[i];
            && Recorded(Complete(q, k, Reversed(x.Children())), Expanded(live, i), started + NextForKey(q, x.key),
                        completed + [x], Completed(w, q, x.key), letIn + LetIn(q, k), all)
            && forall s :: letIn[s] == 0 ==>
                 (Uncounted(Complete(q, k, Reversed(x.Children())), s) > 0 <==> s in letIn + LetIn(q, k))
    ensures |Trees(Expanded(live, i))| < |Trees(live)|
  {
    assert Look(Part.KeyedRecord);
    i := RunningIsLive(q, live, q.scheduled[k]);
    CompleteRecorded(q, k, i, live, started, completed, w, letIn, all);
  }

  lemma CompleteWatched(q: Queues, live: multiset<Item>, k: nat, front: seq<Item>, w: Watch)
    requires Kept(q, live) && Watched(q, w) && k < |q.scheduled|
    ensures Watched(Complete(q, k, front), Completed(w, q, q.scheduled[k].key))
  {
    assert Look(Part.KeyedQueue);
    assert KeyOk(q, q.scheduled[k].key);
    CompleteExclusive(q, k, front, w);
  }
}
