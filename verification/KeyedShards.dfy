/** The counters of shards, and the items that run without being counted. */
module KeyedShards {
  import opened Common
  import opened KeyedQueues

  /** How many more items of a shard run than are counted. */
  ghost function Uncounted(q: Queues, s: ShardKey): int {
    InShard(q.scheduled, s) - ShardOf(q, s).0
  }

  /** The shard of the item, if any, that waits for the key of running item `i` and is let in when it completes. */
  ghost function LetIn(q: Queues, i: nat): multiset<ShardKey>
    requires i < |q.scheduled|
  {
    var next := NextForKey(q, q.scheduled[i].key);
    if next != [] && next[0].shard.Some? then multiset{next[0].shard.value.0} else multiset{}
  }

  /** Scheduling an item, whether it starts or waits, changes nothing of the account. */
  lemma ScheduleUncounted(q: Queues, s: ShardKey)
    requires q.unscheduled != []
    ensures Uncounted(ScheduleFirst(q), s) == Uncounted(q, s)
  {
    InShardAppend(q.scheduled, q.unscheduled[0], s);
  }

  /** A completed item lowers the counter unless it is zero; one that is let in by its key is not counted. */
  lemma CompleteUncounted(q: Queues, i: nat, children: seq<Item>, s: ShardKey)
    requires i < |q.scheduled|
    ensures Uncounted(Complete(q, i, children), s)
         == Uncounted(q, s) + LetIn(q, i)[s] - (if q.scheduled[i].InShard(s) && ShardOf(q, s).0 == 0 then 1 else 0)
  {
    var x, q' := q.scheduled[i], Complete(q, i, children);
    var kept := q.scheduled[..i] + q.scheduled[i + 1..];
    InShardRemove(q.scheduled, i, s);
    if NextForKey(q, x.key) == [] {
      assert q'.scheduled == kept;
    } else {
      assert q'.scheduled == kept + [q.byKey[x.key][0]];
      InShardAppend(kept, q.byKey[x.key][0], s);
    }
  }

  // ---------------------------------------------------------------- whole runs

  /** Where `letIn` are the shards of all items that were let in by their keys. */
  ghost predicate AccountOk(q: Queues, letIn: multiset<ShardKey>, s: ShardKey) {
    0 <= Uncounted(q, s) <= letIn[s]
  }

  ghost predicate Accounted(q: Queues, letIn: multiset<ShardKey>) {
    forall part {:trigger Look(part)} :: Look(part) && part == Part.ShardAccount ==>
      forall s {:trigger AccountOk(q, letIn, s)} :: AccountOk(q, letIn, s)
  }

  lemma AccountStarts(init: seq<Item>)
    ensures Accounted(Queues(init, [], map[], map[]), multiset{})
  {
  }

  lemma ScheduleAccounted(q: Queues, letIn: multiset<ShardKey>)
    requires q.unscheduled != [] && Accounted(q, letIn)
    ensures Accounted(ScheduleFirst(q), letIn)
  {
    assert Look(Part.ShardAccount);
    forall s ensures AccountOk(ScheduleFirst(q), letIn, s) {
      assert AccountOk(q, letIn, s);
      ScheduleUncounted(q, s);
    }
  }

  /** Up to then as many items of a shard ran as were counted: that ends exactly when an item of the shard is let in
      by its key. */
  lemma CompleteAccounted(q: Queues, i: nat, children: seq<Item>, letIn: multiset<ShardKey>)
    requires i < |q.scheduled| && Accounted(q, letIn)
    ensures Accounted(Complete(q, i, children), letIn + LetIn(q, i))
    ensures forall s :: letIn[s] == 0 ==> (Uncounted(Complete(q, i, children), s) > 0 <==> LetIn(q, i)[s] > 0)
  {
    assert Look(Part.ShardAccount);
    forall s
      ensures AccountOk(Complete(q, i, children), letIn + LetIn(q, i), s)
      ensures letIn[s] == 0 ==> (Uncounted(Complete(q, i, children), s) > 0 <==> LetIn(q, i)[s] > 0)
    {
      assert AccountOk(q, letIn, s);
      CompleteUncounted(q, i, children, s);
      InShardRemove(q.scheduled, i, s);
    }
  }

  /** The completion of an item is the only step that makes more items of a shard run than are counted.  It does so
      if and only if it lets in an item of the shard, unless the completed item was itself not counted. */
  lemma UncountedRises(q: Queues, i: nat, children: seq<Item>, s: ShardKey)
    requires i < |q.scheduled|
    ensures Uncounted(Complete(q, i, children), s) > Uncounted(q, s) <==>
              s in LetIn(q, i) && !(q.scheduled[i].InShard(s) && ShardOf(q, s).0 == 0)
  {
    CompleteUncounted(q, i, children, s);
  }

  /** No more items of a shard run than are counted and were let in. */
  lemma RunningInShard(q: Queues, letIn: multiset<ShardKey>, all: multiset<Item>, s: ShardKey, number: nat)
    requires Accounted(q, letIn) && Limited(q.byShard, all)
    requires forall x: Item :: x in all && x.InShard(s) ==> x.shard.value.1 <= number
    ensures ShardOf(q, s).0 <= number + 1
    ensures InShard(q.scheduled, s) <= ShardOf(q, s).0 + letIn[s]
    ensures s !in letIn ==> InShard(q.scheduled, s) == ShardOf(q, s).0
  {
    assert Look(Part.ShardAccount);
    assert AccountOk(q, letIn, s);
    if s in q.byShard {
      LimitedByNumber(q.byShard, all, s, number);
    }
  }

  // ---------------------------------------------------------------- which items are let in

  /** Some item of the shard has the same key as another item. */
  ghost predicate SharesKey(all: multiset<Item>, s: ShardKey) {
    exists x: Item, y: Item :: multiset{x, y} <= all && x.key == y.key && y.InShard(s)
  }

  /** An item that is let in waited for another one. */
  lemma LetInShares(q: Queues, live: multiset<Item>, i: nat, s: ShardKey)
    requires Kept(q, live) && i < |q.scheduled| && s in LetIn(q, i)
    ensures SharesKey(live, s)
  {
    assert Look(Part.KeyedQueue);
    var x := q.scheduled[i];
    assert KeyOk(q, x.key);
    var y := q.byKey[x.key][0];
    assert y in q.byKey[x.key] && y.key == x.key;
    assert multiset{x, y} <= live;
  }

  ghost predicate AllShare(letIn: multiset<ShardKey>, all: multiset<Item>) {
    forall part {:trigger Look(part)} :: Look(part) && part == Part.ShardAccount ==>
      forall s {:trigger letIn[s]} :: letIn[s] > 0 ==> SharesKey(all, s)
  }

  lemma CompleteShares(q: Queues, live: multiset<Item>, i: nat, letIn: multiset<ShardKey>, all: multiset<Item>)
    requires Kept(q, live) && i < |q.scheduled| && AllShare(letIn, all) && live <= all
    ensures AllShare(letIn + LetIn(q, i), all)
  {
    assert Look(Part.ShardAccount);
    forall s | s in letIn + LetIn(q, i) ensures SharesKey(all, s) {
      if s in LetIn(q, i) {
        LetInShares(q, live, i, s);
        var x, y: Item :| multiset{x, y} <= live && x.key == y.key && y.InShard(s);
        assert multiset{x, y} <= all;
      } else {
        assert s in letIn;
      }
    }
  }
}
