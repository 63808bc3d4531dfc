/** The order in which items wait for their keys and shards, and are let in. */
module KeyedOrder {
  import opened Common
  import opened KeyedQueues

  /** The items that came to wait for their key or their shard, and those that were let in from there. */
  datatype History = History(keyJoined: seq<Item>, keyLeft: seq<Item>, shardJoined: seq<Item>, shardLeft: seq<Item>)

  ghost function OfKey(items: seq<Item>, k: Key): seq<Item> {
    if items == [] then []
    else OfKey(items[..|items| - 1], k) + if items[|items| - 1].key == k then [items[|items| - 1]] else []
  }

  ghost function OfShard(items: seq<Item>, s: ShardKey): seq<Item> {
    if items == [] then []
    else OfShard(items[..|items| - 1], s) + if items[|items| - 1].InShard(s) then [items[|items| - 1]] else []
  }

  lemma OfKeyAppend(items: seq<Item>, x: Item, k: Key)
    ensures OfKey(items + [x], k) == OfKey(items, k) + if x.key == k then [x] else []
  {
    assert (items + [x])[..|items|] == items;
  }

  lemma OfShardAppend(items: seq<Item>, x: Item, s: ShardKey)
    ensures OfShard(items + [x], s) == OfShard(items, s) + if x.InShard(s) then [x] else []
  {
    assert (items + [x])[..|items|] == items;
  }

  ghost function KeyQueue(q: Queues, k: Key): seq<Item> {
    if k in q.byKey then q.byKey[k] else []
  }

  // ---------------------------------------------------------------- what one step does

  /** The next item is taken from the queue.  It waits behind all others if its key has a queue, or else if its shard
      counts more than the number that it comes with; otherwise it starts. */
  ghost predicate Scheduled(q: Queues, q': Queues)
    requires q.unscheduled != []
  {
    var x := q.unscheduled[0];
    && q'.unscheduled == q.unscheduled[1..]
    && if x.key in q.byKey then
         && q'.scheduled == q.scheduled && q'.byShard == q.byShard && q'.byKey.Keys == q.byKey.Keys
         && q'.byKey[x.key] == q.byKey[x.key] + [x]
         && forall k :: k in q.byKey && k != x.key ==> q'.byKey[k] == q.byKey[k]
       else if x.shard.Some? && ShardOf(q, x.shard.value.0).0 > x.shard.value.1 then
         && q'.scheduled == q.scheduled && q'.byKey == q.byKey
         && q'.byShard == q.byShard[x.shard.value.0 :=
              (ShardOf(q, x.shard.value.0).0, ShardOf(q, x.shard.value.0).1 + [x])]
       else
         && q'.scheduled == q.scheduled + [x] && q'.byKey == q.byKey[x.key := []]
         && q'.byShard == if x.shard.None? then q.byShard
                          else q.byShard[x.shard.value.0 :=
                            (ShardOf(q, x.shard.value.0).0 + 1, ShardOf(q, x.shard.value.0).1)]
  }

  /** Running item `i` has completed.  The first item that waits for its key, if any, runs; the first that waits for
      its shard, if any, is next but for the children, of which the last comes first. */
  ghost predicate Released(q: Queues, i: nat, q': Queues)
    requires i < |q.scheduled|
  {
    var x := q.scheduled[i];
    var children := x.Children();
    && ReleasedKey(q, x.key, q.scheduled[..i] + q.scheduled[i + 1..], q')
    && |q'.unscheduled| >= |children|
    && (forall j :: 0 <= j < |children| ==> q'.unscheduled[j] == children[|children| - 1 - j])
    && ReleasedShard(q, x, q'.unscheduled[|children|..], q')
  }

  ghost predicate ReleasedKey(q: Queues, k: Key, others: seq<Item>, q': Queues) {
    && (forall j :: j != k ==> (j in q'.byKey <==> j in q.byKey) && (j in q.byKey ==> q'.byKey[j] == q.byKey[j]))
    && if KeyQueue(q, k) == [] then q'.scheduled == others && k !in q'.byKey
       else
         && q'.scheduled == others + [q.byKey[k][0]]
         && (k in q'.byKey <==> |q.byKey[k]| > 1) && (k in q'.byKey ==> q'.byKey[k] == q.byKey[k][1..])
  }

  ghost predicate ReleasedShard(q: Queues, x: Item, waiting: seq<Item>, q': Queues) {
    match x.shard
    case None => q'.byShard == q.byShard && waiting == q.unscheduled
    case Some(shard) =>
      var s := shard.0;
      if s !in q.byShard then q'.byShard == q.byShard && waiting == q.unscheduled
      else
        var counter: nat := if q.byShard[s].0 == 0 then 0 else q.byShard[s].0 - 1;
        if q.byShard[s].1 == [] then q'.byShard == q.byShard[s := (counter, [])] && waiting == q.unscheduled
        else
          && q'.byShard == q.byShard[s := (counter, q.byShard[s].1[1..])]
          && waiting == [q.byShard[s].1[0]] + q.unscheduled
  }

  lemma ScheduleFirstIs(q: Queues)
    requires q.unscheduled != []
    ensures Scheduled(q, ScheduleFirst(q))
  {
  }

  lemma {:induction false} ReversedAt(items: seq<Item>, j: nat)
    requires j < |items|
    ensures |Reversed(items)| == |items| && Reversed(items)[j] == items[|items| - 1 - j]
  {
    if j > 0 {
      ReversedAt(items[..|items| - 1], j - 1);
    } else if |items| > 1 {
      ReversedAt(items[..|items| - 1], 0);
    }
  }

  lemma CompleteIs(q: Queues, i: nat)
    requires i < |q.scheduled|
    ensures Released(q, i, Complete(q, i, Reversed(q.scheduled[i].Children())))
  {
    var x := q.scheduled[i];
    var children := x.Children();
    var q' := Complete(q, i, Reversed(children));
    var front := Reversed(children);
    assert |front| == |children| by {
      if children != [] {
        ReversedAt(children, 0);
      }
    }
    forall j | 0 <= j < |children| ensures q'.unscheduled[j] == children[|children| - 1 - j] {
      ReversedAt(children, j);
    }
    assert q'.unscheduled[|children|..] == NextForShard(q, x) + q.unscheduled;
    CompleteReleasesKey(q, i, Reversed(children));
    CompleteReleasesShard(q, i, Reversed(children));
  }

  lemma CompleteReleasesKey(q: Queues, i: nat, front: seq<Item>)
    requires i < |q.scheduled|
    ensures ReleasedKey(q, q.scheduled[i].key, q.scheduled[..i] + q.scheduled[i + 1..], Complete(q, i, front))
  {
    var k := q.scheduled[i].key;
    var others := q.scheduled[..i] + q.scheduled[i + 1..];
    if KeyQueue(q, k) == [] {
      assert others + [] == others;
    } else {
      assert q.byKey[k][..1] == [q.byKey[k][0]];
    }
  }

  lemma CompleteReleasesShard(q: Queues, i: nat, front: seq<Item>)
    requires i < |q.scheduled|
    ensures ReleasedShard(q, q.scheduled[i], NextForShard(q, q.scheduled[i]) + q.unscheduled, Complete(q, i, front))
  {
    var x := q.scheduled[i];
    assert [] + q.unscheduled == q.unscheduled;
    if x.shard.Some? && x.shard.value.0 in q.byShard && q.byShard[x.shard.value.0].1 != [] {
      assert q.byShard[x.shard.value.0].1[..1] == [q.byShard[x.shard.value.0].1[0]];
    }
  }

  // ---------------------------------------------------------------- first come, first served

  /** Of the items with key `k` that joined, those that left are the first, and the others are in `queue`, in the order
      in which they joined. */
  ghost predicate KeyInTurn(joined: seq<Item>, left: seq<Item>, queue: seq<Item>, k: Key) {
    OfKey(joined, k) == OfKey(left, k) + queue && forall x :: x in queue ==> x.key == k
  }

  ghost predicate ShardInTurn(joined: seq<Item>, left: seq<Item>, queue: seq<Item>, s: ShardKey) {
    OfShard(joined, s) == OfShard(left, s) + queue && forall x :: x in queue ==> x.InShard(s)
  }

  lemma KeyJoins(joined: seq<Item>, left: seq<Item>, queue: seq<Item>, x: Item, k: Key)
    requires KeyInTurn(joined, left, queue, k)
    ensures KeyInTurn(joined + [x], left, if x.key == k then queue + [x] else queue, k)
  {
    OfKeyAppend(joined, x, k);
    assert (OfKey(left, k) + queue) + [x] == OfKey(left, k) + (queue + [x]);
    assert OfKey(joined, k) + [] == OfKey(joined, k);
  }

  lemma Regroup(before: seq<Item>, x: Item, after: seq<Item>)
    ensures (before + [x]) + after == before + ([x] + after)
    ensures forall y :: y in after ==> y in [x] + after
  {
  }

  lemma KeyLeaves(joined: seq<Item>, left: seq<Item>, queue: seq<Item>, x: Item, k: Key)
    requires KeyInTurn(joined, left, if x.key == k then [x] + queue else queue, k)
    ensures KeyInTurn(joined, left + [x], queue, k)
  {
    OfKeyAppend(left, x, k);
    if x.key == k {
      Regroup(OfKey(left, k), x, queue);
    } else {
      assert OfKey(left, k) + [] == OfKey(left, k);
    }
  }

  lemma ShardJoins(joined: seq<Item>, left: seq<Item>, queue: seq<Item>, x: Item, s: ShardKey)
    requires ShardInTurn(joined, left, queue, s)
    ensures ShardInTurn(joined + [x], left, if x.InShard(s) then queue + [x] else queue, s)
  {
    OfShardAppend(joined, x, s);
    assert (OfShard(left, s) + queue) + [x] == OfShard(left, s) + (queue + [x]);
    assert OfShard(joined, s) + [] == OfShard(joined, s);
  }

  lemma ShardLeaves(joined: seq<Item>, left: seq<Item>, queue: seq<Item>, x: Item, s: ShardKey)
    requires ShardInTurn(joined, left, if x.InShard(s) then [x] + queue else queue, s)
    ensures ShardInTurn(joined, left + [x], queue, s)
  {
    OfShardAppend(left, x, s);
    if x.InShard(s) {
      Regroup(OfShard(left, s), x, queue);
    } else {
      assert OfShard(left, s) + [] == OfShard(left, s);
    }
  }

  /** For each key and each shard, whoever came first is let in first. */
  ghost predicate InTurnOk(q: Queues, h: History) {
    && (forall k {:trigger KeyQueue(q, k)} :: KeyInTurn(h.keyJoined, h.keyLeft, KeyQueue(q, k), k))
    && (forall s {:trigger ShardOf(q, s)} :: ShardInTurn(h.shardJoined, h.shardLeft, ShardOf(q, s).1, s))
  }

  ghost predicate InTurn(q: Queues, h: History) {
    forall part {:trigger Look(part)} :: Look(part) && part == Part.KeyedTurns ==> InTurnOk(q, h)
  }

  lemma InTurnStarts(init: seq<Item>)
    ensures InTurn(Queues(init, [], map[], map[]), History([], [], [], []))
  {
  }

  /** The next item joins those that wait for its key, or for its shard, or starts. */
  ghost function Joined(q: Queues, h: History): History
    requires q.unscheduled != []
  {
    var x := q.unscheduled[0];
    if x.key in q.byKey then h.(keyJoined := h.keyJoined + [x])
    else if x.shard.Some? && ShardOf(q, x.shard.value.0).0 > x.shard.value.1
    then h.(shardJoined := h.shardJoined + [x])
    else h
  }

  lemma ScheduleInTurn(q: Queues, h: History)
    requires q.unscheduled != [] && InTurn(q, h)
    ensures InTurn(ScheduleFirst(q), Joined(q, h))
  {
    assert Look(Part.KeyedTurns);
    var x, q', h' := q.unscheduled[0], ScheduleFirst(q), Joined(q, h);
    forall k ensures KeyInTurn(h'.keyJoined, h'.keyLeft, KeyQueue(q', k), k) {
      KeyJoins(h.keyJoined, h.keyLeft, KeyQueue(q, k), x, k);
    }
    forall s ensures ShardInTurn(h'.shardJoined, h'.shardLeft, ShardOf(q', s).1, s) {
      ShardJoins(h.shardJoined, h.shardLeft, ShardOf(q, s).1, x, s);
    }
  }

  /** Running item `i` completes: who is let in by its key, and by its shard. */
  ghost function Left(q: Queues, i: nat, h: History): History
    requires i < |q.scheduled|
  {
    h.(keyLeft := h.keyLeft + NextForKey(q, q.scheduled[i].key),
       shardLeft := h.shardLeft + NextForShard(q, q.scheduled[i]))
  }

  lemma CompleteInTurn(q: Queues, i: nat, front: seq<Item>, h: History)
    requires i < |q.scheduled| && InTurn(q, h)
    ensures InTurn(Complete(q, i, front), Left(q, i, h))
  {
    assert Look(Part.KeyedTurns);
    KeysInTurn(q, i, front, h);
    ShardsInTurn(q, i, front, h);
  }

  lemma KeysInTurn(q: Queues, i: nat, front: seq<Item>, h: History)
    requires i < |q.scheduled| && InTurnOk(q, h)
    ensures forall k {:trigger KeyQueue(Complete(q, i, front), k)} ::
              KeyInTurn(h.keyJoined, Left(q, i, h).keyLeft, KeyQueue(Complete(q, i, front), k), k)
  {
    var done := q.scheduled[i].key;
    if KeyQueue(q, done) == [] {
      assert h.keyLeft + [] == h.keyLeft;
      forall k ensures KeyQueue(Complete(q, i, front), k) == KeyQueue(q, k) {
      }
    } else {
      var y, rest := q.byKey[done][0], q.byKey[done][1..];
      assert q.byKey[done] == [y] + rest && q.byKey[done][..1] == [y] && y in KeyQueue(q, done);
      forall k ensures KeyInTurn(h.keyJoined, h.keyLeft + [y], KeyQueue(Complete(q, i, front), k), k) {
        KeyLeaves(h.keyJoined, h.keyLeft, if k == done then rest else KeyQueue(q, k), y, k);
      }
    }
  }

  lemma ShardsInTurn(q: Queues, i: nat, front: seq<Item>, h: History)
    requires i < |q.scheduled| && InTurnOk(q, h)
    ensures forall s {:trigger ShardOf(Complete(q, i, front), s)} ::
              ShardInTurn(h.shardJoined, Left(q, i, h).shardLeft, ShardOf(Complete(q, i, front), s).1, s)
  {
    var x := q.scheduled[i];
    if NextForShard(q, x) == [] {
      assert h.shardLeft + [] == h.shardLeft;
      forall s ensures ShardOf(Complete(q, i, front), s).1 == ShardOf(q, s).1 {
      }
    } else {
      var r := x.shard.value.0;
      var y, rest := ShardOf(q, r).1[0], ShardOf(q, r).1[1..];
      assert ShardOf(q, r).1 == [y] + rest && ShardOf(q, r).1[..1] == [y] && y in ShardOf(q, r).1;
      forall s ensures ShardInTurn(h.shardJoined, h.shardLeft + [y], ShardOf(Complete(q, i, front), s).1, s) {
        ShardLeaves(h.shardJoined, h.shardLeft, if s == r then rest else ShardOf(q, s).1, y, s);
      }
    }
  }
}
