/** The wait queues of a traversal that is limited by key and by shard. */
module KeyedQueues {
  import opened Common

  type Key(==, !new)
  type ShardKey(==, !new)
  type Out(!new)

  /** What an unfold returns: an output and children, or nothing. */
  datatype Unfolded = Nothing | Something(out: Out, children: seq<Item>)

  /** An item to be unfolded: its key, its shard with the number of items that may run there, and what the
      unfold will return. */
  datatype Item = Item(key: Key, shard: Option<(ShardKey, nat)>, unfolded: Unfolded)
  {
    function Children(): seq<Item> {
      match unfolded
      case Nothing => []
      case Something(_, children) => children
    }

    predicate InShard(s: ShardKey) {
      shard.Some? && shard.value.0 == s
    }
  }

  /** The number of items that are running or were, and the items that wait. */
  type Shard = (nat, seq<Item>)

  /** Where items wait: to be scheduled, running, for their key, or for their shard. */
  datatype Queues = Queues(unscheduled: seq<Item>, scheduled: seq<Item>, byKey: map<Key, seq<Item>>,
                           byShard: map<ShardKey, Shard>)

  // ---------------------------------------------------------------- everything below some items

  ghost function Trees(items: seq<Item>): multiset<Item> {
    if items == [] then multiset{} else Tree(items[0]) + Trees(items[1..])
  }

  /** An item and everything below it. */
  ghost function Tree(item: Item): multiset<Item> {
    multiset{item} + match item.unfolded
      case Nothing => multiset{}
      case Something(_, children) => Trees(children)
  }

  lemma TreesFirst(x: Item, rest: seq<Item>)
    ensures Trees([x] + rest) == Tree(x) + Trees(rest)
  {
    assert ([x] + rest)[1..] == rest;
  }

  lemma {:induction false} TreesConcat(a: seq<Item>, b: seq<Item>)
    ensures Trees(a + b) == Trees(a) + Trees(b)
  {
    if a == [] {
      assert a + b == b;
    } else {
      TreesConcat(a[1..], b);
      TreesFirst(a[0], a[1..] + b);
      ConcatFirst(a, b);
    }
  }

  /** Item `i` is replaced by its children. */
  ghost function Expanded(items: seq<Item>, i: nat): seq<Item>
    requires i < |items|
  {
    items[..i] + items[i].Children() + items[i + 1..]
  }

  lemma ThreeParts(items: seq<Item>, i: nat)
    requires i < |items|
    ensures items == items[..i] + ([items[i]] + items[i + 1..])
  {
  }

  lemma TreesExpanded(items: seq<Item>, i: nat)
    requires i < |items|
    ensures Trees(items) == multiset{items[i]} + Trees(Expanded(items, i))
  {
    var x, before, after := items[i], items[..i], items[i + 1..];
    ThreeParts(items, i);
    TreesConcat(before, [x] + after);
    TreesFirst(x, after);
    TreesConcat(before, x.Children());
    TreesConcat(before + x.Children(), after);
  }

  lemma MultisetExpanded(items: seq<Item>, i: nat)
    requires i < |items|
    ensures multiset(Expanded(items, i)) + multiset{items[i]} == multiset(items) + multiset(items[i].Children())
  {
    ThreeParts(items, i);
    assert multiset(items) == multiset(items[..i]) + (multiset{items[i]} + multiset(items[i + 1..]));
  }

  lemma {:induction false} TreesContain(items: seq<Item>, x: Item)
    requires x in items
    ensures x in Trees(items)
  {
    if x != items[0] {
      TreesContain(items[1..], x);
    }
  }

  lemma {:induction false} TreesIncludeItems(items: seq<Item>)
    ensures multiset(items) <= Trees(items)
  {
    if items != [] {
      TreesIncludeItems(items[1..]);
      assert items == [items[0]] + items[1..];
    }
  }

  // ---------------------------------------------------------------- the invariant

  ghost function CountKey(q: Queues, x: Item): nat {
    if x.key in q.byKey then multiset(q.byKey[x.key])[x] else 0
  }

  ghost function CountShard(q: Queues, x: Item): nat {
    if x.shard.Some? && x.shard.value.0 in q.byShard then multiset(q.byShard[x.shard.value.0].1)[x] else 0
  }

  /** Every live item is in exactly one place. */
  ghost predicate Placed(q: Queues, live: multiset<Item>) {
    forall x :: live[x] == multiset(q.unscheduled)[x] + multiset(q.scheduled)[x] + CountKey(q, x) + CountShard(q, x)
  }

  /** While items wait for a key, an item with that key is running. */
  ghost predicate KeyOk(q: Queues, k: Key) {
    k in q.byKey ==>
      && (forall x :: x in q.byKey[k] ==> x.key == k)
      && exists i :: 0 <= i < |q.scheduled| && q.scheduled[i].key == k
  }

  /** The number of items of a shard. */
  ghost function InShard(items: seq<Item>, s: ShardKey): nat {
    if items == [] then 0 else InShard(items[..|items| - 1], s) + if items[|items| - 1].InShard(s) then 1 else 0
  }

  /** An item of the shard does not wait for the shard. */
  ghost predicate LiveElsewhere(q: Queues, s: ShardKey) {
    exists x: Item ::
      x.InShard(s) && (x in q.unscheduled || x in q.scheduled || (x.key in q.byKey && x in q.byKey[x.key]))
  }

  /** The counter of a shard is not more than the items that run in it; while items wait for the shard, there
      is another one that will let them in. */
  ghost predicate ShardOk(q: Queues, s: ShardKey) {
    s in q.byShard ==>
      && (forall x :: x in q.byShard[s].1 ==> x.InShard(s))
      && q.byShard[s].0 <= InShard(q.scheduled, s)
      && (q.byShard[s].1 != [] ==> LiveElsewhere(q, s))
  }

  ghost predicate QueuesOk(q: Queues, live: multiset<Item>) {
    && Placed(q, live)
    && (forall k {:trigger KeyOk(q, k)} :: KeyOk(q, k))
    && (forall s {:trigger ShardOk(q, s)} :: ShardOk(q, s))
  }

  /** The invariant, as the traversal passes it on. */
  ghost predicate Kept(q: Queues, live: multiset<Item>) {
    forall part {:trigger Look(part)} :: Look(part) && part == Part.KeyedQueue ==> QueuesOk(q, live)
  }

  lemma {:induction false} SomeInShard(items: seq<Item>, s: ShardKey)
    ensures InShard(items, s) > 0 ==> exists x :: x in items && x.InShard(s)
  {
    if items != [] {
      SomeInShard(items[..|items| - 1], s);
      assert items == items[..|items| - 1] + [items[|items| - 1]];
    }
  }

  lemma InShardAppend(items: seq<Item>, x: Item, s: ShardKey)
    ensures InShard(items + [x], s) == InShard(items, s) + if x.InShard(s) then 1 else 0
  {
    assert (items + [x])[..|items|] == items;
  }

  lemma {:induction false} InShardRemove(items: seq<Item>, i: nat, s: ShardKey)
    requires i < |items|
    ensures InShard(items, s) == InShard(items[..i] + items[i + 1..], s) + if items[i].InShard(s) then 1 else 0
  {
    var init, last := items[..|items| - 1], items[|items| - 1];
    if i < |items| - 1 {
      InShardRemove(init, i, s);
      assert items[..i] + items[i + 1..] == init[..i] + init[i + 1..] + [last];
      InShardAppend(init[..i] + init[i + 1..], last, s);
    } else {
      assert items[..i] + items[i + 1..] == init;
    }
  }

  /** When nothing is running or waits to be scheduled, nothing waits at all. */
  lemma NothingStranded(q: Queues, live: multiset<Item>)
    requires Kept(q, live) && q.unscheduled == [] && q.scheduled == []
    ensures live == multiset{} && q.byKey == map[] && forall s :: s in q.byShard ==> q.byShard[s].1 == []
  {
    assert Look(Part.KeyedQueue);
    forall k ensures k !in q.byKey { assert KeyOk(q, k); }
    forall s | s in q.byShard ensures q.byShard[s].1 == [] { assert ShardOk(q, s); }
    forall x ensures live[x] == 0 {
    }
    assert forall x :: x !in live;
  }

  // ---------------------------------------------------------------- scheduling an item

  ghost function WaitForKey(q: Queues, x: Item, rest: seq<Item>): Queues
    requires x.key in q.byKey
  {
    q.(unscheduled := rest, byKey := q.byKey[x.key := q.byKey[x.key] + [x]])
  }

  /** An item with the same key is running: the next item waits. */
  lemma WaitForKeyOk(q: Queues, live: multiset<Item>, x: Item, rest: seq<Item>)
    requires Kept(q, live) && q.unscheduled == [x] + rest && x.key in q.byKey
    ensures Kept(WaitForKey(q, x, rest), live)
    ensures q.scheduled != []
  {
    assert Look(Part.KeyedQueue);
    var q' := WaitForKey(q, x, rest);
    assert KeyOk(q, x.key);
    forall k ensures KeyOk(q', k) { assert KeyOk(q, k); }
    forall s ensures ShardOk(q', s) {
      assert ShardOk(q, s);
      if LiveElsewhere(q, s) {
        var y: Item :| y.InShard(s)
          && (y in q.unscheduled || y in q.scheduled || (y.key in q.byKey && y in q.byKey[y.key]));
        assert y == x || y in q'.unscheduled || y in q'.scheduled || (y.key in q'.byKey && y in q'.byKey[y.key]);
      }
    }
    assert multiset(q.unscheduled) == multiset{x} + multiset(rest);
  }

  ghost function ShardOf(q: Queues, s: ShardKey): Shard {
    if s in q.byShard then q.byShard[s] else (0, [])
  }

  ghost function WaitForShard(q: Queues, x: Item, s: ShardKey, rest: seq<Item>): Queues {
    q.(unscheduled := rest, byShard := q.byShard[s := (ShardOf(q, s).0, ShardOf(q, s).1 + [x])])
  }

  lemma WaitForShardEach(q: Queues, x: Item, s: ShardKey, rest: seq<Item>, r: ShardKey)
    requires ShardOk(q, r) && q.unscheduled == [x] + rest && x.InShard(s)
    requires exists y :: y in q.scheduled && y.InShard(s)
    ensures ShardOk(WaitForShard(q, x, s, rest), r)
  {
    var q' := WaitForShard(q, x, s, rest);
    if r == s {
      var y :| y in q.scheduled && y.InShard(s);
      assert y in q'.scheduled;
    } else if LiveElsewhere(q, r) {
      var z: Item :| z.InShard(r)
        && (z in q.unscheduled || z in q.scheduled || (z.key in q.byKey && z in q.byKey[z.key]));
      assert z in q'.unscheduled || z in q'.scheduled || (z.key in q'.byKey && z in q'.byKey[z.key]);
    }
  }

  lemma WaitForShardPlaced(q: Queues, live: multiset<Item>, x: Item, s: ShardKey, rest: seq<Item>)
    requires Placed(q, live) && q.unscheduled == [x] + rest && x.InShard(s)
    ensures Placed(WaitForShard(q, x, s, rest), live)
  {
    var q' := WaitForShard(q, x, s, rest);
    forall y
      ensures live[y] == multiset(q'.unscheduled)[y] + multiset(q'.scheduled)[y] + CountKey(q', y) + CountShard(q', y)
    {
      assert multiset(q.unscheduled)[y] == multiset{x}[y] + multiset(rest)[y];
      assert CountShard(q', y) == CountShard(q, y) + multiset{x}[y];
    }
  }

  /** Enough items are running in the shard: the next item waits. */
  lemma WaitForShardOk(q: Queues, live: multiset<Item>, x: Item, s: ShardKey, rest: seq<Item>)
    requires Kept(q, live) && q.unscheduled == [x] + rest && x.InShard(s) && ShardOf(q, s).0 > 0
    ensures Kept(WaitForShard(q, x, s, rest), live)
    ensures q.scheduled != []
  {
    assert Look(Part.KeyedQueue);
    var q' := WaitForShard(q, x, s, rest);
    assert ShardOk(q, s);
    SomeInShard(q.scheduled, s);
    WaitForShardPlaced(q, live, x, s, rest);
    forall k ensures KeyOk(q', k) { assert KeyOk(q, k); }
    forall r ensures ShardOk(q', r) {
      assert ShardOk(q, r);
      WaitForShardEach(q, x, s, rest, r);
    }
  }

  ghost function CountedShard(q: Queues, x: Item): map<ShardKey, Shard> {
    match x.shard
    case None => q.byShard
    case Some((s, _)) => q.byShard[s := (ShardOf(q, s).0 + 1, ShardOf(q, s).1)]
  }

  ghost function Start(q: Queues, x: Item, rest: seq<Item>): Queues {
    q.(unscheduled := rest, scheduled := q.scheduled + [x], byKey := q.byKey[x.key := []],
       byShard := CountedShard(q, x))
  }

  lemma StartKey(q: Queues, x: Item, rest: seq<Item>, k: Key)
    requires KeyOk(q, k) && x.key !in q.byKey
    ensures KeyOk(Start(q, x, rest), k)
  {
    var q' := Start(q, x, rest);
    assert q'.scheduled[|q.scheduled|] == x;
    if k in q.byKey {
      var i :| 0 <= i < |q.scheduled| && q.scheduled[i].key == k;
      assert q'.scheduled[i].key == k;
    }
  }

  lemma StartShard(q: Queues, x: Item, rest: seq<Item>, s: ShardKey)
    requires ShardOk(q, s) && q.unscheduled == [x] + rest && x.key !in q.byKey
    ensures ShardOk(Start(q, x, rest), s)
  {
    var q' := Start(q, x, rest);
    InShardAppend(q.scheduled, x, s);
    if LiveElsewhere(q, s) {
      var y: Item :| y.InShard(s)
        && (y in q.unscheduled || y in q.scheduled || (y.key in q.byKey && y in q.byKey[y.key]));
      assert y in q'.unscheduled || y in q'.scheduled || (y.key in q'.byKey && y in q'.byKey[y.key]);
    }
  }

  lemma StartPlaced(q: Queues, live: multiset<Item>, x: Item, rest: seq<Item>)
    requires Placed(q, live) && q.unscheduled == [x] + rest && x.key !in q.byKey
    ensures Placed(Start(q, x, rest), live)
  {
    var q' := Start(q, x, rest);
    forall y
      ensures live[y] == multiset(q'.unscheduled)[y] + multiset(q'.scheduled)[y] + CountKey(q', y) + CountShard(q', y)
    {
      assert multiset(q.unscheduled)[y] == multiset{x}[y] + multiset(rest)[y];
      assert CountKey(q', y) == CountKey(q, y) && CountShard(q', y) == CountShard(q, y);
    }
  }

  /** The next item starts. */
  lemma StartOk(q: Queues, live: multiset<Item>, x: Item, rest: seq<Item>)
    requires Kept(q, live) && q.unscheduled == [x] + rest && x.key !in q.byKey
    ensures Kept(Start(q, x, rest), live)
  {
    assert Look(Part.KeyedQueue);
    StartPlaced(q, live, x, rest);
    forall k ensures KeyOk(Start(q, x, rest), k) {
      assert KeyOk(q, k);
      StartKey(q, x, rest, k);
    }
    forall s ensures ShardOk(Start(q, x, rest), s) {
      assert ShardOk(q, s);
      StartShard(q, x, rest, s);
    }
  }

  /** The next item starts, or waits for its key or its shard. */
  ghost function ScheduleFirst(q: Queues): (q': Queues)
    requires q.unscheduled != []
    ensures q'.unscheduled == q.unscheduled[1..]
    ensures |q.scheduled| <= |q'.scheduled| <= |q.scheduled| + 1
  {
    var x, rest := q.unscheduled[0], q.unscheduled[1..];
    if x.key in q.byKey then WaitForKey(q, x, rest)
    else if x.shard.Some? && ShardOf(q, x.shard.value.0).0 > x.shard.value.1
    then WaitForShard(q, x, x.shard.value.0, rest)
    else Start(q, x, rest)
  }

  /** The next `n` items start or wait. */
  ghost function ScheduleFirsts(q: Queues, n: nat): (q': Queues)
    requires n <= |q.unscheduled|
    ensures q'.unscheduled == q.unscheduled[n..]
    ensures |q.scheduled| <= |q'.scheduled| <= |q.scheduled| + n
  {
    if n == 0 then q else ScheduleFirst(ScheduleFirsts(q, n - 1))
  }

  /** Items start or wait until `max` run or none is left. */
  ghost function ScheduleAll(q: Queues, max: nat): Queues
    decreases |q.unscheduled|
  {
    if |q.scheduled| < max && q.unscheduled != []
    then ScheduleAll(ScheduleFirsts(q, Min(|q.unscheduled|, max - |q.scheduled|)), max)
    else q
  }

  ghost function Reversed(items: seq<Item>): seq<Item> {
    if items == [] then [] else [items[|items| - 1]] + Reversed(items[..|items| - 1])
  }

  // ---------------------------------------------------------------- completing an item

  /** The first item that waits for a key. */
  ghost function NextForKey(q: Queues, k: Key): seq<Item> {
    if k in q.byKey && q.byKey[k] != [] then q.byKey[k][..1] else []
  }

  ghost function KeyReleased(q: Queues, k: Key): map<Key, seq<Item>> {
    if k !in q.byKey then q.byKey
    else if |q.byKey[k]| <= 1 then q.byKey - {k}
    else q.byKey[k := q.byKey[k][1..]]
  }

  /** The first item that waits for a shard. */
  ghost function NextForShard(q: Queues, x: Item): seq<Item> {
    if x.shard.Some? && x.shard.value.0 in q.byShard && q.byShard[x.shard.value.0].1 != []
    then q.byShard[x.shard.value.0].1[..1] else []
  }

  ghost function ShardReleased(q: Queues, x: Item): map<ShardKey, Shard> {
    if x.shard.Some? && x.shard.value.0 in q.byShard then
      var (inflight, queue) := q.byShard[x.shard.value.0];
      q.byShard[x.shard.value.0 := (SaturatingSub(inflight, 1), if queue == [] then [] else queue[1..])]
    else q.byShard
  }

  /** Running item `i` has completed. */
  ghost function Complete(q: Queues, i: nat, children: seq<Item>): (q': Queues)
    requires i < |q.scheduled|
    ensures |q'.scheduled| <= |q.scheduled|
  {
    var x := q.scheduled[i];
    Queues(children + (NextForShard(q, x) + q.unscheduled),
           q.scheduled[..i] + q.scheduled[i + 1..] + NextForKey(q, x.key), KeyReleased(q, x.key), ShardReleased(q, x))
  }

  lemma Removed(items: seq<Item>, i: nat)
    requires i < |items|
    ensures multiset(items) == multiset(items[..i] + items[i + 1..]) + multiset{items[i]}
  {
    assert items == items[..i] + [items[i]] + items[i + 1..];
  }

  lemma FirstRemoved(items: seq<Item>, y: Item)
    requires items != []
    ensures multiset(items)[y] == multiset(items[..1])[y] + multiset(items[1..])[y]
  {
    assert items == items[..1] + items[1..];
  }

  lemma CompleteKeyCount(q: Queues, i: nat, children: seq<Item>, y: Item)
    requires i < |q.scheduled| && KeyOk(q, q.scheduled[i].key)
    ensures multiset(NextForKey(q, q.scheduled[i].key))[y] + CountKey(Complete(q, i, children), y) == CountKey(q, y)
  {
    var k := q.scheduled[i].key;
    if k in q.byKey && q.byKey[k] != [] {
      FirstRemoved(q.byKey[k], y);
      assert y.key != k ==> y !in q.byKey[k] && y !in q.byKey[k][..1];
      assert |q.byKey[k]| == 1 ==> q.byKey[k][1..] == [];
    }
  }

  lemma CompleteShardCount(q: Queues, i: nat, children: seq<Item>, y: Item)
    requires i < |q.scheduled| && (q.scheduled[i].shard.Some? ==> ShardOk(q, q.scheduled[i].shard.value.0))
    ensures multiset(NextForShard(q, q.scheduled[i]))[y] + CountShard(Complete(q, i, children), y) == CountShard(q, y)
  {
    var x := q.scheduled[i];
    if x.shard.Some? && x.shard.value.0 in q.byShard && q.byShard[x.shard.value.0].1 != [] {
      var s := x.shard.value.0;
      FirstRemoved(q.byShard[s].1, y);
      assert !y.InShard(s) ==> y !in q.byShard[s].1 && y !in q.byShard[s].1[..1];
    }
  }

  lemma CompletePlaced(q: Queues, live: multiset<Item>, live': multiset<Item>, i: nat, children: seq<Item>)
    requires Placed(q, live) && i < |q.scheduled| && KeyOk(q, q.scheduled[i].key)
    requires q.scheduled[i].shard.Some? ==> ShardOk(q, q.scheduled[i].shard.value.0)
    requires live' + multiset{q.scheduled[i]} == live + multiset(children)
    ensures Placed(Complete(q, i, children), live')
  {
    var x, q' := q.scheduled[i], Complete(q, i, children);
    forall y
      ensures live'[y] == multiset(q'.unscheduled)[y] + multiset(q'.scheduled)[y] + CountKey(q', y) + CountShard(q', y)
    {
      Removed(q.scheduled, i);
      CompleteKeyCount(q, i, children, y);
      CompleteShardCount(q, i, children, y);
      assert (live' + multiset{x})[y] == (live + multiset(children))[y];
    }
  }

  lemma CompleteKey(q: Queues, i: nat, children: seq<Item>, k: Key)
    requires i < |q.scheduled| && KeyOk(q, k)
    ensures KeyOk(Complete(q, i, children), k)
  {
    var x, q' := q.scheduled[i], Complete(q, i, children);
    var kept := q.scheduled[..i] + q.scheduled[i + 1..];
    if k in q'.byKey {
      if k == x.key {
        assert q'.scheduled[|kept|] == q.byKey[k][0];
        assert forall y :: y in q.byKey[k][1..] ==> y in q.byKey[k];
      } else {
        var j :| 0 <= j < |q.scheduled| && q.scheduled[j].key == k;
        assert q'.scheduled[if j < i then j else j - 1] == q.scheduled[j];
      }
    }
  }

  lemma CompleteCounter(q: Queues, i: nat, children: seq<Item>, s: ShardKey)
    requires i < |q.scheduled|
    ensures InShard(Complete(q, i, children).scheduled, s) + (if q.scheduled[i].InShard(s) then 1 else 0)
            >= InShard(q.scheduled, s)
  {
    var x, q' := q.scheduled[i], Complete(q, i, children);
    InShardRemove(q.scheduled, i, s);
    var kept := q.scheduled[..i] + q.scheduled[i + 1..];
    if NextForKey(q, x.key) == [] {
      assert q'.scheduled == kept;
    } else {
      assert q'.scheduled == kept + [q.byKey[x.key][0]];
      InShardAppend(kept, q.byKey[x.key][0], s);
    }
  }

  lemma CompleteLive(q: Queues, i: nat, children: seq<Item>, s: ShardKey)
    requires i < |q.scheduled| && !q.scheduled[i].InShard(s) && LiveElsewhere(q, s) && KeyOk(q, q.scheduled[i].key)
    ensures LiveElsewhere(Complete(q, i, children), s)
  {
    var x, q' := q.scheduled[i], Complete(q, i, children);
    var y: Item :| y.InShard(s)
      && (y in q.unscheduled || y in q.scheduled || (y.key in q.byKey && y in q.byKey[y.key]));
    if y in q.scheduled {
      assert q.scheduled == q.scheduled[..i] + [x] + q.scheduled[i + 1..];
      assert y in q'.scheduled;
    } else if y in q.unscheduled {
      assert y in q'.unscheduled;
    } else if y.key == x.key {
      assert q.byKey[y.key] == q.byKey[y.key][..1] + q.byKey[y.key][1..];
      assert y in q'.scheduled || (y.key in q'.byKey && y in q'.byKey[y.key]);
    }
  }

  lemma CompleteShard(q: Queues, i: nat, children: seq<Item>, s: ShardKey)
    requires i < |q.scheduled| && ShardOk(q, s) && KeyOk(q, q.scheduled[i].key)
    ensures ShardOk(Complete(q, i, children), s)
  {
    var x, q' := q.scheduled[i], Complete(q, i, children);
    if s in q'.byShard {
      CompleteCounter(q, i, children, s);
      if x.InShard(s) {
        if q.byShard[s].1 != [] {
          assert NextForShard(q, x) == [q.byShard[s].1[0]];
          assert q.byShard[s].1[0] in q'.unscheduled;
          assert forall y :: y in q.byShard[s].1[1..] ==> y in q.byShard[s].1;
        }
      } else if q.byShard[s].1 != [] {
        CompleteLive(q, i, children, s);
      }
    }
  }

  /** Running item `i` has completed, and its children are to be scheduled. */
  lemma CompleteOk(q: Queues, live: multiset<Item>, live': multiset<Item>, i: nat, children: seq<Item>)
    requires Kept(q, live) && i < |q.scheduled|
    requires live' + multiset{q.scheduled[i]} == live + multiset(children)
    ensures Kept(Complete(q, i, children), live')
  {
    assert Look(Part.KeyedQueue);
    assert KeyOk(q, q.scheduled[i].key);
    assert q.scheduled[i].shard.Some? ==> ShardOk(q, q.scheduled[i].shard.value.0);
    CompletePlaced(q, live, live', i, children);
    forall k ensures KeyOk(Complete(q, i, children), k) {
      assert KeyOk(q, k);
      CompleteKey(q, i, children, k);
    }
    forall s ensures ShardOk(Complete(q, i, children), s) {
      assert ShardOk(q, s);
      CompleteShard(q, i, children, s);
    }
  }

  // ---------------------------------------------------------------- the counters of shards

  /** The counter of a shard is at most one more than the number that comes with some item of the shard. */
  ghost predicate CounterOk(byShard: map<ShardKey, Shard>, all: multiset<Item>, s: ShardKey) {
    s in byShard && byShard[s].0 > 0 ==>
      exists x: Item :: x in all && x.InShard(s) && byShard[s].0 <= x.shard.value.1 + 1
  }

  ghost predicate Limited(byShard: map<ShardKey, Shard>, all: multiset<Item>) {
    forall part {:trigger Look(part)} :: Look(part) && part == Part.ShardCounters ==>
      forall s {:trigger CounterOk(byShard, all, s)} :: CounterOk(byShard, all, s)
  }

  /** The counter of a shard is at most one more than the greatest number that comes with an item of the shard. */
  lemma LimitedByNumber(byShard: map<ShardKey, Shard>, all: multiset<Item>, s: ShardKey, number: nat)
    requires Limited(byShard, all) && s in byShard
    requires forall x: Item :: x in all && x.InShard(s) ==> x.shard.value.1 <= number
    ensures byShard[s].0 <= number + 1
  {
    assert Look(Part.ShardCounters);
    assert CounterOk(byShard, all, s);
  }

  /** An item starts only while the counter of its shard does not exceed the number that comes with it. */
  lemma StartLimited(q: Queues, all: multiset<Item>, x: Item)
    requires Limited(q.byShard, all) && x in all
    requires x.shard.Some? ==> ShardOf(q, x.shard.value.0).0 <= x.shard.value.1
    ensures Limited(CountedShard(q, x), all)
  {
    assert Look(Part.ShardCounters);
    forall s ensures CounterOk(CountedShard(q, x), all, s) {
      assert CounterOk(q.byShard, all, s);
      assert x.InShard(s) ==> CountedShard(q, x)[s].0 == ShardOf(q, s).0 + 1;
    }
  }

  lemma WaitLimited(q: Queues, all: multiset<Item>, x: Item, s: ShardKey, rest: seq<Item>)
    requires Limited(q.byShard, all)
    ensures Limited(WaitForShard(q, x, s, rest).byShard, all)
  {
    assert Look(Part.ShardCounters);
    forall r ensures CounterOk(WaitForShard(q, x, s, rest).byShard, all, r) {
      assert CounterOk(q.byShard, all, r);
    }
  }

  lemma CompleteLimited(q: Queues, all: multiset<Item>, i: nat, children: seq<Item>)
    requires i < |q.scheduled| && Limited(q.byShard, all)
    ensures Limited(Complete(q, i, children).byShard, all)
  {
    assert Look(Part.ShardCounters);
    forall s ensures CounterOk(Complete(q, i, children).byShard, all, s) {
      assert CounterOk(q.byShard, all, s);
    }
  }
}
