/** Runs of a traversal that is limited by key and by shard, in which it does not keep to these limits. */
module KeyedRuns {
  import opened Common
  import opened KeyedQueues
  import opened KeyedExclusion
  import opened KeyedShards
  import opened KeyedRecords
  import opened KeyedStream

  // ---------------------------------------------------------------- items with the same key

  ghost function OneWaits(first: Item, second: Item): Queues {
    Queues([], [first], map[first.key := [second]], map[])
  }

  /** The first item starts and the second waits for it. */
  lemma FirstTurn(first: Item, second: Item, third: Item, max: nat)
    requires first.key == second.key && first.shard == None && max >= 2
    requires first.Children() == [third]
    ensures Turn(Queues([first, second], [], map[], map[]), max, 0) == Queues([third], [second], map[], map[])
  {
    var q := Queues([first, second], [], map[], map[]);
    var q1 := ScheduleFirst(q);
    assert ScheduleFirsts(q, 1) == ScheduleFirst(ScheduleFirsts(q, 0)) == q1;
    assert q1 == Queues([second], [first], map[first.key := []], map[]);
    assert [] + [second] == [second];
    assert ScheduleFirsts(q, 2) == ScheduleFirst(q1) == OneWaits(first, second);
    assert ScheduleAll(q, max) == OneWaits(first, second);
    assert Reversed([third]) == [third];
    assert map[first.key := [second]] - {first.key} == map[];
  }

  /** The second runs without a queue for its key: the third starts too. */
  lemma SecondTurn(second: Item, third: Item, max: nat)
    requires third.shard == None && max >= 2
    ensures Turn(Queues([third], [second], map[], map[]), max, 2)
         == Queues([], [second, third], map[third.key := []], map[])
  {
    var q := Queues([third], [second], map[], map[]);
    assert ScheduleFirsts(q, 1) == ScheduleFirst(ScheduleFirsts(q, 0));
    var q' := Queues([], [second, third], map[third.key := []], map[]);
    assert ScheduleFirst(q) == q';
    assert ScheduleAll(q, max) == ScheduleAll(q', max) == q';
  }

  /** Whenever more than one item may run, two items with the same key can run together.  The first of them has a
      child with the same key, and completes while the second waits for it. */
  method SameKeyRun(scheduledMax: nat, k: Key, o1: Out, o2: Out, o3: Out) returns (stream: LimitedByKeyStream)
    requires scheduledMax >= 2
    ensures stream.Valid() && stream.scheduledMax == scheduledMax
    ensures |stream.scheduled| == 2 && stream.scheduled[0].key == stream.scheduled[1].key == k && stream.watch.clashed
  {
    var third := Item(k, None, Something(o3, []));
    var first, second := Item(k, None, Something(o1, [third])), Item(k, None, Something(o2, []));
    stream := new LimitedByKeyStream(scheduledMax, [first, second]);
    FirstTurn(first, second, third, scheduledMax);
    var r := stream.PollTurn(0);
    SecondTurn(second, third, scheduledMax);
    r := stream.PollTurn(2);
    stream.NeverTogether();
  }

  // ---------------------------------------------------------------- items of the same shard

  /** Two items with key `i`.  The first has as children the two items with the next key. */
  function FirstItem(keys: seq<Key>, s: ShardKey, number: nat, out: Out, i: nat): Item
    requires i < |keys|
    decreases |keys| - i
  {
    Item(keys[i], Some((s, number)),
         Something(out, if i + 1 == |keys| then []
                        else [SecondItem(keys, s, number, out, i + 1), FirstItem(keys, s, number, out, i + 1)]))
  }

  function SecondItem(keys: seq<Key>, s: ShardKey, number: nat, out: Out, i: nat): Item
    requires i < |keys|
  {
    Item(keys[i], Some((s, number)), Something(out, []))
  }

  ghost function SecondItems(keys: seq<Key>, s: ShardKey, number: nat, out: Out, i: nat): seq<Item>
    requires i <= |keys|
  {
    seq(i, j requires 0 <= j < i => SecondItem(keys, s, number, out, j))
  }

  /** The second items with the keys before `i` run, and none of them is counted. */
  ghost function Before(keys: seq<Key>, s: ShardKey, number: nat, out: Out, i: nat): Queues
    requires i < |keys|
  {
    Queues([FirstItem(keys, s, number, out, i), SecondItem(keys, s, number, out, i)],
           SecondItems(keys, s, number, out, i), map[], if i == 0 then map[] else map[s := (0, [])])
  }

  ghost function After(keys: seq<Key>, s: ShardKey, number: nat, out: Out, i: nat): Queues
    requires i < |keys|
  {
    Queues([SecondItem(keys, s, number, out, i)],
           SecondItems(keys, s, number, out, i) + [FirstItem(keys, s, number, out, i)], map[keys[i] := []],
           map[s := (1, [])])
  }

  lemma FirstStarts(keys: seq<Key>, s: ShardKey, number: nat, out: Out, i: nat)
    requires i < |keys|
    ensures ScheduleFirsts(Before(keys, s, number, out, i), 1) == After(keys, s, number, out, i)
  {
    var q := Before(keys, s, number, out, i);
    assert ScheduleFirsts(q, 1) == ScheduleFirst(ScheduleFirsts(q, 0));
  }

  /** The next first item starts, the second one with its key waits for it, and is let in when it completes. */
  lemma PairTurn(keys: seq<Key>, s: ShardKey, number: nat, out: Out, i: nat)
    requires i + 1 < |keys|
    ensures Turn(Before(keys, s, number, out, i), |keys|, i) == Before(keys, s, number, out, i + 1)
  {
    var q := Before(keys, s, number, out, i);
    var x, y := FirstItem(keys, s, number, out, i), SecondItem(keys, s, number, out, i);
    var q2 := Queues([], SecondItems(keys, s, number, out, i) + [x], map[keys[i] := [y]], map[s := (1, [])]);
    FirstStarts(keys, s, number, out, i);
    assert [] + [y] == [y];
    assert ScheduleFirsts(q, 2) == ScheduleFirst(ScheduleFirsts(q, 1)) == q2;
    assert ScheduleAll(q, |keys|) == q2;
    PairCompletes(keys, s, number, out, i);
  }

  lemma PairCompletes(keys: seq<Key>, s: ShardKey, number: nat, out: Out, i: nat)
    requires i + 1 < |keys|
    ensures var x, y := FirstItem(keys, s, number, out, i), SecondItem(keys, s, number, out, i);
            Complete(Queues([], SecondItems(keys, s, number, out, i) + [x], map[keys[i] := [y]], map[s := (1, [])]), i,
                     Reversed(x.Children())) == Before(keys, s, number, out, i + 1)
  {
    var x, y := FirstItem(keys, s, number, out, i), SecondItem(keys, s, number, out, i);
    var before := SecondItems(keys, s, number, out, i);
    var a, b := SecondItem(keys, s, number, out, i + 1), FirstItem(keys, s, number, out, i + 1);
    assert x.Children() == [a, b] && [a, b][..1] == [a];
    assert Reversed([a]) == [a];
    assert Reversed([a, b]) == [b, a];
    assert (before + [x])[..i] == before && (before + [x])[i + 1..] == [];
    assert before + [y] == SecondItems(keys, s, number, out, i + 1);
    assert map[keys[i] := [y]] - {keys[i]} == map[];
  }

  lemma LastTurn(keys: seq<Key>, s: ShardKey, number: nat, out: Out)
    requires keys != []
    ensures Turn(Before(keys, s, number, out, |keys| - 1), |keys|, |keys|) == After(keys, s, number, out, |keys| - 1)
  {
    var q, q' := Before(keys, s, number, out, |keys| - 1), After(keys, s, number, out, |keys| - 1);
    FirstStarts(keys, s, number, out, |keys| - 1);
    assert ScheduleAll(q, |keys|) == ScheduleAll(q', |keys|) == q';
  }

  method NextPair(stream: LimitedByKeyStream, keys: seq<Key>, s: ShardKey, number: nat, out: Out, i: nat)
    requires stream.Valid() && stream.scheduledMax == |keys| && i + 1 < |keys|
    requires stream.State(stream.unscheduled) == Before(keys, s, number, out, i)
    modifies stream
    ensures stream.Valid() && stream.State(stream.unscheduled) == Before(keys, s, number, out, i + 1)
  {
    PairTurn(keys, s, number, out, i);
    var r := stream.PollTurn(i);
  }

  method LastPair(stream: LimitedByKeyStream, keys: seq<Key>, s: ShardKey, number: nat, out: Out)
    requires stream.Valid() && stream.scheduledMax == |keys| > 0
    requires stream.State(stream.unscheduled) == Before(keys, s, number, out, |keys| - 1)
    modifies stream
    ensures stream.Valid() && stream.State(stream.unscheduled) == After(keys, s, number, out, |keys| - 1)
  {
    LastTurn(keys, s, number, out);
    var r := stream.PollTurn(|keys|);
  }

  lemma AllRun(keys: seq<Key>, s: ShardKey, number: nat, out: Out)
    requires keys != []
    ensures var q := After(keys, s, number, out, |keys| - 1);
            && |q.scheduled| == |keys| && ShardOf(q, s).0 == 1
            && forall i :: 0 <= i < |keys| ==>
                 q.scheduled[i].key == keys[i] && q.scheduled[i].shard == Some((s, number))
  {
  }

  /** Whatever number comes with the items of a shard, as many of them as may run at all can run together, with
      different keys, and only one of them is counted. */
  method ShardRun(keys: seq<Key>, s: ShardKey, number: nat, out: Out) returns (stream: LimitedByKeyStream)
    requires keys != [] && forall i, j :: 0 <= i < j < |keys| ==> keys[i] != keys[j]
    ensures stream.Valid() && stream.scheduledMax == |keys| == |stream.scheduled|
    ensures forall i :: 0 <= i < |keys| ==>
              stream.scheduled[i].key == keys[i] && stream.scheduled[i].shard == Some((s, number))
    ensures ShardOf(stream.State(stream.unscheduled), s).0 == 1
  {
    var first, second := FirstItem(keys, s, number, out, 0), SecondItem(keys, s, number, out, 0);
    stream := new LimitedByKeyStream(|keys|, [first, second]);
    assert stream.State(stream.unscheduled) == Before(keys, s, number, out, 0);
    for i := 0 to |keys| - 1
      invariant stream.Valid() && fresh(stream) && stream.scheduledMax == |keys|
      invariant stream.State(stream.unscheduled) == Before(keys, s, number, out, i)
    {
      NextPair(stream, keys, s, number, out, i);
    }
    LastPair(stream, keys, s, number, out);
    AllRun(keys, s, number, out);
  }
}
