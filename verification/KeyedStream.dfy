/** A traversal that does not run items with the same key or, up to a number, of the same shard together. */
module KeyedStream {
  import opened Common
  import opened KeyedQueues
  import opened KeyedExclusion
  import opened KeyedShards
  import opened KeyedRecords
  import opened KeyedOrder

  datatype Poll = Ready(output: Option<Out>) | PollPending

  /** The outputs of items, in the order in which the items completed. */
  ghost function Outputs(items: seq<Item>): seq<Out> {
    if items == [] then []
    else Outputs(items[..|items| - 1])
         + match items[|items| - 1].unfolded
           case Nothing => []
           case Something(out, _) => [out]
  }

  lemma OutputsAppend(items: seq<Item>, x: Item)
    ensures Outputs(items + [x]) == Outputs(items) + if x.unfolded.Nothing? then [] else [x.unfolded.out]
  {
    assert (items + [x])[..|items|] == items;
  }

  lemma HandNext(hand: seq<Item>, i: nat, rest: seq<Item>)
    requires i < |hand|
    ensures hand[i..] + rest == [hand[i]] + (hand[i + 1..] + rest)
  {
  }

  /** What a turn of the traversal makes of its queues, when running item `k` completes. */
  ghost function Turn(q: Queues, max: nat, k: nat): Queues {
    var q' := ScheduleAll(q, max);
    if k < |q'.scheduled| then Complete(q', k, Reversed(q'.scheduled[k].Children())) else q'
  }

  /** Items completed in one turn after the other. */
  ghost predicate Leads(trail: seq<Queues>, max: nat) {
    && trail != []
    && (|trail| == 1 || (Leads(trail[..|trail| - 1], max)
                         && SomeTurn(trail[|trail| - 2], trail[|trail| - 1], max)))
  }

  ghost predicate SomeTurn(before: Queues, after: Queues, max: nat) {
    exists k: nat :: TurnsInto(before, k, after, max)
  }

  ghost predicate TurnsInto(before: Queues, k: nat, after: Queues, max: nat) {
    after == Turn(before, max, k)
  }

  /** The queues before and after a poll that comes to where it has to wait: items completed in one turn after the
      other, and then as many as possible were scheduled. */
  ghost predicate Waits(before: Queues, after: Queues, max: nat) {
    exists trail: seq<Queues> ::
      Leads(trail, max) && trail[0] == before && after == ScheduleAll(trail[|trail| - 1], max)
  }

  lemma LeadsOn(trail: seq<Queues>, k: nat, next: Queues, max: nat)
    requires Leads(trail, max) && next == Turn(trail[|trail| - 1], max, k)
    ensures Leads(trail + [next], max)
  {
    var trail' := trail + [next];
    assert trail'[..|trail|] == trail;
    assert TurnsInto(trail'[|trail| - 1], k, trail'[|trail|], max);
  }

  lemma WaitsAfter(trail: seq<Queues>, after: Queues, max: nat)
    requires Leads(trail, max) && after == ScheduleAll(trail[|trail| - 1], max)
    ensures Waits(trail[0], after, max)
  {
  }

  class LimitedByKeyStream {
    const scheduledMax: nat
    var unscheduled: seq<Item>
    var scheduled: seq<Item>
    var waitingForKey: map<Key, seq<Item>>
    var waitingForShard: map<ShardKey, Shard>

    /** Everything below the initial items. */
    ghost const all: multiset<Item>
    /** Items that are not completed; items whose unfold was called, and completed; and outputs. */
    ghost var live: seq<Item>
    ghost var started: seq<Item>
    ghost var completed: seq<Item>
    ghost var emitted: seq<Out>
    /** Whether items with the same key may run together. */
    ghost var watch: Watch
    /** The shards of the items that waited for their key, and were let in by it. */
    ghost var letIn: multiset<ShardKey>
    /** Who came to wait for a key or a shard, and who was let in. */
    ghost var history: History

    ghost function State(unscheduled: seq<Item>): Queues
      reads `scheduled, `waitingForKey, `waitingForShard
    {
      Queues(unscheduled, scheduled, waitingForKey, waitingForShard)
    }

    /** The invariant, while `waiting` are the items to be scheduled. */
    ghost predicate Holding(waiting: seq<Item>)
      reads this
    {
      && Recorded(State(waiting), live, started, completed, watch, letIn, all)
      && 1 <= scheduledMax && |scheduled| <= scheduledMax
      && emitted == Outputs(completed)
      && InTurn(State(waiting), history)
    }

    ghost predicate Valid()
      reads this
    {
      Holding(unscheduled)
    }

    /** The work that is left. */
    ghost function Work(): nat
      reads `live
    {
      |Trees(live)|
    }

    twostate predicate Steady()
      reads this
    {
      live == old(live) && completed == old(completed) && emitted == old(emitted)
    }

    /** Calls `unfold` for an item. */
    method StartItem(item: Item)
      modifies `scheduled, `started
      ensures scheduled == old(scheduled) + [item] && started == old(started) + [item]
    {
      scheduled := scheduled + [item];
      started := started + [item];
    }

    /** Counts the item in its shard. */
    method CountInShard(item: Item, inflight: nat, queued: seq<Item>)
      requires item.shard.Some? ==> (inflight, queued) == ShardOf(State([]), item.shard.value.0)
      modifies `waitingForShard
      ensures waitingForShard == CountedShard(old(State([])), item)
    {
      match item.shard {
        case Some((shardKey, _)) => waitingForShard := waitingForShard[shardKey := (inflight + 1, queued)];
        case None =>
      }
    }

    /** Calls `unfold` for an item that did not wait for its key. */
    method StartKey(item: Item, inflight: nat, queued: seq<Item>, ghost rest: seq<Item>)
      requires item.shard.Some? ==> (inflight, queued) == ShardOf(State([]), item.shard.value.0)
      modifies `scheduled, `started, `waitingForKey, `waitingForShard, `watch
      ensures State(rest) == Start(old(State([item] + rest)), item, rest) && started == old(started) + [item]
      ensures scheduled == old(scheduled) + [item] && watch == Started(old(watch), item.key)
    {
      CountInShard(item, inflight, queued);
      waitingForKey := waitingForKey[item.key := []];
      StartItem(item);
      watch := Started(watch, item.key);
    }

    /** An item with a key clashes, if at all, when it is scheduled. */
    twostate predicate Watching()
      reads `watch
    {
      (watch.orderly <==> old(watch).orderly) && (old(watch).clashed ==> watch.clashed)
    }

    /** Starts the next item, or makes it wait for its key or its shard. */
    method ScheduleItem(item: Item, ghost rest: seq<Item>)
      requires Holding([item] + rest) && |scheduled| < scheduledMax
      modifies `scheduled, `started, `waitingForKey, `waitingForShard, `watch, `history
      ensures Holding(rest) && Steady() && Watching()
      ensures State(rest) == ScheduleFirst(old(State([item] + rest)))
      ensures Scheduled(old(State([item] + rest)), State(rest))
      ensures history == Joined(old(State([item] + rest)), old(history))
      ensures scheduled != [] && old(|scheduled|) <= |scheduled| <= old(|scheduled|) + 1
      ensures watch.clashed ==> old(watch).clashed || (item.key in old(watch).exposed && !Exclusive(State(rest)))
    {
      ghost var q := State([item] + rest);
      assert q.unscheduled[0] == item && q.unscheduled[1..] == rest;
      ScheduleRecorded(q, live, started, completed, watch, letIn, all);
      ScheduleInTurn(q, history);
      ScheduleFirstIs(q);
      history := Joined(q, history);
      PlaceItem(item, rest);
      assert Recorded(State(rest), live, started, completed, watch, letIn, all);
    }

    /** The item waits for its key if that has a queue, or for its shard if that is full, or else starts. */
    method PlaceItem(item: Item, ghost rest: seq<Item>)
      modifies `scheduled, `started, `waitingForKey, `waitingForShard, `watch
      ensures State(rest) == ScheduleFirst(old(State([item] + rest)))
      ensures if Starts(old(State([item] + rest)))
              then started == old(started) + [item] && watch == Started(old(watch), item.key)
              else started == old(started) && watch == old(watch)
    {
      ghost var q := State([item] + rest);
      assert q.unscheduled[0] == item && q.unscheduled[1..] == rest;
      if item.key in waitingForKey {
        waitingForKey := waitingForKey[item.key := waitingForKey[item.key] + [item]];
        return;
      }
      var inflight: nat, queued := 0, [];
      match item.shard {
        case Some((shardKey, maxPerShard)) =>
          if shardKey in waitingForShard {
            inflight, queued := waitingForShard[shardKey].0, waitingForShard[shardKey].1;
          }
          if inflight > maxPerShard {
            waitingForShard := waitingForShard[shardKey := (inflight, queued + [item])];
            return;
          }
        case None =>
      }
      StartKey(item, inflight, queued, rest);
    }

    /** Schedules items, which were taken from the queue, one by one. */
    method ScheduleItems(items: seq<Item>)
      requires Holding(items + unscheduled) && |scheduled| + |items| <= scheduledMax
      modifies `scheduled, `started, `waitingForKey, `waitingForShard, `watch, `history
      ensures Valid() && Steady() && Watching() && |scheduled| >= old(|scheduled|) && (items != [] ==> scheduled != [])
      ensures State(unscheduled) == ScheduleFirsts(old(State(items + unscheduled)), |items|)
    {
      assert items[0..] == items;
      for i := 0 to |items|
        invariant Holding(items[i..] + unscheduled) && Steady() && Watching()
        invariant old(|scheduled|) <= |scheduled| <= old(|scheduled|) + i
        invariant i > 0 ==> scheduled != []
        invariant State(items[i..] + unscheduled) == ScheduleFirsts(old(State(items + unscheduled)), i)
      {
        HandNext(items, i, unscheduled);
        ScheduleItem(items[i], items[i + 1..] + unscheduled);
      }
      assert items[|items|..] + unscheduled == unscheduled;
    }

    /** Schedules as many items as may run. */
    method ScheduleSome()
      requires Valid() && |scheduled| < scheduledMax && unscheduled != []
      modifies `unscheduled, `scheduled, `started, `waitingForKey, `waitingForShard, `watch, `history
      ensures Valid() && Steady() && Watching() && |scheduled| >= old(|scheduled|)
      ensures scheduled != [] && |unscheduled| < old(|unscheduled|)
      ensures ScheduleAll(State(unscheduled), scheduledMax) == ScheduleAll(old(State(unscheduled)), scheduledMax)
    {
      var n := Min(|unscheduled|, scheduledMax - |scheduled|);
      var items := unscheduled[..n];
      assert unscheduled == items + unscheduled[n..];
      unscheduled := unscheduled[n..];
      ScheduleItems(items);
    }

    /** Schedules as many items as allowed.  If there is anything to do, something is running afterwards. */
    method Schedule()
      requires Valid()
      modifies `unscheduled, `scheduled, `started, `waitingForKey, `waitingForShard, `watch, `history
      ensures Valid() && Steady() && Watching() && |scheduled| >= old(|scheduled|)
      ensures old(scheduled) != [] || old(unscheduled) != [] ==> scheduled != []
      ensures |scheduled| == scheduledMax || unscheduled == []
      ensures State(unscheduled) == ScheduleAll(old(State(unscheduled)), scheduledMax)
    {
      while |scheduled| < scheduledMax && unscheduled != []
        invariant Valid() && Steady() && Watching() && |scheduled| >= old(|scheduled|)
        invariant scheduled != [] || unscheduled == old(unscheduled)
        invariant ScheduleAll(State(unscheduled), scheduledMax) == ScheduleAll(old(State(unscheduled)), scheduledMax)
        decreases |unscheduled|
      {
        ScheduleSome();
      }
    }

    /** The item that waits for the key of a completed item starts, if there is one. */
    method ReleaseKey(key: Key)
      modifies `waitingForKey, `scheduled, `started
      ensures waitingForKey == KeyReleased(old(State([])), key)
      ensures scheduled == old(scheduled) + NextForKey(old(State([])), key)
      ensures started == old(started) + NextForKey(old(State([])), key)
    {
      if key in waitingForKey {
        var queue := waitingForKey[key];
        waitingForKey := waitingForKey - {key};
        if queue != [] {
          StartItem(queue[0]);
          queue := queue[1..];
        }
        if queue != [] {
          waitingForKey := waitingForKey[key := queue];
        }
      }
    }

    /** There is room in the shard of a completed item: an item that waits for it is to be scheduled. */
    method ReleaseShard(item: Item)
      modifies `waitingForShard, `unscheduled
      ensures waitingForShard == ShardReleased(old(State([])), item)
      ensures unscheduled == NextForShard(old(State([])), item) + old(unscheduled)
    {
      match item.shard {
        case Some((shardKey, _)) =>
          if shardKey in waitingForShard {
            var (inflight, queue) := waitingForShard[shardKey];
            if queue != [] {
              unscheduled := [queue[0]] + unscheduled;
              queue := queue[1..];
            }
            waitingForShard := waitingForShard[shardKey := (SaturatingSub(inflight, 1), queue)];
          }
        case None =>
      }
    }

    /** Each child in turn is put first. */
    method PushChildren(children: seq<Item>)
      modifies `unscheduled
      ensures unscheduled == Reversed(children) + old(unscheduled)
    {
      for i := 0 to |children|
        invariant unscheduled == Reversed(children[..i]) + old(unscheduled)
      {
        assert children[..i + 1][..i] == children[..i];
        unscheduled := [children[i]] + unscheduled;
      }
      assert children[..|children|] == children;
    }

    ghost method Retire(x: Item, i: nat)
      requires i < |live| && live[i] == x && emitted == Outputs(completed)
      modifies `live, `completed, `emitted
      ensures live == Expanded(old(live), i) && completed == old(completed) + [x]
      ensures emitted == old(emitted) + (if x.unfolded.Nothing? then [] else [x.unfolded.out]) == Outputs(completed)
    {
      OutputsAppend(completed, x);
      live := Expanded(live, i);
      completed := completed + [x];
      emitted := emitted + if x.unfolded.Nothing? then [] else [x.unfolded.out];
    }

    /** Running item `k` has completed: items that wait for it are let in, and its children are queued. */
    method Release(k: nat) returns (item: Item)
      requires k < |scheduled|
      modifies `unscheduled, `scheduled, `started, `waitingForKey, `waitingForShard, `watch, `letIn, `history
      ensures item == old(scheduled[k])
      ensures State(unscheduled) == Complete(old(State(unscheduled)), k, Reversed(item.Children()))
      ensures letIn == old(letIn) + LetIn(old(State(unscheduled)), k)
      ensures started == old(started) + NextForKey(old(State([])), item.key)
      ensures watch == Completed(old(watch), old(State(unscheduled)), item.key)
      ensures history == Left(old(State(unscheduled)), k, old(history))
    {
      item := scheduled[k];
      history := Left(State(unscheduled), k, history);
      watch := Completed(watch, State(unscheduled), item.key);
      letIn := letIn + LetIn(State(unscheduled), k);
      scheduled := scheduled[..k] + scheduled[k + 1..];
      ReleaseKey(item.key);
      ReleaseShard(item);
      PushChildren(item.Children());
    }

    /** Running item `k` has completed.  Its key is exposed from now on exactly if one other item waited for it.  If
        as many items of a shard always ran as were counted, more do now exactly if one of them is let in. */
    method CompleteItem(k: nat) returns (unfolded: Unfolded)
      requires Valid() && k < |scheduled|
      modifies `unscheduled, `scheduled, `started, `waitingForKey, `waitingForShard, `live, `completed, `emitted,
               `watch, `letIn, `history
      ensures Valid() && Work() < old(Work())
      ensures unfolded == old(scheduled[k]).unfolded
      ensures emitted == old(emitted) + if unfolded.Nothing? then [] else [unfolded.out]
      ensures watch == Completed(old(watch), old(State(unscheduled)), old(scheduled[k]).key)
      ensures State(unscheduled) == Complete(old(State(unscheduled)), k, Reversed(old(scheduled[k]).Children()))
      ensures Released(old(State(unscheduled)), k, State(unscheduled))
      ensures history == Left(old(State(unscheduled)), k, old(history))
      ensures letIn == old(letIn) + LetIn(old(State(unscheduled)), k)
      ensures forall s :: old(letIn)[s] == 0 ==> (Uncounted(State(unscheduled), s) > 0 <==> s in letIn)
    {
      ghost var i := Completes(State(unscheduled), k, live, started, completed, watch, letIn, all);
      CompleteInTurn(State(unscheduled), k, Reversed(scheduled[k].Children()), history);
      CompleteIs(State(unscheduled), k);
      var item := Release(k);
      Retire(item, i);
      assert Recorded(State(unscheduled), live, started, completed, watch, letIn, all);
      assert emitted == Outputs(completed) && |scheduled| <= old(|scheduled|);
      unfolded := item.unfolded;
    }

    /** A traversal does not become orderly again, and neither clashes nor items that were let in are forgotten. */
    twostate predicate Tracking()
      reads `watch, `letIn
    {
      (watch.orderly ==> old(watch).orderly) && (old(watch).clashed ==> watch.clashed) && old(letIn) <= letIn
    }

    /** As long as no item started while its key was exposed, items with the same key never ran together; that
        includes all traversals in which no item completed while exactly one other waited for it, or in which no three
        items have the same key. */
    lemma NeverTogether()
      requires Valid()
      ensures watch.orderly ==> !watch.clashed
      ensures !watch.clashed ==> Exclusive(State(unscheduled))
      ensures (forall k :: !Thrice(all, k)) ==> !watch.clashed
      ensures scheduledMax == 1 ==> Exclusive(State(unscheduled))
    {
      assert Look(Part.KeyedRecord);
      OrderlyExclusive(State(unscheduled), watch);
      assert Look(Part.KeyedWatch);
    }

    /** Items that wait for a key are let in in the order in which they came to wait, and so are items that wait for a
        shard. */
    lemma FirstComeFirstServed(k: Key, s: ShardKey)
      requires Valid()
      ensures OfKey(history.keyJoined, k)
           == OfKey(history.keyLeft, k) + if k in waitingForKey then waitingForKey[k] else []
      ensures OfShard(history.shardJoined, s)
           == OfShard(history.shardLeft, s) + if s in waitingForShard then waitingForShard[s].1 else []
    {
      assert Look(Part.KeyedTurns);
      assert KeyInTurn(history.keyJoined, history.keyLeft, KeyQueue(State(unscheduled), k), k);
      assert ShardInTurn(history.shardJoined, history.shardLeft, ShardOf(State(unscheduled), s).1, s);
    }

    /** Of a shard whose items come with `number` at most, no more items run than one more than the number, and as many
        as were let in by their keys.  So the number is kept, but for one, if none was let in, and in particular if no
        item of the shard shares its key with another item. */
    lemma ShardLimited(s: ShardKey, number: nat)
      requires Valid()
      requires forall x: Item :: x in all && x.InShard(s) ==> x.shard.value.1 <= number
      ensures ShardOf(State([]), s).0 <= number + 1
      ensures InShard(scheduled, s) <= number + 1 + letIn[s]
      ensures s !in letIn ==> InShard(scheduled, s) == ShardOf(State([]), s).0 <= number + 1
      ensures !SharesKey(all, s) ==> s !in letIn
    {
      assert Look(Part.KeyedRecord);
      RunningInShard(State(unscheduled), letIn, all, s, number);
      assert Look(Part.ShardAccount);
      assert letIn[s] > 0 ==> SharesKey(all, s);
    }

    /** One turn of a poll: running item `k` completes, if there is one. */
    method PollTurn(k: nat) returns (r: Option<Poll>)
      requires Valid()
      modifies `unscheduled, `scheduled, `started, `waitingForKey, `waitingForShard, `live, `completed, `emitted,
               `watch, `letIn, `history
      ensures Valid() && Work() <= old(Work()) && Tracking()
      ensures State(unscheduled) == Turn(old(State(unscheduled)), scheduledMax, k)
      ensures match r
              case None => emitted == old(emitted) && Work() < old(Work())
              case Some(PollPending) =>
                && emitted == old(emitted) && scheduled != [] && k >= |scheduled| && old(scheduled + unscheduled) != []
                && (|scheduled| == scheduledMax || unscheduled == []) && k >= old(|scheduled|)
                && State(unscheduled) == ScheduleAll(old(State(unscheduled)), scheduledMax)
              case Some(Ready(Some(out))) => emitted == old(emitted) + [out] && Work() < old(Work())
              case Some(Ready(None)) => emitted == old(emitted) && Ended()
    {
      if scheduled == [] && unscheduled == [] {
        assert Look(Part.KeyedRecord);
        NothingStranded(State([]), multiset(live));
        return Some(Ready(None));
      }
      Schedule();
      if k >= |scheduled| {
        return Some(PollPending);
      }
      var unfolded := CompleteItem(k);
      assert State(unscheduled) == Turn(old(State(unscheduled)), scheduledMax, k);
      match unfolded {
        case Something(out, _) => return Some(Ready(Some(out)));
        case Nothing => return None;
      }
    }

    /** Every item was unfolded exactly once, and nothing waits for anything. */
    ghost predicate Ended()
      reads this
    {
      && multiset(started) == multiset(completed) == all && emitted == Outputs(completed)
      && unscheduled == [] && scheduled == [] && waitingForKey == map[]
      && forall s :: s in waitingForShard ==> waitingForShard[s].1 == []
    }

    /** Polls the stream.  Which running item has completed, if any, is arbitrary.  It waits only when as many items run
        as allowed, or none is to be scheduled. */
    method PollNext() returns (r: Poll)
      requires Valid()
      modifies `unscheduled, `scheduled, `started, `waitingForKey, `waitingForShard, `live, `completed, `emitted,
               `watch, `letIn, `history
      ensures Valid() && Tracking()
      ensures match r
              case PollPending =>
                && emitted == old(emitted) && scheduled != [] && (|scheduled| == scheduledMax || unscheduled == [])
                && Waits(old(State(unscheduled)), State(unscheduled), scheduledMax)
              case Ready(Some(out)) => emitted == old(emitted) + [out]
              case Ready(None) => emitted == old(emitted) && Ended()
    {
      ghost var trail := [State(unscheduled)];
      while true
        invariant Valid() && emitted == old(emitted) && Tracking()
        invariant Leads(trail, scheduledMax)
        invariant trail[0] == old(State(unscheduled)) && trail[|trail| - 1] == State(unscheduled)
        decreases Work()
      {
        var k: nat := *;
        var turn := PollTurn(k);
        if turn.Some? {
          if turn.value.PollPending? {
            WaitsAfter(trail, State(unscheduled), scheduledMax);
          }
          return turn.value;
        }
        LeadsOn(trail, k, State(unscheduled), scheduledMax);
        trail := trail + [State(unscheduled)];
      }
    }

    /** One turn in which some running item does complete, if there is one. */
    method RunTurn() returns (turn: Option<Option<Out>>)
      requires Valid()
      modifies `unscheduled, `scheduled, `started, `waitingForKey, `waitingForShard, `live, `completed, `emitted,
               `watch, `letIn, `history
      ensures Valid() && Tracking()
      ensures match turn
              case None => emitted == old(emitted) && Work() < old(Work())
              case Some(Some(out)) => emitted == old(emitted) + [out] && Work() < old(Work())
              case Some(None) => emitted == old(emitted) && Ended()
    {
      Schedule();
      assert Work() == old(Work()) && Tracking();
      var k: nat :| scheduled == [] || k < |scheduled|;
      var r := PollTurn(k);
      if r == None {
        return None;
      }
      assert r.value.Ready?;
      return Some(r.value.output);
    }

    /** Runs the stream to its end, in whatever order items complete. */
    method Collect() returns (outputs: seq<Out>)
      requires Valid()
      modifies `unscheduled, `scheduled, `started, `waitingForKey, `waitingForShard, `live, `completed, `emitted,
               `watch, `letIn, `history
      ensures Valid() && Tracking() && Ended() && emitted == old(emitted) + outputs
    {
      outputs := [];
      while true
        invariant Valid() && Tracking() && emitted == old(emitted) + outputs
        decreases Work()
      {
        var turn := RunTurn();
        match turn {
          case Some(None) => return;
          case Some(Some(out)) =>
            assert (old(emitted) + outputs) + [out] == old(emitted) + (outputs + [out]);
            outputs := outputs + [out];
          case None =>
        }
      }
    }

    constructor (scheduledMax: nat, init: seq<Item>)
      requires scheduledMax >= 1
      ensures Valid() && all == Trees(init) && emitted == [] && this.scheduledMax == scheduledMax
      ensures watch == Watch(true, {}, false) && letIn == multiset{}
      ensures State(unscheduled) == Queues(init, [], map[], map[])
    {
      this.scheduledMax := scheduledMax;
      unscheduled := init;
      scheduled := [];
      waitingForKey := map[];
      waitingForShard := map[];
      all := Trees(init);
      live := init;
      started := [];
      completed := [];
      emitted := [];
      watch := Watch(true, {}, false);
      letIn := multiset{};
      history := History([], [], [], []);
      new;
      RecordsStart(init);
      InTurnStarts(init);
    }
  }
}
