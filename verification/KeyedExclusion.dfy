/** Items with the same key are meant not to run together.  They can, and this is exactly when. */
module KeyedExclusion {
  import opened Common
  import opened KeyedQueues

  /** No two running items have the same key. */
  ghost predicate Exclusive(q: Queues) {
    forall i, j :: 0 <= i < j < |q.scheduled| ==> q.scheduled[i].key != q.scheduled[j].key
  }

  /** An item with key `k` is running, and has no queue in which others would wait for it. */
  ghost predicate Unguarded(q: Queues, k: Key) {
    k !in q.byKey && exists i :: 0 <= i < |q.scheduled| && q.scheduled[i].key == k
  }

  // ---------------------------------------------------------------- what happened to keys

  /** What happened so far, as it bears on keys.  A key is exposed from the completion of an item for which exactly
      one other waited, to the completion of that other item.  `orderly` says that this never happened; `clashed`
      says that an item started while its key was exposed. */
  datatype Watch = Watch(orderly: bool, exposed: set<Key>, clashed: bool)

  /** An item with key `k` starts that did not wait for one. */
  ghost function Started(w: Watch, k: Key): Watch {
    Watch(w.orderly, w.exposed - {k}, w.clashed || k in w.exposed)
  }

  /** A running item with key `k` completes. */
  ghost function Completed(w: Watch, q: Queues, k: Key): Watch {
    if k !in q.byKey then w.(exposed := w.exposed - {k})
    else if |q.byKey[k]| == 1 then Watch(false, w.exposed + {k}, w.clashed)
    else w
  }

  /** As long as no item started while its key was exposed, running items have different keys, and the exposed keys
      are those of running items that are not guarded. */
  ghost predicate WatchOk(q: Queues, w: Watch) {
    && (w.orderly ==> w.exposed == {} && !w.clashed)
    && (!w.clashed ==> Exclusive(q) && forall k {:trigger Unguarded(q, k)} :: k in w.exposed <==> Unguarded(q, k))
  }

  /** The same, as the traversal passes it on. */
  ghost predicate Watched(q: Queues, w: Watch) {
    forall part {:trigger Look(part)} :: Look(part) && part == Part.KeyedWatch ==> WatchOk(q, w)
  }

  lemma WatchStarts(init: seq<Item>)
    ensures Watched(Queues(init, [], map[], map[]), Watch(true, {}, false))
  {
  }

  /** Items with the same key never run together while the traversal is orderly. */
  lemma OrderlyExclusive(q: Queues, w: Watch)
    requires Watched(q, w)
    ensures !w.clashed ==> Exclusive(q)
    ensures w.orderly ==> !w.clashed && forall i :: 0 <= i < |q.scheduled| ==> q.scheduled[i].key in q.byKey
  {
    assert Look(Part.KeyedWatch);
    if w.orderly {
      forall i | 0 <= i < |q.scheduled| ensures q.scheduled[i].key in q.byKey {
        assert !Unguarded(q, q.scheduled[i].key);
      }
    }
  }

  /** Of items that start without having waited for their key, exactly those break the exclusion whose key is
      exposed. */
  lemma StartExclusive(q: Queues, x: Item, rest: seq<Item>, w: Watch)
    requires Watched(q, w) && x.key !in q.byKey
    ensures Watched(Start(q, x, rest), Started(w, x.key))
    ensures !w.clashed ==> (Exclusive(Start(q, x, rest)) <==> x.key !in w.exposed)
  {
    assert Look(Part.KeyedWatch);
    var q' := Start(q, x, rest);
    assert q'.scheduled[|q.scheduled|] == x;
    assert forall i :: 0 <= i < |q.scheduled| ==> q'.scheduled[i] == q.scheduled[i];
    if !w.clashed {
      assert x.key in w.exposed <==> Unguarded(q, x.key);
      if x.key in w.exposed {
        var i :| 0 <= i < |q.scheduled| && q.scheduled[i].key == x.key;
        assert q'.scheduled[i].key == q'.scheduled[|q.scheduled|].key;
      } else {
        StartUnguarded(q, x, rest, w);
      }
    }
  }

  lemma StartUnguarded(q: Queues, x: Item, rest: seq<Item>, w: Watch)
    requires WatchOk(q, w) && !w.clashed && x.key !in q.byKey && x.key !in w.exposed
    ensures forall k {:trigger Unguarded(Start(q, x, rest), k)} ::
              k in Started(w, x.key).exposed <==> Unguarded(Start(q, x, rest), k)
  {
    var q' := Start(q, x, rest);
    assert forall i :: 0 <= i < |q.scheduled| ==> q'.scheduled[i] == q.scheduled[i];
    assert q'.scheduled[|q.scheduled|] == x;
    forall k ensures k in Started(w, x.key).exposed <==> Unguarded(q', k) {
      assert k in w.exposed <==> Unguarded(q, k);
    }
  }

  /** Waiting changes neither what runs nor for which keys there are queues. */
  lemma WaitExclusive(q: Queues, q': Queues, w: Watch)
    requires Watched(q, w) && q'.scheduled == q.scheduled && q'.byKey.Keys == q.byKey.Keys
    ensures Watched(q', w)
  {
    forall k ensures Unguarded(q', k) <==> Unguarded(q, k) {
    }
  }

  /** A completed item is replaced by one with the same key, so that items stay exclusive; its key is exposed
      if and only if exactly one item waited for it. */
  lemma CompleteExclusive(q: Queues, i: nat, children: seq<Item>, w: Watch)
    requires i < |q.scheduled| && Watched(q, w) && KeyOk(q, q.scheduled[i].key)
    ensures Watched(Complete(q, i, children), Completed(w, q, q.scheduled[i].key))
  {
    assert Look(Part.KeyedWatch);
    var w' := Completed(w, q, q.scheduled[i].key);
    if !w.clashed {
      CompleteKeepsExclusive(q, i, children);
      forall k ensures k in w'.exposed <==> Unguarded(Complete(q, i, children), k) {
        assert k in w.exposed <==> Unguarded(q, k);
        CompleteUnguarded(q, i, children, k);
      }
    }
  }

  lemma CompleteKeepsExclusive(q: Queues, i: nat, children: seq<Item>)
    requires i < |q.scheduled| && Exclusive(q) && KeyOk(q, q.scheduled[i].key)
    ensures Exclusive(Complete(q, i, children))
  {
    var k, q' := q.scheduled[i].key, Complete(q, i, children);
    var kept := q.scheduled[..i] + q.scheduled[i + 1..];
    assert forall j :: 0 <= j < |kept| ==> kept[j] == q.scheduled[if j < i then j else j + 1] && kept[j].key != k;
    assert forall j :: 0 <= j < |kept| ==> q'.scheduled[j] == kept[j];
    if k in q.byKey && q.byKey[k] != [] {
      assert q'.scheduled[|kept|] == q.byKey[k][0];
      assert q.byKey[k][0].key == k;
    }
  }

  lemma CompleteUnguarded(q: Queues, i: nat, children: seq<Item>, k: Key)
    requires i < |q.scheduled| && Exclusive(q) && KeyOk(q, q.scheduled[i].key)
    ensures Unguarded(Complete(q, i, children), k) <==>
              if k != q.scheduled[i].key then Unguarded(q, k) else k in q.byKey && |q.byKey[k]| == 1
  {
    var done, q' := q.scheduled[i].key, Complete(q, i, children);
    var kept := q.scheduled[..i] + q.scheduled[i + 1..];
    assert forall j :: 0 <= j < |kept| ==> q'.scheduled[j] == kept[j] == q.scheduled[if j < i then j else j + 1];
    assert forall j :: 0 <= j < |kept| ==> kept[j].key != done;
    if done in q.byKey && q.byKey[done] != [] {
      assert q'.scheduled[|kept|] == q.byKey[done][0] && q.byKey[done][0].key == done;
    }
    if k != done && Unguarded(q, k) {
      var j :| 0 <= j < |q.scheduled| && q.scheduled[j].key == k;
      assert q'.scheduled[if j < i then j else j - 1].key == k;
    }
  }

  // ---------------------------------------------------------------- which items clash

  /** Three items have key `k`. */
  ghost predicate Thrice(all: multiset<Item>, k: Key) {
    exists x: Item, y: Item, z: Item :: multiset{x, y, z} <= all && x.key == y.key == z.key == k
  }

  /** An item with an exposed key has completed, and a clash is one of three items with the same key. */
  ghost predicate Explained(w: Watch, completed: seq<Item>, all: multiset<Item>) {
    forall part {:trigger Look(part)} :: Look(part) && part == Part.KeyedWatch ==>
      && (w.clashed ==> exists k :: Thrice(all, k))
      && forall k {:trigger k in w.exposed} :: k in w.exposed ==> exists x :: x in completed && x.key == k
  }

  lemma StartExplained(q: Queues, live: multiset<Item>, x: Item, rest: seq<Item>, w: Watch, completed: seq<Item>,
                       all: multiset<Item>)
    requires Kept(q, live) && Watched(q, w) && Explained(w, completed, all) && multiset(completed) + live <= all
    requires q.unscheduled == [x] + rest && x.key !in q.byKey
    ensures Explained(Started(w, x.key), completed, all)
  {
    assert Look(Part.KeyedQueue) && Look(Part.KeyedWatch);
    if !w.clashed && x.key in w.exposed {
      assert Unguarded(q, x.key);
      var i :| 0 <= i < |q.scheduled| && q.scheduled[i].key == x.key;
      var c :| c in completed && c.key == x.key;
      StartsAfter(q, live, x, rest, i, c, completed, all);
      assert Thrice(all, x.key);
    }
  }

  lemma StartsAfter(q: Queues, live: multiset<Item>, x: Item, rest: seq<Item>, i: nat, c: Item, completed: seq<Item>,
                    all: multiset<Item>)
    requires Placed(q, live) && q.unscheduled == [x] + rest && i < |q.scheduled| && c in completed
    requires multiset(completed) + live <= all
    ensures multiset{c, q.scheduled[i], x} <= all
  {
    assert q.unscheduled[0] == x && q.scheduled[i] in q.scheduled;
    assert multiset{q.scheduled[i], x} <= live;
    assert multiset{c} <= multiset(completed);
  }

  lemma CompleteExplained(w: Watch, q: Queues, x: Item, completed: seq<Item>, all: multiset<Item>)
    requires Explained(w, completed, all)
    ensures Explained(Completed(w, q, x.key), completed + [x], all)
  {
    assert Look(Part.KeyedWatch);
    forall k | k in Completed(w, q, x.key).exposed ensures exists y :: y in completed + [x] && y.key == k {
      if k == x.key {
        assert (completed + [x])[|completed|] == x;
      } else {
        var y :| y in completed && y.key == k;
        assert y in completed + [x];
      }
    }
  }
}
