/** Futures that were created and have not completed. */
module Jobs {
  import opened Common

  /** A future, and what it is for. */
  datatype Job<K, W> = Job(key: K, work: W)

  /** The outstanding futures are exactly the outstanding work, one for each key. */
  ghost predicate JobsOk<K, W>(jobs: seq<Job<K, W>>, work: map<K, W>) {
    && |jobs| == |work|
    && (forall i :: 0 <= i < |jobs| ==> jobs[i].key in work && work[jobs[i].key] == jobs[i].work)
    && (forall i, j :: 0 <= i < j < |jobs| ==> jobs[i].key != jobs[j].key)
  }

  lemma JobAdded<K, W>(before: seq<Job<K, W>>, after: seq<Job<K, W>>, job: Job<K, W>, work: map<K, W>)
    requires JobsOk(before + after, work) && job.key !in work
    ensures JobsOk(before + ([job] + after), work[job.key := job.work])
  {
    var jobs, jobs' := before + after, before + ([job] + after);
    assert |work[job.key := job.work]| == |work| + 1;
    forall i | 0 <= i < |jobs'| && i != |before|
      ensures jobs'[i] == jobs[if i < |before| then i else i - 1]
    {
    }
  }

  lemma JobRemoved<K, W>(jobs: seq<Job<K, W>>, k: nat, work: map<K, W>)
    requires JobsOk(jobs, work) && k < |jobs|
    ensures jobs[k].key in work && work[jobs[k].key] == jobs[k].work
    ensures JobsOk(jobs[..k] + jobs[k + 1..], work - {jobs[k].key})
  {
    var jobs', work' := jobs[..k] + jobs[k + 1..], work - {jobs[k].key};
    assert work.Keys == work'.Keys + {jobs[k].key};
    assert |work.Keys| == |work| && |work'.Keys| == |work'|;
    forall i | 0 <= i < |jobs'| ensures jobs'[i] == jobs[if i < k then i else i + 1] {
    }
  }

  /** Queued jobs that start are the same jobs, in the same order. */
  lemma JobsMoved<T>(running: seq<T>, queued: seq<T>, n: nat)
    requires n <= |queued|
    ensures (running + queued[..n]) + queued[n..] == running + queued
  {
  }

  /** A running job is taken out. */
  lemma JobTaken<K, W>(running: seq<Job<K, W>>, waiting: seq<Job<K, W>>, a: nat, work: map<K, W>)
    requires a < |running| && JobsOk(running + waiting, work)
    ensures running[a].key in work && work[running[a].key] == running[a].work
    ensures JobsOk((running[..a] + running[a + 1..]) + waiting, work - {running[a].key})
  {
    JobRemoved(running + waiting, a, work);
    assert (running[..a] + running[a + 1..]) + waiting == (running + waiting)[..a] + (running + waiting)[a + 1..];
  }

  // ---------------------------------------------------------------- what runs, and what waits

  /** The futures that run, and those that are queued. */
  datatype Lanes<+T> = Lanes(running: seq<T>, waiting: seq<T>)

  /** What was queued before is still queued, in the same order, behind anything new. */
  ghost predicate EndsWith<T>(queue: seq<T>, rest: seq<T>) {
    forall part {:trigger Look(part)} :: Look(part) && part == Part.QueueOrder ==>
      |rest| <= |queue| && queue[|queue| - |rest|..] == rest
  }

  lemma EndsWithin<T>(a: seq<T>, b: seq<T>, c: seq<T>)
    requires EndsWith(a, b) && EndsWith(b, c)
    ensures EndsWith(a, c)
  {
    assert Look(Part.QueueOrder);
  }

  lemma EndsWithItself<T>(queue: seq<T>)
    ensures EndsWith(queue, queue)
  {
  }

  lemma EndsBehind<T>(x: T, rest: seq<T>)
    ensures EndsWith([x] + rest, rest)
  {
  }

  /** Futures were taken from the front of the queue until `max` run or none is left. */
  ghost predicate Fills<T>(a: Lanes<T>, b: Lanes<T>, max: nat) {
    && b.running + b.waiting == a.running + a.waiting && |a.running| <= |b.running|
    && (|b.running| == max || b.waiting == [])
  }

  /** After that, running future `k` has completed. */
  ghost predicate Completes<T>(a: Lanes<T>, k: nat, b: Lanes<T>, max: nat) {
    var all := a.running + a.waiting;
    var n := Min(|all|, max);
    k < n && b.running == all[..k] + all[k + 1..n] && EndsWith(b.waiting, all[n..])
  }

  ghost predicate SomeCompletes<T>(a: Lanes<T>, b: Lanes<T>, max: nat) {
    exists k: nat :: Completes(a, k, b, max)
  }

  /** Futures completed one after the other. */
  ghost predicate Leads<T>(trail: seq<Lanes<T>>, max: nat) {
    && trail != []
    && (|trail| == 1 || (Leads(trail[..|trail| - 1], max)
                         && SomeCompletes(trail[|trail| - 2], trail[|trail| - 1], max)))
  }

  /** The state of the queues before and after a poll that comes to where it has to wait. */
  ghost predicate Waits<T(!new)>(before: Lanes<T>, after: Lanes<T>, max: nat) {
    exists trail: seq<Lanes<T>> :: Leads(trail, max) && trail[0] == before && Fills(trail[|trail| - 1], after, max)
  }

  lemma CompletesAfter<T>(a: Lanes<T>, m: Lanes<T>, k: nat, b: Lanes<T>, max: nat)
    requires |a.running| <= max && Fills(a, m, max) && |m.running| <= max && k < |m.running|
    requires b.running == m.running[..k] + m.running[k + 1..] && EndsWith(b.waiting, m.waiting)
    ensures Completes(a, k, b, max)
  {
    var all := m.running + m.waiting;
    var n := Min(|all|, max);
    assert n == |m.running|;
    assert all[..k] == m.running[..k] && all[k + 1..n] == m.running[k + 1..] && all[n..] == m.waiting;
  }

  lemma LeadsOn<T>(trail: seq<Lanes<T>>, k: nat, next: Lanes<T>, max: nat)
    requires Leads(trail, max) && Completes(trail[|trail| - 1], k, next, max)
    ensures Leads(trail + [next], max)
  {
    var trail' := trail + [next];
    assert trail'[..|trail|] == trail;
    assert Completes(trail'[|trail| - 1], k, trail'[|trail|], max);
  }
}
