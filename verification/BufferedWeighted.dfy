/** A buffer of futures that run together, in the order of their source, up to a maximum weight. */
module BufferedWeighted {
  import opened Common

  type Out(!new)

  /** A future of the source: its weight, and what it will return. */
  datatype Weighted = Weighted(weight: nat, output: Out)

  datatype Poll<+T> = Ready(value: T) | PollPending

  function Outputs(items: seq<Weighted>): (outputs: seq<Out>)
    ensures |outputs| == |items| && forall i :: 0 <= i < |items| ==> outputs[i] == items[i].output
  {
    seq(|items|, i requires 0 <= i < |items| => items[i].output)
  }

  /** The sum of the weights, none of which counts for more than `max`. */
  ghost function TotalWeight(items: seq<Weighted>, max: nat): nat {
    if items == [] then 0 else Min(items[0].weight, max) + TotalWeight(items[1..], max)
  }

  lemma {:induction false} TotalWeightAppend(items: seq<Weighted>, item: Weighted, max: nat)
    ensures TotalWeight(items + [item], max) == TotalWeight(items, max) + Min(item.weight, max)
  {
    if items == [] {
      assert ([item])[1..] == [];
    } else {
      TotalWeightAppend(items[1..], item, max);
      assert (items + [item])[1..] == items[1..] + [item];
    }
  }

  class GlobalWeight {
    const max: nat
    var current: nat

    constructor (max: nat)
      requires max < USIZE
      ensures this.max == max && current == 0
    {
      this.max := max;
      current := 0;
    }

    predicate HasSpaceFor(weight: nat)
      reads this
      ensures HasSpaceFor(weight) <==> current + Min(weight, max) <= max
    {
      current <= max - Min(weight, max)
    }

    /** The addition must not overflow. */
    method AddWeight(weight: nat)
      requires current + Min(weight, max) < USIZE
      modifies this
      ensures current == old(current) + Min(weight, max)
    {
      current := current + Min(weight, max);
    }

    /** The subtraction must not underflow. */
    method SubWeight(weight: nat)
      requires current >= Min(weight, max)
      modifies this
      ensures current + Min(weight, max) == old(current)
    {
      current := current - Min(weight, max);
    }
  }

  /** The memory bound: whether memory is short is arbitrary each time it is asked, if there is a bound at all. */
  class MemoryBound {
    const bounded: bool
    /** What it answered. */
    ghost var answers: seq<bool>

    constructor (bounded: bool)
      ensures this.bounded == bounded && answers == []
    {
      this.bounded := bounded;
      answers := [];
    }

    method WithinBound(weight: nat) returns (within: bool)
      modifies this
      ensures answers == old(answers) + [within] && (!bounded ==> within)
    {
      within := *;
      within := within || !bounded;
      answers := answers + [within];
    }
  }

  /** A fused stream: items that come when they are ready, and its end. */
  class Fuse {
    var rest: seq<Weighted>
    var done: bool
    /** What it answered when it was polled. */
    ghost var answers: seq<Poll<Option<Weighted>>>

    ghost predicate Valid()
      reads this
    {
      done ==> rest == []
    }

    constructor (items: seq<Weighted>)
      ensures Valid() && rest == items && !done && answers == []
    {
      rest, done := items, false;
      answers := [];
    }

    /** The next item, or the end, once the stream is ready. */
    method Next() returns (next: Option<Weighted>)
      requires Valid()
      modifies `rest, `done
      ensures Valid()
      ensures match next
              case None => rest == old(rest) == [] && done
              case Some(item) => old(rest) == [item] + rest && done == old(done)
    {
      if rest == [] {
        done := true;
        return None;
      }
      next := Some(rest[0]);
      rest := rest[1..];
    }

    /** Whether the stream is ready is arbitrary, until it has ended. */
    method PollNext() returns (r: Poll<Option<Weighted>>)
      requires Valid()
      modifies this
      ensures Valid() && (old(done) ==> r == Ready(None)) && answers == old(answers) + [r]
      ensures match r
              case PollPending => rest == old(rest) && !done
              case Ready(None) => rest == old(rest) == [] && done
              case Ready(Some(item)) => old(rest) == [item] + rest && !done
    {
      var ready: bool := *;
      if !done && !ready {
        answers := answers + [PollPending];
        return PollPending;
      }
      var next := Next();
      answers := answers + [Ready(next)];
      return Ready(next);
    }
  }

  /** A fused stream whose next item can be looked at before it is taken. */
  class PeekableFused {
    const stream: Fuse
    var peeked: Option<Weighted>

    ghost predicate Valid()
      reads this, stream
    {
      stream.Valid()
    }

    /** The items that were not taken yet. */
    ghost function Items(): seq<Weighted>
      reads this, stream
    {
      (if peeked.Some? then [peeked.value] else []) + stream.rest
    }

    constructor (stream: Fuse)
      requires stream.Valid()
      ensures Valid() && this.stream == stream && peeked == None
    {
      this.stream := stream;
      peeked := None;
    }

    /** Whether the source has ended; an item may still be waiting to be taken. */
    predicate IsDone()
      reads stream
    {
      stream.done
    }

    /** Whether the source has ended and no item is waiting. */
    predicate IsTerminated()
      reads this, stream
      ensures IsTerminated() && Valid() ==> Items() == []
    {
      peeked.None? && stream.done
    }

    method PollPeek() returns (r: Poll<Option<Weighted>>)
      requires Valid()
      modifies this, stream
      ensures Valid() && Items() == old(Items()) && Ahead() <= old(Ahead())
      ensures match r
              case PollPending => peeked == None && !stream.done
              case Ready(None) => peeked == None && IsTerminated()
              case Ready(Some(item)) => peeked == Some(item)
      ensures stream.answers == old(stream.answers) + if old(peeked).Some? then [] else [r]
    {
      if peeked.Some? {
        return Ready(peeked);
      }
      var next := stream.PollNext();
      if next.Ready? && next.value.Some? {
        peeked := next.value;
      }
      return next;
    }

    /** What was waited for has come: the next item can be looked at, or the source has ended. */
    method Arrive()
      requires Valid() && peeked == None && !stream.done
      modifies this, stream
      ensures Valid() && Items() == old(Items()) && Ahead() < old(Ahead())
    {
      peeked := stream.Next();
    }

    /** What is still to come from the source: items, and its end. */
    ghost function Ahead(): nat
      reads stream
    {
      |stream.rest| + if stream.done then 0 else 1
    }

    method PollNext() returns (r: Poll<Option<Weighted>>)
      requires Valid()
      modifies this, stream
      ensures Valid() && peeked == None && Ahead() <= old(Ahead())
      ensures old(peeked).Some? ==>
                && r == Ready(old(peeked)) && stream.rest == old(stream.rest) && stream.done == old(stream.done)
                && stream.answers == old(stream.answers)
      ensures match r
              case PollPending => Items() == old(Items()) && !stream.done
              case Ready(None) => Items() == old(Items()) == [] && stream.done
              case Ready(Some(item)) => old(Items()) == [item] + Items()
    {
      if peeked.Some? {
        r := Ready(peeked);
        peeked := None;
        return;
      }
      r := stream.PollNext();
    }
  }

  class BufferedWeighted {
    const stream: PeekableFused
    const globalWeight: GlobalWeight
    const bound: MemoryBound
    var inProgressQueue: seq<Weighted>

    /** The outputs of all items of the source, and those that were returned. */
    ghost const all: seq<Out>
    ghost var emitted: seq<Out>

    /** The weight in use is that of the futures in progress, and is never more than the maximum; no item is
        lost, repeated or moved. */
    ghost predicate Valid()
      reads this, stream, stream.stream, globalWeight
    {
      && stream.Valid() && globalWeight.max < USIZE
      && globalWeight.current == TotalWeight(inProgressQueue, globalWeight.max) <= globalWeight.max
      && emitted + Outputs(inProgressQueue) + Outputs(stream.Items()) == all
    }

    constructor (items: seq<Weighted>, maxWeight: nat, bounded: bool)
      requires maxWeight < USIZE
      ensures Valid() && fresh(stream) && fresh(stream.stream) && fresh(globalWeight) && fresh(bound)
      ensures globalWeight.max == maxWeight && bound.bounded == bounded && all == Outputs(items) && emitted == []
    {
      var fuse := new Fuse(items);
      stream := new PeekableFused(fuse);
      globalWeight := new GlobalWeight(maxWeight);
      bound := new MemoryBound(bounded);
      inProgressQueue := [];
      all := Outputs(items);
      emitted := [];
      new;
      assert stream.Items() == items;
      assert emitted + Outputs(inProgressQueue) + Outputs(stream.Items()) == all;
    }

    /** Whether the item that was looked at has to wait.  Memory is asked for an item that has room, and counts only
        while something is in progress. */
    method MustWait(weight: nat) returns (wait: bool)
      modifies bound
      ensures globalWeight.HasSpaceFor(weight) ==>
                |bound.answers| == |old(bound.answers)| + 1 && old(bound.answers) <= bound.answers
                && (wait <==> !bound.answers[|old(bound.answers)|] && inProgressQueue != [])
      ensures !globalWeight.HasSpaceFor(weight) ==> wait && bound.answers == old(bound.answers)
      ensures !bound.bounded && wait ==> !globalWeight.HasSpaceFor(weight)
    {
      if !globalWeight.HasSpaceFor(weight) {
        return true;
      }
      var within := bound.WithinBound(weight);
      return !within && inProgressQueue != [];
    }

    /** Takes the item that was looked at, and starts it. */
    method StartNext(peeked: Weighted)
      requires Valid() && stream.peeked == Some(peeked) && globalWeight.HasSpaceFor(peeked.weight)
      modifies this, stream, stream.stream, globalWeight
      ensures Valid() && emitted == old(emitted) && inProgressQueue == old(inProgressQueue) + [peeked]
      ensures stream.Ahead() <= old(stream.Ahead()) && stream.stream.answers == old(stream.stream.answers)
      ensures old(stream.Items()) == [peeked] + stream.Items() && stream.peeked == None
    {
      var next := stream.PollNext();
      assert next == Ready(Some(peeked));
      globalWeight.AddWeight(peeked.weight);
      TotalWeightAppend(inProgressQueue, peeked, globalWeight.max);
      MovedAlong(emitted, inProgressQueue, peeked, stream.Items());
      inProgressQueue := inProgressQueue + [peeked];
    }

    /** What memory said since it had given `before` answers: yes for each of the `count` items that were started, but
        for one that was started while nothing was in progress. */
    ghost predicate Permitted(before: nat, idle: bool, count: nat)
      reads bound
    {
      && before + count <= |bound.answers|
      && forall i :: before <= i < before + count ==> bound.answers[i] || (i == before && idle)
    }

    /** Why no more items are started while `queue` is in progress, when the source had given `polled` answers before
        and memory had given `asked` answers before `count` items were started: the source was polled, and was not
        ready or has ended; or the next item has no room; or memory is short while something is in progress. */
    ghost predicate FilledUp(queue: seq<Weighted>, polled: nat, asked: nat, count: nat)
      reads this, stream, stream.stream, globalWeight, bound
    {
      match stream.peeked
      case None =>
        && polled < |stream.stream.answers| && asked + count == |bound.answers|
        && stream.stream.answers[|stream.stream.answers| - 1]
           == (if stream.stream.done then Ready(None) else PollPending)
      case Some(item) =>
        if TotalWeight(queue, globalWeight.max) + Min(item.weight, globalWeight.max) > globalWeight.max
        then asked + count == |bound.answers|
        else queue != [] && asked + count + 1 == |bound.answers| && !bound.answers[asked + count]
    }

    /** Starts as many futures as possible, in the order of the source.  It stops exactly when it must. */
    method Fill()
      requires Valid()
      modifies this, stream, stream.stream, globalWeight, bound
      ensures Valid() && emitted == old(emitted) && stream.Ahead() <= old(stream.Ahead())
      ensures old(inProgressQueue) <= inProgressQueue
      ensures var count := |inProgressQueue| - |old(inProgressQueue)|;
              && Permitted(|old(bound.answers)|, old(inProgressQueue) == [], count)
              && FilledUp(inProgressQueue, |old(stream.stream.answers)|, |old(bound.answers)|, count)
      ensures stream.peeked.Some? ==> inProgressQueue != []
      ensures stream.peeked.Some? && !bound.bounded ==> !globalWeight.HasSpaceFor(stream.peeked.value.weight)
    {
      while true
        invariant Valid() && emitted == old(emitted) && stream.Ahead() <= old(stream.Ahead())
        invariant old(inProgressQueue) <= inProgressQueue
        invariant |bound.answers| == |old(bound.answers)| + (|inProgressQueue| - |old(inProgressQueue)|)
        invariant Permitted(|old(bound.answers)|, old(inProgressQueue) == [],
                            |inProgressQueue| - |old(inProgressQueue)|)
        invariant |old(stream.stream.answers)| <= |stream.stream.answers|
        decreases |stream.Items()|
      {
        var peek := stream.PollPeek();
        if peek.PollPending? || peek.value.None? {
          return;
        }
        var wait := MustWait(peek.value.value.weight);
        if wait {
          return;
        }
        StartNext(peek.value.value);
      }
    }

    /** The first future in progress has completed. */
    method TakeFirst() returns (output: Out)
      requires Valid() && inProgressQueue != []
      modifies this, globalWeight
      ensures Valid() && emitted == old(emitted) + [output]
      ensures output == old(inProgressQueue)[0].output && inProgressQueue == old(inProgressQueue)[1..]
    {
      var first, rest := inProgressQueue[0], inProgressQueue[1..];
      Emitted(emitted, first, rest, Outputs(stream.Items()));
      assert inProgressQueue == [first] + rest;
      inProgressQueue := rest;
      globalWeight.SubWeight(first.weight);
      emitted := emitted + [first.output];
      return first.output;
    }

    /** The futures in progress became `queue`: all that could be were started, and nothing else. */
    twostate predicate Filling(queue: seq<Weighted>)
      reads this, stream, stream.stream, globalWeight, bound
    {
      && old(inProgressQueue) <= queue
      && Permitted(|old(bound.answers)|, old(inProgressQueue) == [], |queue| - |old(inProgressQueue)|)
      && FilledUp(queue, |old(stream.stream.answers)|, |old(bound.answers)|, |queue| - |old(inProgressQueue)|)
    }

    /** The next output, after all that can be were started.  Whether the first future in progress has completed is
        arbitrary.  The end is reported only when everything was returned; otherwise something is in progress or
        the source is not ready. */
    method PollNext() returns (r: Poll<Option<Out>>)
      requires Valid()
      modifies this, stream, stream.stream, globalWeight, bound
      ensures Valid() && stream.Ahead() <= old(stream.Ahead())
      ensures match r
              case PollPending =>
                && emitted == old(emitted) && (inProgressQueue != [] || (stream.peeked.None? && !stream.stream.done))
                && Filling(inProgressQueue)
                && (stream.peeked.Some? ==> bound.bounded || !globalWeight.HasSpaceFor(stream.peeked.value.weight))
              case Ready(Some(output)) =>
                && emitted == old(emitted) + [output]
                && exists first: Weighted :: first.output == output && Filling([first] + inProgressQueue)
              case Ready(None) =>
                && emitted == old(emitted) == all && inProgressQueue == [] && stream.IsTerminated()
                && Filling(inProgressQueue)
    {
      Fill();
      ghost var queue := inProgressQueue;
      assert Filling(queue);
      if inProgressQueue != [] {
        var completed: bool := *;
        if !completed {
          return PollPending;
        }
        var output := TakeFirst();
        assert queue == [queue[0]] + inProgressQueue && queue[0].output == output;
        return Ready(Some(output));
      }
      if stream.IsDone() {
        return Ready(None);
      }
      return PollPending;
    }

    /** A poll, after which what it waits for comes: the first future in progress completes, or the source is ready. */
    method RunTurn() returns (turn: Option<Option<Out>>)
      requires Valid()
      modifies this, stream, stream.stream, globalWeight, bound
      ensures Valid() && stream.Ahead() <= old(stream.Ahead())
      ensures match turn
              case None => emitted == old(emitted) && stream.Ahead() < old(stream.Ahead())
              case Some(Some(output)) => emitted == old(emitted) + [output]
              case Some(None) => emitted == old(emitted) == all
    {
      var r := PollNext();
      if r.Ready? {
        return Some(r.value);
      }
      if inProgressQueue != [] {
        var output := TakeFirst();
        return Some(Some(output));
      }
      stream.Arrive();
      return None;
    }

    lemma EmittedFirst()
      requires Valid()
      ensures |emitted| <= |all|
    {
    }

    /** Runs the buffer to its end: all outputs are returned, in the order of the source. */
    method Collect() returns (outputs: seq<Out>)
      requires Valid()
      modifies this, stream, stream.stream, globalWeight, bound
      ensures Valid() && old(emitted) + outputs == emitted == all
    {
      outputs := [];
      EmittedFirst();
      while true
        invariant Valid() && emitted == old(emitted) + outputs && |emitted| <= |all|
        decreases |all| - |emitted|, stream.Ahead()
      {
        var turn := RunTurn();
        EmittedFirst();
        match turn {
          case Some(None) => return;
          case Some(Some(output)) =>
            assert (old(emitted) + outputs) + [output] == old(emitted) + (outputs + [output]);
            outputs := outputs + [output];
          case None =>
        }
      }
    }
  }

  lemma Emitted(emitted: seq<Out>, first: Weighted, rest: seq<Weighted>, waiting: seq<Out>)
    ensures emitted + [first.output] + Outputs(rest) + waiting == emitted + Outputs([first] + rest) + waiting
  {
  }

  lemma MovedAlong(emitted: seq<Out>, queue: seq<Weighted>, item: Weighted, rest: seq<Weighted>)
    ensures emitted + Outputs(queue + [item]) + Outputs(rest) == emitted + Outputs(queue) + Outputs([item] + rest)
  {
  }
}
