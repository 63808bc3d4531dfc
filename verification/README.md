# Verified models of rust-shed's traversals, buffers, codec and facet ordering

This project models the concurrent traversals of `bounded_traversal` and three smaller components of the
repository, and proves that they compute what their simple descriptions say, for every order in which
concurrent work completes.

Futures are modelled by what they will return. A set of running futures is a sequence, of which any element may
complete next; which one does is an arbitrary choice (`*` or `:|`) in the polling methods, so that what is proved
holds for every schedule. `poll` becomes a method that performs one or many turns of the original loop and may
stop with `PollPending` while something runs. Objects whose fields the original updates are classes with the same
fields; ghost fields record what they stand for. `dafny verify dfyconfig.toml` checks everything.

## The ordered stream (`Ordered*.dfy`)

`BoundedTraversalOrderedStream` emits the values of implicit trees in order while unfolds run concurrently. Each
node of its execution tree holds *budget* and tracks the *weight* of its children; a pass with an explicit stack
moves budget down and starts unfolds, a cursor emits values in order, and emitted values release budget upwards.

* `OrderedTree` defines the execution tree as a value, the accounting of weights, and the labels that say which
  items each node was unfolded from. `Remaining` is what the cursor has still to emit.
* `OrderedSteps` proves for every kind of step that links, labels, jobs and `Remaining` are kept.
* `OrderedFunding` says where the budget is: a node that still has something to emit holds budget at or before the
  first such thing (`avail`), or has weight in its parent's slot. If the next item is blocked and nothing is
  outstanding, then some node's budget reaches a child that a scheduling pass acts on (`NotStarved`).
* `OrderedPass`, `OrderedNode` and `OrderedScheduling` treat one scheduling pass: its stack is a path, and budget of
  nodes plus surplus of frames plus budget in flight is the total.
* `OrderedFlow` says what the whole pass does, without stack and frames: `PassTree` gives each node what arrives
  from its parent, what it starts and passes on, and what comes back from below. The pass computes exactly this.
* `OrderedQuiet` says when a pass has nothing to do. A node is quiet if it has no more budget than it needs and what
  it has reaches neither an input to start nor a child node that is waiting for some. A pass changes no child,
  no weight and no budget exactly when all nodes are quiet.
* `OrderedRelease` and `OrderedCursor` treat emission, release of budget, completion of nodes and unfolds.
* `OrderedMachine` describes the traversal as a machine over `Situation`s, without jobs and ghost state: the search
  for the next item, the pass, the release of budget and the insertion of an unfold as functions. The methods of the
  class are proved to compute these functions. When the next item waits and no unfold is outstanding, the machine
  makes progress if and only if some node is not quiet; otherwise it stays as it is for ever.
* `OrderedStream` has the class itself. Its invariant holds after every public operation, with and without a limit.
  Output is always a prefix of the in-order list, and ends with all of it or with as much as the limit allows. A
  poll comes to an end unless the stream stalls: nothing runs, the next item waits and all nodes are quiet. Then the
  original goes round its loop for ever, which the model reports as `Diverges`. A stream stalls only when budget
  has expired; without a limit budget never expires, and with one it does so only when fewer items are to come than
  the queue bound. So a stream with a limit or a queue bound below two never stalls.
* `OrderedStarvation` shows that with every other limit and queue bound a stream can stall, if more than one unfold may
  run. It runs a stream from its creation: two roots `(1, m)` and `(1, D)` with
  `m -> [Output x1, ..., Output xn, Recurse(1, A), Output c]`, `A -> [Output a]`, `D -> [Output d]`, and a limit of
  `n + 2`. When the unfolds of `D`, `m` and `A` complete in this order, the stream emits the `x` and `a` and then never
  ends its next poll, although the limit allows another item.

## The graph and tree traversals (`Digraph`, `Dag*`, `Tree*`, `Jobs`, `Slots`)

`DagFold` defines the recursive fold of a value in a finite graph, and proves that it exists exactly when no cycle can
be reached. `DagTree` ties the execution tree to it: every slot holds the result of its child or is linked from it,
every node is being unfolded, blocked, being folded or done, and the calls of `unfold` and `fold` are recorded. `Dag`
has `BoundedTraversalDAG`; its answer is the recursive fold, or `None` exactly when a cycle can be reached, and each
reachable value is unfolded once. Under a limit the same holds of the children that values were given; a limited
traversal ends on every graph, finite or not.
`TreeFold` and `TreeTraversal` do the same for `BoundedTraversal`, where nothing is shared. `Jobs` says how queued futures
are started: from the front, as many as may run, before a poll waits.

## The keyed stream (`Keyed*`)

`LimitedByKeyStream` queues items by key and by shard. Nothing is stranded: at the end every item was unfolded exactly
once and all queues are empty. The documentation also says that items with the same key do not run together; the code
does not ensure this. When an item completes for which exactly one other waits, the queue of its key is dropped while
that other one runs: the key is exposed until it completes. `KeyedExclusion` records for every run what happened to
keys: two items with the same key ran together at some time exactly when an item started while its key was exposed.
This needs a completion of that kind, three items with the same key, and room for more than one item to run.

`KeyedShards` treats the numbers that come with the items of a shard. The counter of a shard goes up to one more than
the number, and an item that waited for its key and is let in by it is not counted. In every run no more items of a
shard run than one more than the number and as many as were let in, and it is exactly the first one that is let in that
first makes more run than are counted. A shard none of whose items shares its key with another item therefore keeps to its number, but for one.

`KeyedOrder` says where each step moves items, queue by queue, and that items which wait for a key, or for a shard, are
let in in the order in which they came.

`KeyedRecords` keeps the records of keys and shards from step to step. `KeyedRuns` has the runs, from the creation of the stream, in
which the guarantees fail: two items with the same key run together whenever more than one item may run, and, whatever
the number of the shard is, all items that may run at all are of the same shard.

## Facets, buffer and codec

* `FacetCycles`, `FacetDepths` and `FacetFactory` treat the cycle check and the build order of the facet factory. Names
  that the original visits in alphabetical order are visited in any order. If several methods have the same name, the
  parameters of the last one count, but a facet is a head only if no method at all has it as a parameter; so a facet
  that only a method that does not count asks for is not built. `LastUsesAll` says exactly when this does not happen.
* `BufferedWeighted` treats the ordered buffer with a maximum weight. The end of the stream is decided without looking
  at the item that was peeked; this is right because such an item only waits while another is in progress.
* `Netstring` and `NetstringCodec` treat the codec. The decoder accepts more than section 2 ("Definition") of
  "Netstrings" by D. J. Bernstein: an empty length, superfluous zeros, and lengths that wrap around.
  `EncodedIffCanonical` says exactly when a decoded message re-encodes to its input. `NetstringWire` writes out the
  bytes of messages and of errors.

Large invariants are wrapped in quantifiers over `Look` and a `Part` (module `Common`), so that proofs that only pass
them on need not look inside.

## Model

| member | source | states |
|---|---|---|
| `OrderedStream.BoundedTraversalOrderedStream.constructor` | shed/bounded_traversal/src/ordered_stream.rs:434-480 | The new stream satisfies the invariant, has emitted nothing and stands for the in-order list of all values below the roots; the root holds as much of the queue bound as it needs; a limit of zero starts it ended; no budget has expired |
| `OrderedStream.BoundedTraversalOrderedStream.PollNext` | shed/bounded_traversal/src/ordered_stream.rs:819-851 | From every state between polls: a poll returns the next value of the in-order list, or the end when everything (or as much as the limit allows) was emitted, or waits for a running unfold, and then the item at the cursor cannot be emitted, no input within reach of its budget was passed over, and as many unfolds run as allowed or none is queued; the situation it ends in is the one that the machine comes to in some number of turns; it comes to an end unless it gets to a stalled stream, which is reported as `Diverges` and happens only after budget has expired; a stalled stream stays so |
| `OrderedStream.BoundedTraversalOrderedStream.PollTurn` | shed/bounded_traversal/src/ordered_stream.rs:821-850 | One turn of the loop, limited or not, makes exactly what the machine says: items come in order, the end comes with the full result and no outstanding work, and every silent turn leaves less to do or a stalled stream; it waits only at an item that cannot be emitted, after every input that was within reach of its budget was started; a turn of a stalled stream changes nothing of that |
| `OrderedStream.BoundedTraversalOrderedStream.Collect` | shed/bounded_traversal/src/ordered_stream.rs:819-851 | Run to its end, for every completion order, a stream returns exactly the in-order list, or as much of it as the limit allows; it gets there unless it stalls, which needs expired budget, and a limit and a queue bound of at least two |
| `OrderedStream.BoundedTraversalOrderedStream.RunTurn` | shed/bounded_traversal/src/ordered_stream.rs:819-851 | A turn in which some running unfold does complete emits, ends, leaves less to do, or leaves a stalled stream |
| `OrderedStream.BoundedTraversalOrderedStream.Advance` | shed/bounded_traversal/src/ordered_stream.rs:822-840 | Yield, schedule, yield, as the machine says: without an item and without a running unfold, less is left to do (in weight, nodes or excess budget) or the stream is stalled; a stalled stream has no item and stays stalled |
| `OrderedStream.BoundedTraversalOrderedStream.ScheduleNext` | shed/bounded_traversal/src/ordered_stream.rs:495-611 | A scheduling pass turns the tree into exactly the one that `PassTree` gives, and takes from the total exactly the surplus of the root; it keeps the whole invariant, including that node budgets add up to the total, never underflows and loses no work |
| `OrderedStream.BoundedTraversalOrderedStream.RunPass` | shed/bounded_traversal/src/ordered_stream.rs:539-605 | The explicit stack is emptied; when it is, what is in flight is exactly the budget left over at the root |
| `OrderedStream.BoundedTraversalOrderedStream.VisitFrame` | shed/bounded_traversal/src/ordered_stream.rs:539-605 | One turn of the pass keeps the pass invariant and either visits a new node or pops a frame |
| `OrderedStream.BoundedTraversalOrderedStream.ScheduleAction` | shed/bounded_traversal/src/ordered_stream.rs:557-568 | Each action of a node keeps the pass invariant and does to stack, visited nodes and budget in flight what the action says |
| `OrderedStream.BoundedTraversalOrderedStream.ReceiveBudget` | shed/bounded_traversal/src/ordered_stream.rs:552-554 | Budget in flight arrives at a node; what the node does not need becomes surplus of its frame and nothing is lost |
| `OrderedStream.BoundedTraversalOrderedStream.Resume` | shed/bounded_traversal/src/ordered_stream.rs:544-550 | A frame that is seen for the first time takes a snapshot of where its node would start and of the budget it has before more arrives; a completed child lowers a pending count of at least one by one; otherwise the schedule stays |
| `OrderedStream.BoundedTraversalOrderedStream.StartUnfold` | shed/bounded_traversal/src/ordered_stream.rs:558-568 | Starts or queues an unfold: never more running than allowed, and queued only when that many run |
| `OrderedStream.BoundedTraversalOrderedStream.YieldNext` | shed/bounded_traversal/src/ordered_stream.rs:615-722 | The item that is yielded is the next one in order; not ready means that the item at the cursor is blocked; the end is reported only with the whole result and nothing outstanding |
| `OrderedStream.BoundedTraversalOrderedStream.YieldFrom` | shed/bounded_traversal/src/ordered_stream.rs:622-720 | One turn of the cursor: it descends, or removes a completed node, or stops at a blocked item, or emits the next value |
| `OrderedStream.BoundedTraversalOrderedStream.CompleteChild` | shed/bounded_traversal/src/ordered_stream.rs:644-656 | A node that is left has no weight; its budget goes to its parent, and output, work and budget are unchanged |
| `OrderedStream.BoundedTraversalOrderedStream.CompleteRoot` | shed/bounded_traversal/src/ordered_stream.rs:644-656 | When the root is left it has no weight, nothing is outstanding and everything was emitted |
| `OrderedStream.BoundedTraversalOrderedStream.EmitOutput` | shed/bounded_traversal/src/ordered_stream.rs:664-718 | The emitted value is the next in order; the node expires budget exactly when the limit falls below it and gives up expired budget and surplus; the stream ends exactly at the limit |
| `OrderedStream.BoundedTraversalOrderedStream.CountDown` | shed/bounded_traversal/src/ordered_stream.rs:670-680 | The limit goes down by one, and one unit of budget expires exactly when the limit is then below the budget |
| `OrderedStream.BoundedTraversalOrderedStream.ReleaseSurplus` | shed/bounded_traversal/src/ordered_stream.rs:693-715 | The new tree is the one in which expired budget is gone and surplus has moved up ancestor by ancestor; what leaves the tree is exactly what leaves the total |
| `OrderedStream.BoundedTraversalOrderedStream.LiftOnce` | shed/bounded_traversal/src/ordered_stream.rs:701-714 | One ancestor lowers the slot of the node below it and takes what it needs of the surplus; funding and accounting are kept |
| `OrderedStream.BoundedTraversalOrderedStream.ExpelExpired` | shed/bounded_traversal/src/ordered_stream.rs:695 | Expired budget that is surplus leaves the node and the total alike, without underflow |
| `OrderedStream.BoundedTraversalOrderedStream.Clear` | shed/bounded_traversal/src/ordered_stream.rs:482-488 | After clearing, nothing is outstanding and no node is left |
| `OrderedStream.BoundedTraversalOrderedStream.ProcessUnfold` | shed/bounded_traversal/src/ordered_stream.rs:726-796 | Inserting an unfold keeps the invariant, whatever the estimate was, changes nothing that remains to be emitted, and uses up work |
| `OrderedStream.BoundedTraversalOrderedStream.UnfoldNode` | shed/bounded_traversal/src/ordered_stream.rs:768-793 | The slot is replaced by a node with no more weight than it had; links, labels, funding and sums are kept |
| `OrderedStream.BoundedTraversalOrderedStream.UnfoldEmpty` | shed/bounded_traversal/src/ordered_stream.rs:763-767 | An unfold into nothing leaves a yielded slot without weight |
| `OrderedStream.BoundedTraversalOrderedStream.GrowTree` | shed/bounded_traversal/src/ordered_stream.rs:752-793 | The weight of the slot is the smaller of the estimate and the real weight, and the new node is linked both ways |
| `OrderedStream.BoundedTraversalOrderedStream.TakeCompleted` | shed/bounded_traversal/src/ordered_stream.rs:844-848 | Any running unfold may complete; a queued one takes its place and no job is lost or doubled |
| `OrderedStream.BoundedTraversalOrderedStream.OutstandingWithinBudget` | shed/bounded_traversal/src/ordered_stream.rs:799-806 | In every resting state the node budgets add up to the total, which bounds the outstanding unfolds and never exceeds the queue bound |
| `OrderedStream.BoundedTraversalOrderedStream.ExpiringLate` | shed/bounded_traversal/src/ordered_stream.rs:670-680 | Budget expires only under a limit, and only when fewer items are to come than the queue bound |
| `OrderedStream.BoundedTraversalOrderedStream.ProgressUnlessStalled` | shed/bounded_traversal/src/ordered_stream.rs:819-851 | When the next item waits and no unfold is outstanding, yield, schedule, yield emits an item, starts an unfold or leaves less to do if and only if the stream is not stalled |
| `OrderedStream.BoundedTraversalOrderedStream.NotStalled` | shed/bounded_traversal/src/ordered_stream.rs:819-851 | As long as no budget has expired, a stream whose next item waits is not stalled |
| `OrderedStream.BoundedTraversalOrderedStream.StalledExpiring` | shed/bounded_traversal/src/ordered_stream.rs:670-715 | A stalled stream has lost budget to a limit, and limit and queue bound are at least two |
| `OrderedStream.BoundedTraversalOrderedStream.CompleteNext` | shed/bounded_traversal/src/ordered_stream.rs:844-848 | A completed unfold turns the tree into exactly the one with its items inserted, and uses up work |
| `OrderedStream.UnfoldChildren` | shed/bounded_traversal/src/ordered_stream.rs:735-750 | Children stand for the unfolded items in order, with weights of at least one, and the weight returned is their sum |
| `OrderedNode.Node.NextAction` | shed/bounded_traversal/src/ordered_stream.rs:288-350 | The next action of a scan: everything passed over gave no reason to act, the action is the right one for the child at which it stops, and no subtraction goes below zero |
| `OrderedNode.Node.YieldNext` | shed/bounded_traversal/src/ordered_stream.rs:217-252 | The first child that is not yielded decides; a value is taken only if there is budget for it, and the weight falls by one |
| `OrderedNode.Node.ChildYielded` | shed/bounded_traversal/src/ordered_stream.rs:257-265 | The weight of a slot is lowered to what the child still needs, and the node stays consistent |
| `OrderedNode.Node.ChildComplete` | shed/bounded_traversal/src/ordered_stream.rs:268-275 | A completed child leaves no weight and returns its budget; the node stays consistent |
| `OrderedNode.Node.TakeExpired` | shed/bounded_traversal/src/ordered_stream.rs:186-192 | Only surplus expires, and after it no expired budget is left beyond what the node needs |
| `OrderedNode.Node.AddBudget` | shed/bounded_traversal/src/ordered_stream.rs:174-178 | A node keeps budget up to its weight; the rest is returned, so that nothing is lost |
| `OrderedNode.Node.TakeSurplus` | shed/bounded_traversal/src/ordered_stream.rs:196-200 | What exceeds the weight is returned and the rest is kept |
| `OrderedNode.OutstandingWithinBudget` | shed/bounded_traversal/src/ordered_stream.rs:304-319 | The unfolds pending in the tree are never more than the budget in it |
| `OrderedCursor.JobsWithinBudget` | shed/bounded_traversal/src/ordered_stream.rs:304-319 | In a consistent state there are never more outstanding unfolds than budget |
| `OrderedTree.PendingWithinBudget` | shed/bounded_traversal/src/ordered_stream.rs:43-66 | A node never has more pending children than budget, and they fit into the weight of its children |
| `OrderedTree.SetLighterChild` | shed/bounded_traversal/src/ordered_stream.rs:257-275 | Replacing a child by a lighter one keeps the weight accounting of a node and the funding of its pending children |
| `OrderedSteps.SkipStep` | shed/bounded_traversal/src/ordered_stream.rs:639-643 | Skipping yielded children leaves the remaining output unchanged |
| `OrderedSteps.EnterStep` | shed/bounded_traversal/src/ordered_stream.rs:640-643 | Descending into a child node leaves the remaining output unchanged |
| `OrderedSteps.OutputStep` | shed/bounded_traversal/src/ordered_stream.rs:664-692 | Emitting the value at the cursor leaves exactly the rest of the in-order list |
| `OrderedSteps.CompleteStep` | shed/bounded_traversal/src/ordered_stream.rs:644-656 | Returning to the parent of a completed node leaves the remaining output unchanged |
| `OrderedSteps.RootComplete` | shed/bounded_traversal/src/ordered_stream.rs:644-656 | At the end of the root nothing remains to be emitted and no job is outstanding |
| `OrderedSteps.ScheduleStep` | shed/bounded_traversal/src/ordered_stream.rs:558-568 | Starting a child adds exactly its job, and keeps jobs and pending children in one-to-one correspondence |
| `OrderedSteps.UnfoldEmptyStep` | shed/bounded_traversal/src/ordered_stream.rs:763-767 | An empty unfold removes its job, keeps the remaining output and uses up work |
| `OrderedSteps.UnfoldNodeStep` | shed/bounded_traversal/src/ordered_stream.rs:768-793 | A new node removes its job, stands for the same output as its slot did, and uses up work |
| `OrderedFunding.NotStarved` | shed/bounded_traversal/src/ordered_stream.rs:819-851 | If the next item is blocked and nothing is outstanding, some node of a funded tree has budget that reaches a child on which a pass acts |
| `OrderedFunding.PassUpFunded` | shed/bounded_traversal/src/ordered_stream.rs:174-178 | Surplus that moves to a parent leaves every subtree funded or done |
| `OrderedFunding.LowerSlotFunded` | shed/bounded_traversal/src/ordered_stream.rs:257-265 | Lowering the slot of a node that holds what it needs leaves every subtree funded |
| `OrderedFunding.MoveFunded` | shed/bounded_traversal/src/ordered_stream.rs:320-336 | Budget that moves into a child leaves every subtree funded |
| `OrderedFunding.AddNodeFunded` | shed/bounded_traversal/src/ordered_stream.rs:785-792 | A new node with weight in its slot is funded |
| `OrderedFunding.RemoveNodeFunded` | shed/bounded_traversal/src/ordered_stream.rs:648-654 | Removing a completed node leaves the others funded |
| `OrderedPass.ScanStep` | shed/bounded_traversal/src/ordered_stream.rs:557-568 | Scanning the last frame keeps what the pass knows of explored nodes |
| `OrderedPass.PushStep` | shed/bounded_traversal/src/ordered_stream.rs:569-585 | Pushing the frame of a child keeps the stack a path in the tree |
| `OrderedPass.PopStep` | shed/bounded_traversal/src/ordered_stream.rs:586-603 | Popping a finished frame keeps what the pass knows of explored nodes |
| `OrderedFlow.FlowEnter` | shed/bounded_traversal/src/ordered_stream.rs:569-585 | Entering a child keeps the account of the pass: the visited nodes have, and what is in flight is, what the description of the whole pass says of this point |
| `OrderedFlow.FlowPop` | shed/bounded_traversal/src/ordered_stream.rs:586-603 | So does leaving a node for its parent, which gets what is over below |
| `OrderedFlow.FlowEnd` | shed/bounded_traversal/src/ordered_stream.rs:495-611 | When the stack is empty the tree is exactly `PassTree` of the tree before, and what is left over is the surplus of the root |
| `OrderedQuiet.QuietIffUnchanged` | shed/bounded_traversal/src/ordered_stream.rs:495-611 | A scheduling pass leaves every child, weight and budget as it is if and only if all nodes are quiet, and then no budget leaves the tree |
| `OrderedQuiet.PassProgress` | shed/bounded_traversal/src/ordered_stream.rs:495-611 | If some node is not quiet, the pass starts an unfold, uses up weight, or collects budget beyond need; it never loses what is pending |
| `OrderedMachine.AdvanceProgress` | shed/bounded_traversal/src/ordered_stream.rs:819-851 | Yield, schedule, yield starts an unfold, uses up weight, removes a node, collects excess budget or finds the next item, unless the situation stands still |
| `OrderedMachine.StandsStillForever` | shed/bounded_traversal/src/ordered_stream.rs:819-851 | A situation that stands still has nothing to yield, and after it is advanced it stands still again with the same children, weights, budgets and location |
| `OrderedMachine.AdvanceServes` | shed/bounded_traversal/src/ordered_stream.rs:822-840 | After yielding, scheduling and yielding again, no input is left to be started that was within reach of the budget of its node before |
| `OrderedMachine.ProgressUnlessQuiet` | shed/bounded_traversal/src/ordered_stream.rs:819-851 | With the next item waiting and no unfold pending, there is progress if and only if some node is not quiet |
| `OrderedScheduling.PassEnter` | shed/bounded_traversal/src/ordered_stream.rs:320-336 | Recursing into a child keeps the pass invariant: budget of nodes, surplus of frames and budget in flight add up to the total |
| `OrderedScheduling.PassSchedule` | shed/bounded_traversal/src/ordered_stream.rs:304-319 | Starting a child keeps the pass invariant |
| `OrderedScheduling.PassReceive` | shed/bounded_traversal/src/ordered_stream.rs:552-554 | The arrival of budget keeps the pass invariant |
| `OrderedScheduling.PassFinish` | shed/bounded_traversal/src/ordered_stream.rs:586-603 | Leaving a node passes its surplus on and keeps the pass invariant |
| `OrderedScheduling.PassEnd` | shed/bounded_traversal/src/ordered_stream.rs:607-608 | At the end of a pass node budgets and what is left over add up to the total, the tree is consistent and funded, and it is the one that `PassTree` describes |
| `OrderedCursor.NotStarvedConsistent` | shed/bounded_traversal/src/ordered_stream.rs:819-851 | In every consistent, funded state with a blocked item and no job, some node is not quiet |
| `OrderedStarvation.StarvingRun` | shed/bounded_traversal/src/ordered_stream.rs:664-718 | For every limit and every queue bound of at least two, if more than one unfold may run: a stream that emits all but two of the items its limit and its values allow, and then polls for ever, for one order in which its three unfolds complete |
| `Dag.BoundedTraversalDAG.constructor` | shed/bounded_traversal/src/dag.rs:158-185 | The traversal starts with one unfold, in a state that satisfies the invariant; only without a limit must the graph below the traversed value be finite |
| `Dag.BoundedTraversalDAG.Poll` | shed/bounded_traversal/src/dag.rs:335-371 | A result is the recursive fold of what was unfolded; without a limit it is the recursive fold of the whole graph, or nothing; both queues are then empty; otherwise the poll waits, and then as many futures run as allowed or none is queued, after turns in each of which futures were started from the front of the queue and one completed |
| `Dag.BoundedTraversalDAG.Run` | shed/bounded_traversal/src/dag.rs:335-371 | Run to its end, in whatever order futures complete, the traversal terminates with that result; under a limit this holds of infinite graphs too |
| `Dag.BoundedTraversalDAG.RunTurn` | shed/bounded_traversal/src/dag.rs:337-370 | A turn in which some running future does complete leaves fewer values to unfold or to fold, or returns the result |
| `Dag.BoundedTraversalDAG.PollTurn` | shed/bounded_traversal/src/dag.rs:337-370 | Each completion uses up a value to unfold or to fold, after futures were started from the front of the queue; new ones are queued in front of the others; the end is reported only in a final state; a turn that waits leaves as many running as allowed or none queued |
| `Dag.BoundedTraversalDAG.EnqueueUnfold` | shed/bounded_traversal/src/dag.rs:187-212 | A value is unfolded when it is seen for the first time, registered as awaited when it is pending, and answered at once when it is done |
| `Dag.BoundedTraversalDAG.EnqueueChild` | shed/bounded_traversal/src/dag.rs:239-254 | A child gets a slot that holds its result or is linked to it, and the graph invariant is kept |
| `Dag.BoundedTraversalDAG.ProcessUnfold` | shed/bounded_traversal/src/dag.rs:221-270 | The value is given all children, or under a limit as many as there is room for, and is blocked or folded; nothing is left half done |
| `Dag.BoundedTraversalDAG.UpdateLocation` | shed/bounded_traversal/src/dag.rs:290-319 | The slot was empty and its node blocked; it gets the result, and the last one starts the fold |
| `Dag.BoundedTraversalDAG.ProcessFold` | shed/bounded_traversal/src/dag.rs:273-288 | The value becomes done and every slot that waits for it gets its result |
| `Dag.BoundedTraversalDAG.FillSlot` | shed/bounded_traversal/src/dag.rs:302-310 | One slot of a blocked node is filled, and one fewer is counted as left |
| `Dag.BoundedTraversalDAG.Fill` | shed/bounded_traversal/src/dag.rs:345-353 | Futures are started from the front of the queue until as many run as allowed, or none waits; none is lost or moved |
| `Dag.BoundedTraversalDAG.Finish` | shed/bounded_traversal/src/dag.rs:358-366 | When the traversed value is folded, both queues are empty as asserted and the result is the recursive fold |
| `Dag.UnlimitedAnswer` | shed/bounded_traversal/src/dag.rs:335-371 | Without a limit the result is the recursive fold of the whole graph, which does not exist exactly when a cycle can be reached; `unfold` was called exactly for the values that can be reached, once each |
| `DagFold.FoldExists` | shed/bounded_traversal/src/dag.rs:41-65 | The recursive fold of a value exists if and only if no cycle can be reached from it |
| `DagFold.FoldEquation` | shed/bounded_traversal/src/dag.rs:41-65 | The recursive fold is `fold` of the context and of the folds of all children, in order and with repetitions |
| `DagFold.RecFoldInPart` | shed/bounded_traversal/src/dag.rs:41-65 | The fold depends only on what can be reached |
| `DagTree.BeginUnfold` | shed/bounded_traversal/src/dag.rs:221 | A completed unfold leaves a state in which its value has no children yet |
| `DagTree.ChildNew` | shed/bounded_traversal/src/dag.rs:190-204 | A value seen for the first time: its unfold is its only work, and one slot waits for it |
| `DagTree.ChildPending` | shed/bounded_traversal/src/dag.rs:205-210 | A value that is pending, possibly the parent itself, gets one more waiting slot |
| `DagTree.ChildDone` | shed/bounded_traversal/src/dag.rs:211 | A value that is done fills the slot at once |
| `DagTree.Block` | shed/bounded_traversal/src/dag.rs:256-267 | A node is blocked exactly with the slots that have no result, and their number |
| `DagTree.StartFold` | shed/bounded_traversal/src/dag.rs:268-270 | A fold starts with the results of all children in order, after all of them were folded |
| `DagTree.BeginFold` | shed/bounded_traversal/src/dag.rs:273-283 | A value whose fold completes was not done before, and becomes done |
| `DagTree.Waiting` | shed/bounded_traversal/src/dag.rs:290-306 | Whoever waits for a finished value is a blocked node with an empty slot: none of the failure exits is reached |
| `DagTree.Deliver` | shed/bounded_traversal/src/dag.rs:300-310 | A result fills the slot it is meant for, and links and slots stay in one-to-one correspondence |
| `DagTree.InitFolded` | shed/bounded_traversal/src/dag.rs:358-366 | When the traversed value is folded nothing else is going on, everything was unfolded, and the result is the recursive fold |
| `DagTree.InitBlocked` | shed/bounded_traversal/src/dag.rs:338-343 | When nothing is going on before that, the traversed value has no recursive fold |
| `DagTree.CallsMade` | shed/bounded_traversal/src/dag.rs:187-219 | At the end `unfold` was called once for each value that can be reached, and `fold` once for each of them that has a fold and for no other |
| `TreeTraversal.BoundedTraversal.constructor` | shed/bounded_traversal/src/tree.rs:109-127 | The traversal starts with the unfold of its root |
| `TreeTraversal.BoundedTraversal.Poll` | shed/bounded_traversal/src/tree.rs:215-245 | The result is the recursive fold; execution tree and queues are empty as asserted; otherwise the poll waits, and then as many futures run as allowed or none is queued, after turns in each of which futures were started from the front of the queue and one completed |
| `TreeTraversal.BoundedTraversal.Run` | shed/bounded_traversal/src/tree.rs:215-245 | Run to its end, in whatever order futures complete, the traversal terminates with the recursive fold |
| `TreeTraversal.BoundedTraversal.PollTurn` | shed/bounded_traversal/src/tree.rs:217-243 | Each completion leaves fewer unfolds and folds to do, after futures were started from the front of the queue; new ones are queued in front of the others; a turn that waits leaves as many running as allowed or none queued |
| `TreeTraversal.BoundedTraversal.ProcessUnfold` | shed/bounded_traversal/src/tree.rs:142-176 | A value becomes a node that waits for its children in order, or is folded at once if it has none |
| `TreeTraversal.BoundedTraversal.ProcessFold` | shed/bounded_traversal/src/tree.rs:178-201 | A result fills an empty slot of a waiting node; the last one removes the node and starts its fold |
| `TreeTraversal.BoundedTraversal.Schedule` | shed/bounded_traversal/src/tree.rs:219-227 | Futures are started from the front of the queue until as many run as allowed, or none waits; something always runs |
| `Jobs.CompletesAfter` | shed/bounded_traversal/src/tree.rs:217-243 | After futures were started from the front of the queue and one of them completed, what runs and what is queued is exactly determined by what ran and was queued before, but for what is new in front |
| `TreeFold.Expand` | shed/bounded_traversal/src/tree.rs:142-171 | Every slot without a result is worked on or owned by exactly one node |
| `TreeFold.Remove` | shed/bounded_traversal/src/tree.rs:184-200 | A node with all results is folded from the recursive folds of its children, in order |
| `TreeFold.RootCompleted` | shed/bounded_traversal/src/tree.rs:233-239 | When the root is folded no node and no future is left |
| `TreeFold.SomethingToDo` | shed/bounded_traversal/src/tree.rs:217-229 | Until the root is folded some future is outstanding |
| `KeyedStream.LimitedByKeyStream.constructor` | shed/bounded_traversal/src/stream.rs:102-105 | The stream starts with all initial items queued |
| `KeyedStream.LimitedByKeyStream.PollNext` | shed/bounded_traversal/src/stream.rs:107-170 | Outputs come one by one as items complete; the end is reported only when every item was unfolded exactly once and no key or shard queue holds anything; a poll waits only when as many items run as allowed or none is to be scheduled, and the queues are then what turns make of them |
| `KeyedStream.LimitedByKeyStream.Collect` | shed/bounded_traversal/src/stream.rs:107-170 | Run to its end, in whatever order items complete, the stream terminates with every item unfolded exactly once |
| `KeyedStream.LimitedByKeyStream.PollTurn` | shed/bounded_traversal/src/stream.rs:108-169 | Every completion uses up an item; the end is reported only in the final state; the queues become exactly what `Turn` says; a turn that waits leaves as many items running as allowed or none to be scheduled |
| `KeyedStream.LimitedByKeyStream.ScheduleItem` | shed/bounded_traversal/src/stream.rs:117-138 | The next item waits behind all others if its key has a queue, or else if its shard counts more than its number, and starts otherwise; in each case something is running that will let it in; it comes to run beside another with its key only if its key was exposed |
| `KeyedStream.LimitedByKeyStream.Schedule` | shed/bounded_traversal/src/stream.rs:113-139 | At most the allowed number of items run; as many as that do, or none is left to schedule; items are taken in order |
| `KeyedStream.LimitedByKeyStream.CompleteItem` | shed/bounded_traversal/src/stream.rs:141-168 | The first item that waits for the key of a completed one runs; the first that waits for its shard is next to be scheduled, but for the children, of which the last comes first; up to then as many items of a shard ran as were counted, and now more do, exactly if one of them is let in by its key |
| `KeyedStream.LimitedByKeyStream.RunTurn` | shed/bounded_traversal/src/stream.rs:107-170 | A turn in which some running item does complete uses up an item, or ends the stream |
| `KeyedStream.LimitedByKeyStream.NeverTogether` | shed/bounded_traversal/src/stream.rs:117-149 | In every state of every run: running items have different keys as long as no item started while its key was exposed; and none can have if no item ever completed for which exactly one other waited, if no three items have the same key, or if only one item may run |
| `KeyedStream.LimitedByKeyStream.ShardLimited` | shed/bounded_traversal/src/stream.rs:125-137 | In every state of every run: no more items of a shard run than one more than the greatest number that comes with one, and as many as were let in by their keys; without those the running ones are exactly those counted; and none is let in if no item of the shard shares its key |
| `KeyedStream.LimitedByKeyStream.FirstComeFirstServed` | shed/bounded_traversal/src/stream.rs:117-160 | In every state of every run: of the items that came to wait for a key, or for a shard, the first ones were let in, and the others still wait in the order in which they came |
| `KeyedQueues.NothingStranded` | shed/bounded_traversal/src/stream.rs:109-111 | When nothing runs and nothing is to be scheduled, no key queue exists, every shard queue is empty, and no item is left |
| `KeyedQueues.WaitForKeyOk` | shed/bounded_traversal/src/stream.rs:118-123 | While items wait for a key, an item with that key is running |
| `KeyedQueues.WaitForShardOk` | shed/bounded_traversal/src/stream.rs:125-130 | While items wait for a shard, another item of the shard does not |
| `KeyedQueues.StartOk` | shed/bounded_traversal/src/stream.rs:131-137 | A shard counts no more items than run in it, and every live item is in exactly one place |
| `KeyedQueues.CompleteOk` | shed/bounded_traversal/src/stream.rs:141-160 | The completion of an item keeps all of that |
| `KeyedQueues.TreesExpanded` | shed/bounded_traversal/src/stream.rs:162-167 | Replacing a completed item by its children accounts for everything below it |
| `KeyedExclusion.StartExclusive` | shed/bounded_traversal/src/stream.rs:118-137 | An item that starts without having waited for its key breaks the exclusion if and only if its key is exposed |
| `KeyedExclusion.CompleteExclusive` | shed/bounded_traversal/src/stream.rs:141-149 | A completion keeps running items exclusive; it exposes their key if and only if exactly one item waited for it, and ends the exposure if none did |
| `KeyedExclusion.OrderlyExclusive` | shed/bounded_traversal/src/stream.rs:117-149 | What is recorded of keys implies the exclusion: no clash, no two running items with the same key; and in an orderly run every running item has a queue for its key |
| `KeyedExclusion.StartExplained` | shed/bounded_traversal/src/stream.rs:117-149 | An item that starts while its key is exposed is the third with that key: one completed, and another runs |
| `KeyedRuns.SameKeyRun` | shed/bounded_traversal/src/stream.rs:117-149 | Whenever more than one item may run, a stream from its creation on, in which two items with the same key run together |
| `KeyedRuns.ShardRun` | shed/bounded_traversal/src/stream.rs:125-160 | Whatever number comes with a shard, and however many items may run, a stream from its creation on, in which all of them are of that shard, with different keys, and one of them is counted |
| `KeyedQueues.LimitedByNumber` | shed/bounded_traversal/src/stream.rs:125-137 | The counter of a shard exceeds the greatest number of an item of it by at most one |
| `KeyedOrder.ScheduleFirstIs` | shed/bounded_traversal/src/stream.rs:117-138 | Where the next item goes, queue by queue |
| `KeyedOrder.CompleteIs` | shed/bounded_traversal/src/stream.rs:141-168 | Who is let in by a completed item, and where the item that its shard lets in and its children are queued |
| `KeyedOrder.ScheduleInTurn` | shed/bounded_traversal/src/stream.rs:117-130 | Items that wait join behind the others |
| `KeyedOrder.CompleteInTurn` | shed/bounded_traversal/src/stream.rs:141-158 | Items are let in from the front |
| `KeyedShards.ScheduleUncounted` | shed/bounded_traversal/src/stream.rs:117-138 | Whether an item starts or waits, as many items of each shard run without being counted as before |
| `KeyedShards.CompleteUncounted` | shed/bounded_traversal/src/stream.rs:141-160 | A completion adds the item that is let in by its key to those that are not counted, and takes the completed one from them if the counter was zero |
| `KeyedShards.UncountedRises` | shed/bounded_traversal/src/stream.rs:141-160 | A completion makes more items of a shard run than are counted if and only if it lets in an item of the shard, unless the completed one was not counted itself |
| `KeyedShards.CompleteAccounted` | shed/bounded_traversal/src/stream.rs:141-160 | Never more items run without being counted than were let in; as long as none was let in, all are counted, and that ends exactly when one is let in |
| `KeyedShards.RunningInShard` | shed/bounded_traversal/src/stream.rs:125-137 | No more items of a shard run than are counted and were let in, and no more are counted than one more than the number |
| `KeyedShards.LetInShares` | shed/bounded_traversal/src/stream.rs:141-149 | An item that is let in has the same key as another one |
| `KeyedRecords.ScheduleRecorded` | shed/bounded_traversal/src/stream.rs:117-138 | Scheduling the next item keeps the whole record, and breaks the exclusion exactly if the item starts and its key is exposed |
| `KeyedRecords.CompleteRecorded` | shed/bounded_traversal/src/stream.rs:141-167 | So does the completion of an item |
| `FacetCycles.CheckNoCycles` | shed/facet/proc_macros/factory_impl.rs:643-679 | A route is reported if and only if the facet depends on itself; it is a genuine way in which it does, and a shortest one |
| `FacetCycles.WalkSeen` | shed/facet/proc_macros/factory_impl.rs:643-667 | The search sees whatever can be reached, by a route that is no longer than any walk |
| `FacetCycles.Discover` | shed/facet/proc_macros/factory_impl.rs:653-661 | A dependency seen for the first time is reached by a genuine route, and routes stay sorted by length |
| `FacetFactory.CheckAll` | shed/facet/proc_macros/factory_impl.rs:79-86 | The check passes for all facets if and only if the dependency graph is acyclic; otherwise the first facet on a cycle is reported |
| `FacetFactory.BuildGraph` | shed/facet/proc_macros/factory_impl.rs:249-284 | The graph is the dependency graph of the methods that count and the heads are the facets that no method at all depends on, or the first parameter is reported that is no facet; any list of methods is accepted |
| `FacetDepths.FindDepths` | shed/facet/proc_macros/factory_impl.rs:355-367 | The search without a record of visits terminates on an acyclic graph and leaves each facet with the length of a longest path from a head |
| `FacetDepths.Visit` | shed/facet/proc_macros/factory_impl.rs:358-364 | Depths are taken from the queue in nondecreasing order, so that the last one written for a facet is the greatest |
| `FacetDepths.CountLevel` | shed/facet/proc_macros/factory_impl.rs:358-364 | On an acyclic graph, visiting a facet uses up one path |
| `FacetFactory.BuildLevels` | shed/facet/proc_macros/factory_impl.rs:365-368 | Every depth is within the levels, and each facet is in the level of its depth once |
| `FacetFactory.BuildOrder` | shed/facet/proc_macros/factory_impl.rs:370-374 | The reversed levels contain each facet once, deepest first, and every future is there when it is taken |
| `FacetFactory.BelowHead` | shed/facet/proc_macros/factory_impl.rs:249-280 | If whatever no facet depends on is a head, every facet of an acyclic graph is below some head |
| `FacetFactory.DeeperDependency` | shed/facet/proc_macros/factory_impl.rs:358-364 | A dependency is deeper than what depends on it |
| `FacetFactory.DeepestFirst` | shed/facet/proc_macros/factory_impl.rs:370-374 | Building deepest first builds every facet after all its dependencies |
| `FacetFactory.AllBuilt` | shed/facet/proc_macros/factory_impl.rs:249-284 | Everything is built if and only if the methods that count have all facets as parameters that any method has |
| `FacetFactory.FirstUsesMore` | shed/facet/proc_macros/factory_impl.rs:249-284 | Two methods with the same name for which a facet is not built |
| `FacetFactory.GenAsyncFactoryBuilder` | shed/facet/proc_macros/factory_impl.rs:229-374 | For any list of methods: a cyclic dependency is reported if and only if there is one, of the first facet that has one, with a shortest cycle; else the first parameter that is no facet, if and only if there is one; else the order has every facet after its dependencies and at most once, and all facets exactly when the methods that count ask for everything that any method asks for, as they do when no name is repeated |
| `BufferedWeighted.BufferedWeighted.PollNext` | shed/buffered_weighted/src/buffered_weighted_stream.rs:121-163 | Outputs are returned in source order, each once; the end is reported only when everything was returned and nothing is buffered or looked at; otherwise something is in progress or the source is not ready; in each case all that could be were started before, and nothing else |
| `BufferedWeighted.BufferedWeighted.Collect` | shed/buffered_weighted/src/buffered_weighted_stream.rs:121-163 | If what a poll waits for comes, the buffer returns all outputs, in source order, and ends |
| `BufferedWeighted.BufferedWeighted.RunTurn` | shed/buffered_weighted/src/buffered_weighted_stream.rs:121-163 | A poll after which what it waits for comes returns an output, ends with everything returned, or has taken something from the source |
| `BufferedWeighted.BufferedWeighted.Fill` | shed/buffered_weighted/src/buffered_weighted_stream.rs:126-147 | The weight in use is the sum of the capped weights and never exceeds the maximum; items are started in order, each with room and with the consent of memory unless nothing was in progress; filling stops exactly when the source was polled and was not ready or has ended, or the next item has no room, or memory is short while something is in progress |
| `BufferedWeighted.BufferedWeighted.MustWait` | shed/buffered_weighted/src/buffered_weighted_stream.rs:127-136 | An item waits if and only if it has no room, or memory, which is asked for it, is short while something is in progress |
| `BufferedWeighted.MemoryBound.WithinBound` | shed/buffered_weighted/src/memory_bound.rs:36-57 | Without a bound memory is never short |
| `BufferedWeighted.BufferedWeighted.StartNext` | shed/buffered_weighted/src/buffered_weighted_stream.rs:139-146 | The item that was looked at is the one that is taken; the checked addition cannot overflow |
| `BufferedWeighted.BufferedWeighted.TakeFirst` | shed/buffered_weighted/src/buffered_weighted_stream.rs:150-155 | The first output is returned, and the checked subtraction cannot underflow |
| `BufferedWeighted.BufferedWeighted.constructor` | shed/buffered_weighted/src/buffered_weighted_stream.rs:62-69 | The buffer starts empty, with everything still to come |
| `BufferedWeighted.PeekableFused.PollPeek` | shed/buffered_weighted/src/peekable_fused.rs:98-110 | Looking ahead loses and reorders nothing; after the end nothing is kept |
| `BufferedWeighted.PeekableFused.PollNext` | shed/buffered_weighted/src/peekable_fused.rs:116-122 | The item that was looked at is taken first; nothing is lost |
| `BufferedWeighted.PeekableFused.IsTerminated` | shed/buffered_weighted/src/peekable_fused.rs:136-140 | A terminated stream has no items left, taken or not |
| `BufferedWeighted.GlobalWeight.HasSpaceFor` | shed/buffered_weighted/src/global_weight.rs:38-41 | There is space exactly if the capped weight fits below the maximum |
| `BufferedWeighted.GlobalWeight.AddWeight` | shed/buffered_weighted/src/global_weight.rs:44-52 | The capped weight is added; overflow is excluded by the caller |
| `BufferedWeighted.GlobalWeight.SubWeight` | shed/buffered_weighted/src/global_weight.rs:55-63 | The capped weight is subtracted; underflow is excluded by the caller |
| `NetstringCodec.DecodeChunks` | shed/netstring/src/decode.rs:140-178 | However a stream is cut into chunks, decoding as they arrive yields what a parse of the whole yields; if it is what was encoded, exactly the messages sent and nothing left |
| `NetstringCodec.DecodeAll` | shed/netstring/src/decode.rs:140-178 | Decoding until more is needed gives the messages, the rest and the failure of a parse of the buffer |
| `NetstringCodec.NetstringDecoder.Decode` | shed/netstring/src/decode.rs:140-178 | A message is returned and removed exactly when the buffer begins with digits, the byte 58, as many bytes as the digits stand for in a machine word, and the byte 44; decoding fails exactly when another byte is where the length should go on, or behind the message; an incomplete one changes neither buffer nor decoder; an error is final; between calls the decoder expects a new message or has failed |
| `NetstringCodec.NetstringDecoder.DecodeBuf` | shed/netstring/src/decode.rs:64-130 | From any state, the parser consumes, returns and remembers exactly what a one-shot parse says |
| `NetstringCodec.NetstringDecoder.ScanNum` | shed/netstring/src/decode.rs:76-101 | The digits up to the first other byte are read, wrapping like a machine word; only a colon ends a length |
| `NetstringCodec.Encode` | shed/netstring/src/encode.rs:48-58 | What is appended is decimal digits that stand for the length, without superfluous zeros, the byte 58, the message, and the byte 44 |
| `NetstringCodec.EncodeAll` | shed/netstring/src/encode.rs:48-58 | Messages are encoded one after the other |
| `NetstringWire.EncodedOnWire` | shed/netstring/src/encode.rs:48-58 | The bytes of an encoded message, written out |
| `NetstringWire.ParsedOnWire` | shed/netstring/src/decode.rs:64-130 | Which bytes are parsed as a message, and which make the parser fail, written out |
| `NetstringCodec.BytesMut.SplitTo` | shed/netstring/src/decode.rs:158-166 | The front is split off and the rest stays |
| `Netstring.DecimalValue` | shed/netstring/src/encode.rs:54 | Reading the decimal digits of a length that fits a machine word gives the length |
| `Netstring.ParseEncoded` | shed/netstring/src/decode.rs:64-130 | Decoding an encoded message gives the message and what follows it |
| `Netstring.ParseAllEncoded` | shed/netstring/src/decode.rs:140-178 | Decoding encoded messages gives all of them and leaves nothing |
| `Netstring.ParseResumed` | shed/netstring/src/decode.rs:59-63 | A parser that stopped goes on as if all input had been there from the start |
| `Netstring.ParseExtended` | shed/netstring/src/decode.rs:140-178 | More input changes neither a complete message nor an error |
| `Netstring.ParseAllExtended` | shed/netstring/src/decode.rs:140-178 | Parsing what there is, and later the rest, is parsing everything |
| `Netstring.EncodedIffCanonical` | shed/netstring/src/decode.rs:76-101 | A decoded message re-encodes to its input if and only if its length was written with digits, without superfluous zeros, and fits a machine word |

## Left out

- PollNext: of the ordered stream, reports with `Diverges` that it would go round its loop for ever, where the original does go round; that it would is `StandsStillForever`.
- UnfoldChildren: adds up weights as natural numbers; overflow of a machine word by the sum of estimates is not modelled.
- ScanNum: wraps around as release builds do; builds with overflow checks panic instead.
- AddWeight: states the panic on overflow as a precondition, which the buffer is proved to meet; likewise SubWeight.
- ScheduleItem: keeps the shard counter as the code does; the running items of a shard are bounded by what `ShardLimited` says and not by its number (`ShardRun`).
- Item: has one key and one shard. That the future of an item reports the same key and shard as `key_fn` gives for the item is assumed; the original would release what the future reports.
- StarvingRun: has at least two unfolds run together. Whether a stream can stall that runs one unfold at a time is not shown; that it does not if its limit or queue bound is one holds of all streams.
- BoundedTraversalDAG.constructor: takes, if there is no limit, a finite set that contains everything below the traversed value; over an infinite graph the original does not terminate then. Trees that are unfolded are finite values for the same reason.
- Errors returned by `unfold` and `fold`: the graph and tree traversals end with them. The two streams return such an error as an item and keep their state, so that they can be polled again; the model has neither.
- Wakers, pinning, boxing and the executor: completion of futures is an arbitrary choice.
- The schedule and the stack frames of a scheduling pass are values that are replaced, not records that are updated in place; the same holds for the nodes of the graph and tree traversals.
- Helper methods such as `VisitFrame`, `LiftOnce` or `EndUnfold` are parts of loops or branches that the original writes in one function.
- `bounded_traversal_stream` is the keyed stream without keys and shards, and would only add easier members.
- Memory use in the buffer: whether memory is short is arbitrary each time it is asked, if there is a bound. `size_hint` and access to the inner stream are not modelled.
- Token generation and parsing in the facet macros, and the synchronous factory builder: only the dependency graph is modelled.
- Capacity and reservation of byte buffers.
- The other crates of the repository (caches of futures, thrift adapters, configuration, SQL, TLS, process handling and logging).
