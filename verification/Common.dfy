/** Shared vocabulary: optional values, locations in an execution tree, and sums over finite maps. */
module Common {
  datatype Option<+T> = None | Some(value: T)

  /** A child slot: the node that owns it and the position among that node's children. */
  datatype NodeLocation<+I> = NodeLocation(nodeIndex: I, childIndex: nat)

  /** The number of values of a machine word. */
  const USIZE: nat := 0x1_0000_0000_0000_0000

  function Min(a: nat, b: nat): nat {
    if a <= b then a else b
  }

  function SaturatingSub(a: nat, b: nat): nat {
    if a <= b then 0 else a - b
  }

  lemma ConcatFirst<T>(a: seq<T>, b: seq<T>)
    requires a != []
    ensures a == [a[0]] + a[1..] && a + b == [a[0]] + (a[1..] + b)
  {
  }

  /** The large invariants, and parts of them. */
  datatype Part =
    | TreeShape | Funds | Settling | Stream
    | PassShape | PassStack | PassVisits | PassFlow | PassBudget | NodeScan | NodeAction | Machine
    | GraphTree | FoldTree | KeyedQueue | KeyedWatch | ShardCounters | ShardAccount | KeyedRecord
    | KeyedTurns | QueueOrder | CycleSearch | DepthSearch

  /** Always true.  Large invariants are quantified over a `part` with `Look(part)`, so that a proof that only
      passes them on does not have to look inside; one that does mentions the name of the part. */
  ghost predicate Look(part: Part) {
    true
  }

  /** The value of `m` at `i`, or zero when `i` is not a key. */
  ghost function At(m: map<nat, nat>, i: nat): nat {
    if i in m then m[i] else 0
  }

  /** The sum of the values that `m` gives to the keys below `n`. */
  ghost function Sum(m: map<nat, nat>, n: nat): nat {
    if n == 0 then 0 else Sum(m, n - 1) + At(m, n - 1)
  }

  lemma {:induction false} SumSame(m: map<nat, nat>, m': map<nat, nat>, n: nat)
    requires forall j :: 0 <= j < n ==> At(m, j) == At(m', j)
    ensures Sum(m, n) == Sum(m', n)
  {
    if n > 0 {
      SumSame(m, m', n - 1);
    }
  }

  lemma {:induction false} SumChange(m: map<nat, nat>, m': map<nat, nat>, i: nat, n: nat)
    requires i < n
    requires forall j :: 0 <= j < n && j != i ==> At(m, j) == At(m', j)
    ensures Sum(m', n) + At(m, i) == Sum(m, n) + At(m', i)
  {
    if i == n - 1 {
      SumSame(m, m', i);
    } else {
      SumChange(m, m', i, n - 1);
    }
  }

  lemma {:induction false} SumAtLeast(m: map<nat, nat>, i: nat, n: nat)
    requires i < n
    ensures At(m, i) <= Sum(m, n)
  {
    if i < n - 1 {
      SumAtLeast(m, i, n - 1);
    }
  }

  lemma {:induction false} SumMonotone(m: map<nat, nat>, m': map<nat, nat>, n: nat)
    requires forall j :: 0 <= j < n ==> At(m, j) <= At(m', j)
    ensures Sum(m, n) <= Sum(m', n)
  {
    if n > 0 {
      SumMonotone(m, m', n - 1);
    }
  }

  lemma {:induction false} SumStrict(m: map<nat, nat>, m': map<nat, nat>, i: nat, n: nat)
    requires i < n && At(m, i) < At(m', i)
    requires forall j :: 0 <= j < n ==> At(m, j) <= At(m', j)
    ensures Sum(m, n) < Sum(m', n)
  {
    if i == n - 1 {
      SumMonotone(m, m', n - 1);
    } else {
      SumStrict(m, m', i, n - 1);
    }
  }
}
