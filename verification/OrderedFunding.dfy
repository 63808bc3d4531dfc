/** Where the budget is: every subtree that still has something to emit either waits for budget from
    its parent or already holds budget at or before the first thing it has to emit. */
module OrderedFunding {
  import opened Common
  import opened OrderedTree
  import opened OrderedSteps

  /** Nothing will ever be emitted from this child. */
  ghost predicate Gone(t: Tree, dead: set<nat>, i: nat, c: nat)
    requires i in t && c < |t[i].children|
  {
    t[i].children[c].Yielded? || (t[i].children[c].Node? && t[i].children[c].nodeIndex in dead)
  }

  ghost predicate DeadOk(t: Tree, dead: set<nat>, k: nat) {
    k in t && forall c :: 0 <= c < |t[k].children| ==> Gone(t, dead, k, c)
  }

  /** The first child of `k` that is not gone, or one before it, holds budget. */
  ghost predicate Via(t: Tree, avail: set<nat>, dead: set<nat>, k: nat, c: nat) {
    && k in t && c < |t[k].children|
    && t[k].children[c].Node? && t[k].children[c].nodeIndex in avail
    && forall d :: 0 <= d < c ==> Gone(t, dead, k, d)
  }

  ghost predicate AvailOk(t: Tree, avail: set<nat>, dead: set<nat>, k: nat) {
    k in t && (t[k].budget >= 1 || exists c :: Via(t, avail, dead, k, c))
  }

  /** The weight that the parent of `k` still has to move into `k`. */
  ghost function SlotWeight(t: Tree, k: nat): nat {
    if k in t && t[k].parent.Some? && HasChild(t, t[k].parent.value) then ChildAt(t, t[k].parent.value).Weight() else 0
  }

  ghost predicate NodeFunded(t: Tree, avail: set<nat>, dead: set<nat>, k: nat) {
    k in dead || k in avail || SlotWeight(t, k) >= 1
  }

  /** Nodes in `avail` hold budget at or before the first thing they have to emit; nodes in `dead` have
      nothing to emit; every other node can count on its parent, and the root is never unfunded. */
  ghost predicate Funded(t: Tree, avail: set<nat>, dead: set<nat>) {
    && (forall k {:trigger DeadOk(t, dead, k)} :: k in dead ==> DeadOk(t, dead, k))
    && (forall k {:trigger AvailOk(t, avail, dead, k)} :: k in avail ==> AvailOk(t, avail, dead, k))
    && (forall k {:trigger NodeFunded(t, avail, dead, k)} :: k in t ==> NodeFunded(t, avail, dead, k))
  }

  ghost predicate ChildNoWorse(a: Child, b: Child) {
    && (a.Yielded? ==> b.Yielded?)
    && (a.Node? ==> b.Node? && b.nodeIndex == a.nodeIndex && (a.weight >= 1 ==> b.weight >= 1))
  }

  /** No node loses its last unit of budget or of slot weight, and no child that is gone comes back. */
  ghost predicate NoWorse(t: Tree, t': Tree) {
    && t'.Keys == t.Keys
    && (forall i :: i in t ==> t'[i].parent == t[i].parent && |t'[i].children| == |t[i].children|)
    && (forall i :: i in t ==> (t[i].budget >= 1 ==> t'[i].budget >= 1))
    && (forall i, c :: i in t && 0 <= c < |t[i].children| ==> ChildNoWorse(t[i].children[c], t'[i].children[c]))
  }

  lemma NoWorseVia(t: Tree, t': Tree, avail: set<nat>, dead: set<nat>, k: nat, c: nat)
    requires NoWorse(t, t') && Via(t, avail, dead, k, c)
    ensures Via(t', avail, dead, k, c)
  {
    assert ChildNoWorse(t[k].children[c], t'[k].children[c]);
    forall d | 0 <= d < c ensures Gone(t', dead, k, d) {
      assert Gone(t, dead, k, d);
      assert ChildNoWorse(t[k].children[d], t'[k].children[d]);
    }
  }

  lemma NoWorseFunded(t: Tree, t': Tree, top: nat, avail: set<nat>, dead: set<nat>)
    requires Linked(t, top) && NoWorse(t, t') && Funded(t, avail, dead)
    ensures Funded(t', avail, dead)
  {
    forall k | k in dead ensures DeadOk(t', dead, k) {
      assert DeadOk(t, dead, k);
      forall c | 0 <= c < |t'[k].children| ensures Gone(t', dead, k, c) {
        assert Gone(t, dead, k, c);
        assert ChildNoWorse(t[k].children[c], t'[k].children[c]);
      }
    }
    forall k | k in avail ensures AvailOk(t', avail, dead, k) {
      assert AvailOk(t, avail, dead, k);
      if t[k].budget == 0 {
        var c: nat :| Via(t, avail, dead, k, c);
        NoWorseVia(t, t', avail, dead, k, c);
      }
    }
    forall k | k in t' ensures NodeFunded(t', avail, dead, k) {
      assert NodeFunded(t, avail, dead, k);
      if k != 0 {
        assert ParentLinked(t, k);
        var p := t[k].parent.value;
        assert ChildNoWorse(ChildAt(t, p), ChildAt(t', p));
      }
    }
  }

  /** A node whose children all weigh nothing either has nothing to emit, or holds budget in the first
      child that has. */
  lemma WeightlessNode(t: Tree, top: nat, avail: set<nat>, dead: set<nat>, k: nat)
    requires Linked(t, top) && Funded(t, avail, dead)
    requires k in t && LocalOk(t[k]) && t[k].remainingWeight == 0
    ensures DeadOk(t, dead, k) || exists c :: Via(t, avail, dead, k, c)
  {
    if !DeadOk(t, dead, k) {
      var c := FirstNotGone(t, dead, k, |t[k].children|);
      WeightFits(t[k].children, c);
      assert ChildLinked(t, k, c);
      var m := t[k].children[c].nodeIndex;
      assert NodeFunded(t, avail, dead, m);
      assert Via(t, avail, dead, k, c);
    }
  }

  lemma {:induction false} FirstNotGone(t: Tree, dead: set<nat>, k: nat, n: nat) returns (c: nat)
    requires k in t && n <= |t[k].children|
    requires exists d :: 0 <= d < n && !Gone(t, dead, k, d)
    ensures c < n && !Gone(t, dead, k, c)
    ensures forall d :: 0 <= d < c ==> Gone(t, dead, k, d)
  {
    c := 0;
    while Gone(t, dead, k, c)
      invariant c < n
      invariant forall d :: 0 <= d < c ==> Gone(t, dead, k, d)
      decreases n - c
    {
      c := c + 1;
    }
  }

  /** Marking more nodes as dead or available keeps the witnesses of the others. */
  lemma MoreMarks(t: Tree, avail: set<nat>, dead: set<nat>, avail': set<nat>, dead': set<nat>, k: nat)
    requires avail <= avail' && dead <= dead'
    ensures DeadOk(t, dead, k) ==> DeadOk(t, dead', k)
    ensures AvailOk(t, avail, dead, k) ==> AvailOk(t, avail', dead', k)
  {
    if DeadOk(t, dead, k) {
      forall c | 0 <= c < |t[k].children| ensures Gone(t, dead', k, c) {
        assert Gone(t, dead, k, c);
      }
    }
    if AvailOk(t, avail, dead, k) && t[k].budget == 0 {
      var c: nat :| Via(t, avail, dead, k, c);
      forall d | 0 <= d < c ensures Gone(t, dead', k, d) {
        assert Gone(t, dead, k, d);
      }
      assert Via(t, avail', dead', k, c);
    }
  }

  // ---------------------------------------------------------------- passing surplus up

  /** `k` keeps no more budget than it needs; the surplus goes to its parent, or out of the tree from
      the root. */
  ghost predicate PassedUp(t: Tree, t': Tree, k: nat) {
    && k in t && t'.Keys == t.Keys
    && t'[k] == t[k].(budget := Min(t[k].budget, t[k].remainingWeight))
    && (t[k].parent.Some? ==>
         && t[k].parent.value.nodeIndex in t && t[k].parent.value.nodeIndex != k
         && var p := t[k].parent.value.nodeIndex;
           t'[p] == t[p].(budget := t[p].budget + SaturatingSub(t[k].budget, t[k].remainingWeight)))
    && (forall j :: j in t && j != k && (t[k].parent.Some? ==> j != t[k].parent.value.nodeIndex) ==> t'[j] == t[j])
  }

  lemma PassUpFunded(t: Tree, t': Tree, top: nat, avail: set<nat>, dead: set<nat>, k: nat)
    returns (avail': set<nat>, dead': set<nat>)
    requires Linked(t, top) && Funded(t, avail, dead)
    requires PassedUp(t, t', k) && LocalOk(t[k])
    ensures Funded(t', avail', dead')
    ensures t[k].budget >= t[k].remainingWeight ==> k in avail' || k in dead'
  {
    if t[k].remainingWeight >= 1 || t[k].budget == 0 {
      NoWorseFunded(t, t', top, avail, dead);
      avail', dead' := avail, dead;
      if t[k].remainingWeight >= 1 {
        if t[k].budget >= 1 {
          avail' := avail + {k};
          MarkAvail(t', avail, dead, k);
        }
      } else {
        SameShapeLinked(t, t', top);
        avail', dead' := SettleWeightless(t', top, avail, dead, k);
      }
    } else {
      WeightlessNode(t, top, avail, dead, k);
      if c: nat :| Via(t, avail, dead, k, c) {
        avail', dead' := avail + {k}, dead;
        PassUpVia(t, t', top, avail, dead, k, c);
      } else {
        avail', dead' := avail - {k}, dead + {k};
        PassUpDead(t, t', top, avail, dead, k);
      }
    }
  }

  lemma SameShapeLinked(t: Tree, t': Tree, top: nat)
    requires Linked(t, top) && SameShape(t, t')
    ensures Linked(t', top)
  {
    forall i | i in t' && i != 0 ensures ParentLinked(t', i) {
      assert ParentLinked(t, i);
      var p := t[i].parent.value;
      assert SameKind(ChildAt(t, p), ChildAt(t', p));
    }
    forall i, c | i in t' && 0 <= c < |t'[i].children| && t'[i].children[c].Node? ensures ChildLinked(t', i, c) {
      assert SameKind(t[i].children[c], t'[i].children[c]);
      assert ChildLinked(t, i, c);
    }
  }

  lemma MarkAvail(t: Tree, avail: set<nat>, dead: set<nat>, k: nat)
    requires Funded(t, avail, dead) && AvailOk(t, avail + {k}, dead, k)
    ensures Funded(t, avail + {k}, dead)
  {
    forall j | j in avail + {k} ensures AvailOk(t, avail + {k}, dead, j) {
      if j != k {
        assert AvailOk(t, avail, dead, j);
        MoreMarks(t, avail, dead, avail + {k}, dead, j);
      }
    }
    forall j | j in t ensures NodeFunded(t, avail + {k}, dead, j) {
      assert NodeFunded(t, avail, dead, j);
    }
  }

  lemma MarkDead(t: Tree, avail: set<nat>, dead: set<nat>, k: nat)
    requires Funded(t, avail, dead) && DeadOk(t, dead, k)
    ensures Funded(t, avail, dead + {k})
  {
    forall j | j in dead + {k} ensures DeadOk(t, dead + {k}, j) {
      assert DeadOk(t, dead, j);
      MoreMarks(t, avail, dead, avail, dead + {k}, j);
    }
    forall j | j in avail ensures AvailOk(t, avail, dead + {k}, j) {
      assert AvailOk(t, avail, dead, j);
      MoreMarks(t, avail, dead, avail, dead + {k}, j);
    }
    forall j | j in t ensures NodeFunded(t, avail, dead + {k}, j) {
      assert NodeFunded(t, avail, dead, j);
    }
  }

  /** A weightless node can be marked as dead or as holding budget. */
  lemma SettleWeightless(t: Tree, top: nat, avail: set<nat>, dead: set<nat>, k: nat)
    returns (avail': set<nat>, dead': set<nat>)
    requires Linked(t, top) && Funded(t, avail, dead)
    requires k in t && LocalOk(t[k]) && t[k].remainingWeight == 0
    ensures Funded(t, avail', dead')
    ensures k in avail' || k in dead'
  {
    WeightlessNode(t, top, avail, dead, k);
    if c: nat :| Via(t, avail, dead, k, c) {
      assert Via(t, avail + {k}, dead, k, c);
      MarkAvail(t, avail, dead, k);
      avail', dead' := avail + {k}, dead;
    } else {
      MarkDead(t, avail, dead, k);
      avail', dead' := avail, dead + {k};
    }
  }

  lemma PassUpVia(t: Tree, t': Tree, top: nat, avail: set<nat>, dead: set<nat>, k: nat, c: nat)
    requires Linked(t, top) && Funded(t, avail, dead)
    requires PassedUp(t, t', k) && Via(t, avail, dead, k, c)
    ensures Funded(t', avail + {k}, dead)
  {
    // First mark `k`, which no longer needs its own budget, then take the budget away.
    forall j | j in dead ensures DeadOk(t', dead, j) {
      assert DeadOk(t, dead, j);
      forall d | 0 <= d < |t'[j].children| ensures Gone(t', dead, j, d) {
        assert Gone(t, dead, j, d);
      }
    }
    forall j | j in avail + {k} ensures AvailOk(t', avail + {k}, dead, j) {
      if j == k {
        BudgetKeepsVia(t, t', avail, avail + {k}, dead, k, c);
      } else {
        assert AvailOk(t, avail, dead, j);
        if t[j].budget == 0 {
          var d: nat :| Via(t, avail, dead, j, d);
          BudgetKeepsVia(t, t', avail, avail + {k}, dead, j, d);
        }
      }
    }
    forall j | j in t' ensures NodeFunded(t', avail + {k}, dead, j) {
      assert NodeFunded(t, avail, dead, j);
      BudgetKeepsSlot(t, t', top, j);
    }
  }

  lemma BudgetKeepsVia(t: Tree, t': Tree, avail: set<nat>, avail': set<nat>, dead: set<nat>, k: nat, c: nat)
    requires Via(t, avail, dead, k, c) && avail <= avail'
    requires k in t' && t'[k].children == t[k].children
    ensures Via(t', avail', dead, k, c)
  {
    forall d | 0 <= d < c ensures Gone(t', dead, k, d) {
      assert Gone(t, dead, k, d);
    }
  }

  lemma BudgetKeepsSlot(t: Tree, t': Tree, top: nat, k: nat)
    requires Linked(t, top) && k in t && t'.Keys == t.Keys
    requires forall j :: j in t ==> t'[j].children == t[j].children && t'[j].parent == t[j].parent
    ensures SlotWeight(t', k) == SlotWeight(t, k)
  {
  }

  lemma PassUpDead(t: Tree, t': Tree, top: nat, avail: set<nat>, dead: set<nat>, k: nat)
    requires Linked(t, top) && Funded(t, avail, dead)
    requires PassedUp(t, t', k) && t[k].budget >= 1 && t[k].remainingWeight == 0
    requires DeadOk(t, dead, k)
    ensures Funded(t', avail - {k}, dead + {k})
  {
    var avail', dead' := avail - {k}, dead + {k};
    forall j | j in dead' ensures DeadOk(t', dead', j) {
      assert DeadOk(t, dead, j);
      forall d | 0 <= d < |t'[j].children| ensures Gone(t', dead', j, d) {
        assert Gone(t, dead, j, d);
      }
    }
    forall j | j in avail' ensures AvailOk(t', avail', dead', j) {
      assert AvailOk(t, avail, dead, j);
      if t[j].budget == 0 {
        var d: nat :| Via(t, avail, dead, j, d);
        if t[j].children[d].nodeIndex == k {
          // `j` is the parent of `k` and has just received its budget.
          assert ChildLinked(t, j, d);
        } else {
          forall e | 0 <= e < d ensures Gone(t', dead', j, e) {
            assert Gone(t, dead, j, e);
          }
          assert Via(t', avail', dead', j, d);
        }
      }
    }
    forall j | j in t' ensures NodeFunded(t', avail', dead', j) {
      assert NodeFunded(t, avail, dead, j);
      BudgetKeepsSlot(t, t', top, j);
    }
  }

  // ---------------------------------------------------------------- slot weights

  /** The weight of child node `c` of `p` is lowered to `w`. */
  ghost predicate SlotLowered(t: Tree, t': Tree, p: nat, c: nat, w: nat) {
    && HasChild(t, NodeLocation(p, c)) && t[p].children[c].Node?
    && t' == t[p := SetChild(t[p], c, Node(w, t[p].children[c].nodeIndex))]
  }

  /** The slot of a node that is settled, or that is left some weight, may be lowered. */
  lemma LowerSlotFunded(t: Tree, t': Tree, top: nat, avail: set<nat>, dead: set<nat>, p: nat, c: nat, w: nat)
    requires Linked(t, top) && Funded(t, avail, dead)
    requires SlotLowered(t, t', p, c, w)
    requires w >= 1 || t[p].children[c].nodeIndex in avail || t[p].children[c].nodeIndex in dead
    ensures Funded(t', avail, dead)
  {
    var k := t[p].children[c].nodeIndex;
    assert ChildLinked(t, p, c);
    forall j | j in dead ensures DeadOk(t', dead, j) {
      assert DeadOk(t, dead, j);
      forall d | 0 <= d < |t'[j].children| ensures Gone(t', dead, j, d) {
        assert Gone(t, dead, j, d);
      }
    }
    forall j | j in avail ensures AvailOk(t', avail, dead, j) {
      assert AvailOk(t, avail, dead, j);
      if t[j].budget == 0 {
        var d: nat :| Via(t, avail, dead, j, d);
        forall e | 0 <= e < d ensures Gone(t', dead, j, e) {
          assert Gone(t, dead, j, e);
        }
        assert Via(t', avail, dead, j, d);
      }
    }
    forall j | j in t' ensures NodeFunded(t', avail, dead, j) {
      assert NodeFunded(t, avail, dead, j);
      if j != 0 {
        assert ParentLinked(t, j);
      }
    }
  }

  /** `b` units of budget move from node `p` into its child node `c`, out of the weight of its slot. */
  ghost predicate Moved(t: Tree, t': Tree, p: nat, c: nat, b: nat) {
    && HasChild(t, NodeLocation(p, c)) && t[p].children[c].Node?
    && var k := t[p].children[c].nodeIndex;
      && k in t && k != p
      && b <= t[p].budget && b <= t[p].children[c].weight
      && t' == t[p := SetChild(t[p], c, Node(t[p].children[c].weight - b, k)).(budget := t[p].budget - b)]
                [k := t[k].(budget := t[k].budget + b)]
  }

  /** Some budget is left after `b` was moved into child `c`, or no child before `c` waits for any. */
  ghost predicate MoveAllowed(n: NodeState, c: nat, b: nat)
    requires c < |n.children|
  {
    n.budget > b || forall d :: 0 <= d < c ==>
      n.children[d].Yielded? || (n.children[d].Node? && n.children[d].weight == 0)
  }

  /** Budget may move into a child node if some is left, or if no child before it that still has
      something to emit is waiting for it. */
  lemma MoveFunded(t: Tree, t': Tree, top: nat, avail: set<nat>, dead: set<nat>, p: nat, c: nat, b: nat)
    requires Linked(t, top) && Funded(t, avail, dead)
    requires Moved(t, t', p, c, b) && b >= 1
    requires MoveAllowed(t[p], c, b)
    ensures Funded(t', avail + {t[p].children[c].nodeIndex}, dead)
  {
    var k := t[p].children[c].nodeIndex;
    assert ChildLinked(t, p, c);
    var avail' := avail + {k};
    forall j | j in dead ensures DeadOk(t', dead, j) {
      assert DeadOk(t, dead, j);
      forall d | 0 <= d < |t'[j].children| ensures Gone(t', dead, j, d) {
        assert Gone(t, dead, j, d);
      }
    }
    forall j | j in avail' ensures AvailOk(t', avail', dead, j) {
      if j == p {
        MoveSource(t, t', top, avail, dead, p, c, b);
      } else if j != k {
        assert AvailOk(t, avail, dead, j);
        if t[j].budget == 0 {
          var d: nat :| Via(t, avail, dead, j, d);
          BudgetKeepsVia(t, t', avail, avail', dead, j, d);
        }
      }
    }
    forall j | j in t' ensures NodeFunded(t', avail', dead, j) {
      assert NodeFunded(t, avail, dead, j);
      if j != 0 {
        assert ParentLinked(t, j);
      }
    }
  }

  lemma MoveSource(t: Tree, t': Tree, top: nat, avail: set<nat>, dead: set<nat>, p: nat, c: nat, b: nat)
    requires Linked(t, top) && Funded(t, avail, dead)
    requires Moved(t, t', p, c, b) && b >= 1
    requires MoveAllowed(t[p], c, b)
    ensures AvailOk(t', avail + {t[p].children[c].nodeIndex}, dead, p)
  {
    var k := t[p].children[c].nodeIndex;
    var avail' := avail + {k};
    if t[p].budget == b {
      var f := c;
      if exists d :: 0 <= d < c && !Gone(t, dead, p, d) {
        f := FirstNotGone(t, dead, p, c);
        assert ChildLinked(t, p, f);
        assert NodeFunded(t, avail, dead, t[p].children[f].nodeIndex);
      }
      forall d | 0 <= d < f ensures Gone(t', dead, p, d) {
        assert Gone(t, dead, p, d);
      }
      assert Via(t', avail', dead, p, f);
    }
  }

  // ---------------------------------------------------------------- nodes come and go

  lemma AddNodeFunded(t: Tree, t': Tree, top: nat, avail: set<nat>, dead: set<nat>, loc: Location, weight: nat,
                      items: seq<OrderedTraversal>)
    requires Linked(t, top) && Funded(t, avail, dead)
    requires NodeAdded(t, t', top + 1, loc, weight, items) && weight >= 1
    requires forall i :: i in t ==> t'[i].budget == t[i].budget
    ensures Funded(t', avail, dead)
  {
    var n := top + 1;
    assert forall i :: i in t ==> i in t' - {n};
    assert forall i :: i in t' && i != n ==> i in t' - {n};
    forall j | j in dead ensures DeadOk(t', dead, j) {
      assert DeadOk(t, dead, j);
      forall d | 0 <= d < |t'[j].children| ensures Gone(t', dead, j, d) {
        assert Gone(t, dead, j, d);
      }
    }
    forall j | j in avail ensures AvailOk(t', avail, dead, j) {
      assert AvailOk(t, avail, dead, j);
      if t[j].budget == 0 {
        var d: nat :| Via(t, avail, dead, j, d);
        forall e | 0 <= e < d ensures Gone(t', dead, j, e) {
          assert Gone(t, dead, j, e);
        }
        assert Via(t', avail, dead, j, d);
      }
    }
    forall j | j in t' ensures NodeFunded(t', avail, dead, j) {
      if j != n {
        assert NodeFunded(t, avail, dead, j);
        if j != 0 {
          assert ParentLinked(t, j);
        }
      }
    }
  }

  lemma RemoveNodeFunded(t: Tree, t': Tree, top: nat, avail: set<nat>, dead: set<nat>, at: nat)
    requires Linked(t, top) && Funded(t, avail, dead)
    requires at != 0 && NodeRemoved(t, t', at)
    requires forall c :: 0 <= c < |t[at].children| ==> t[at].children[c].Yielded?
    requires forall i :: i in t' && i != t[at].parent.value.nodeIndex ==> t'[i].budget == t[i].budget
    requires t'[t[at].parent.value.nodeIndex].budget == t[t[at].parent.value.nodeIndex].budget + t[at].budget
    ensures Funded(t', avail - {at}, dead - {at})
  {
    var p := t[at].parent.value;
    var avail', dead' := avail - {at}, dead - {at};
    assert ParentLinked(t, at);
    forall j | j in dead' ensures DeadOk(t', dead', j) {
      assert DeadOk(t, dead, j);
      forall d | 0 <= d < |t'[j].children| ensures Gone(t', dead', j, d) {
        assert Gone(t, dead, j, d);
        RemovedChild(t, t', top, at, j, d);
      }
    }
    forall j | j in avail' ensures AvailOk(t', avail', dead', j) {
      assert AvailOk(t, avail, dead, j);
      if t[j].budget == 0 {
        var d: nat :| Via(t, avail, dead, j, d);
        RemovedChild(t, t', top, at, j, d);
        if t[j].children[d].nodeIndex == at {
          assert AvailOk(t, avail, dead, at);
          assert t[at].budget >= 1;
        } else {
          forall e | 0 <= e < d ensures Gone(t', dead', j, e) {
            assert Gone(t, dead, j, e);
            RemovedChild(t, t', top, at, j, e);
          }
          assert Via(t', avail', dead', j, d);
        }
      }
    }
    forall j | j in t' ensures NodeFunded(t', avail', dead', j) {
      assert NodeFunded(t, avail, dead, j);
      if j != 0 {
        assert ParentLinked(t, j);
      }
    }
  }

  /** Only the slot of the removed node changes. */
  lemma RemovedChild(t: Tree, t': Tree, top: nat, at: nat, j: nat, d: nat)
    requires Linked(t, top) && NodeRemoved(t, t', at) && at != 0
    requires j in t' && d < |t[j].children|
    ensures t[j].children[d].Node? && t[j].children[d].nodeIndex == at ==>
              t[at].parent == Some(NodeLocation(j, d)) && t'[j].children[d].Yielded?
    ensures t'[j].children[d] == t[j].children[d] || t'[j].children[d].Yielded?
    ensures NodeLocation(j, d) != t[at].parent.value ==> t'[j].children[d] == t[j].children[d]
    ensures NodeLocation(j, d) == t[at].parent.value ==>
              t[j].children[d].Node? && t[j].children[d].nodeIndex == at
  {
    assert ParentLinked(t, at);
    if t[j].children[d].Node? {
      assert ChildLinked(t, j, d);
    }
  }

  // ---------------------------------------------------------------- no starvation

  /** Some node has budget, and its first child that is not yielded waits for it. */
  ghost predicate SomeFrontBusy(t: Tree) {
    exists i :: i in t && !FrontIdle(t[i])
  }

  /** If the node has budget, then its first child that is not yielded needs none from it; later children may. */
  ghost predicate FrontIdle(n: NodeState) {
    n.budget >= 1 ==>
      forall c :: 0 <= c < |n.children| && (forall d :: 0 <= d < c ==> n.children[d].Yielded?) ==>
        !n.children[c].Unscheduled? && !(n.children[c].Node? && n.children[c].weight >= 1)
  }

  /** The next item to emit is at child `c` of node `at` and cannot be emitted yet. */
  ghost predicate Blocked(t: Tree, labels: Labels, at: nat) {
    && at in t && at in labels && labels[at].done < |t[at].children|
    && var ch := t[at].children[labels[at].done];
      ch.Unscheduled? || ch.Pending? || (ch.Output? && t[at].budget == 0)
  }

  /** When nothing is outstanding and the next item is blocked, some first child waits for budget that its node
      has: otherwise no node from the cursor up to the root would hold budget. */
  lemma NotStarved(t: Tree, top: nat, labels: Labels, pending: map<Location, Input>, at: nat,
                   avail: set<nat>, dead: set<nat>)
    requires TreeOk(t, top, labels, pending, at) && Funded(t, avail, dead)
    requires Blocked(t, labels, at) && !t[at].children[labels[at].done].Pending?
    ensures SomeFrontBusy(t)
  {
    if forall i :: i in t ==> FrontIdle(t[i]) {
      var c := labels[at].done;
      assert PassedOnly(t, labels, at, at);
      OnlyViaFirst(t, avail, dead, at, c);
      assert at in dead ==> DeadOk(t, dead, at);
      assert at in avail ==> AvailOk(t, avail, dead, at);
      assert FrontIdle(t[at]);
      UnfundedUpwards(t, top, labels, pending, at, avail, dead, at);
    }
  }

  /** Budget can be reached only through the first child that is not yielded. */
  lemma OnlyViaFirst(t: Tree, avail: set<nat>, dead: set<nat>, k: nat, c: nat)
    requires k in t && c < |t[k].children| && !Gone(t, dead, k, c)
    requires forall d :: 0 <= d < c ==> t[k].children[d].Yielded?
    ensures forall d: nat :: Via(t, avail, dead, k, d) ==> d == c
  {
    assert !Gone(t, dead, k, c);
  }

  lemma {:induction false} UnfundedUpwards(t: Tree, top: nat, labels: Labels, pending: map<Location, Input>, at: nat,
                                           avail: set<nat>, dead: set<nat>, k: nat)
    requires TreeOk(t, top, labels, pending, at) && Funded(t, avail, dead)
    requires forall i :: i in t ==> FrontIdle(t[i])
    requires k in t && k !in avail && k !in dead
    requires k == at || labels[k].done > 0
    ensures false
    decreases k
  {
    assert NodeFunded(t, avail, dead, k);
    if k != 0 {
      assert EnteredFrom(t, labels, k);
      assert ParentLinked(t, k);
      var p, c := t[k].parent.value.nodeIndex, t[k].parent.value.childIndex;
      assert PassedOnly(t, labels, at, p);
      OnlyViaFirst(t, avail, dead, p, c);
      assert p in dead ==> DeadOk(t, dead, p);
      assert p in avail ==> AvailOk(t, avail, dead, p);
      assert FrontIdle(t[p]);
      UnfundedUpwards(t, top, labels, pending, at, avail, dead, p);
    }
  }
}
