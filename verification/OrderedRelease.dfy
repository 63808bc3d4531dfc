/** After a value was emitted, its node and then each of its ancestors settles: the slot of the node
    below is lowered to what that node still needs, and surplus budget moves up. */
module OrderedRelease {
  import opened Common
  import opened OrderedTree
  import opened OrderedSteps
  import opened OrderedFunding
  import opened OrderedNode
  import opened OrderedScheduling

  /** `t` with surplus `s` of node `k` credited to the parent of `k`. */
  ghost function Credit(t: Tree, k: nat, s: nat): Tree
    requires k in t
  {
    if t[k].parent.Some? && t[k].parent.value.nodeIndex in t then
      var p := t[k].parent.value.nodeIndex;
      t[p := t[p].(budget := t[p].budget + s)]
    else t
  }

  /** Node `k` is settled and its surplus `s` is on the way to its parent. */
  ghost predicate Settled(t: Tree, top: nat, k: nat, s: nat, total: nat, limited: bool, avail: set<nat>,
                          dead: set<nat>) {
    && k in t && AllLocalOk(t)
    && t[k].budget <= t[k].remainingWeight
    && BudgetTotal(Credit(t, k, s), top) + (if t[k].parent.Some? then 0 else s) == total
    && (limited ||
         (Funded(Credit(t, k, s), avail, dead) && (t[k].budget == t[k].remainingWeight ==> k in avail || k in dead)))
  }

  /** The node under the cursor gives up its surplus. */
  lemma SettleFirst(t: Tree, t': Tree, top: nat, k: nat, limited: bool, avail: set<nat>, dead: set<nat>)
    returns (avail': set<nat>, dead': set<nat>)
    requires Linked(t, top) && AllLocalOk(t) && (limited || Funded(t, avail, dead))
    requires k in t && t' == t[k := t[k].(budget := Min(t[k].budget, t[k].remainingWeight))]
    ensures Settled(t', top, k, SaturatingSub(t[k].budget, t[k].remainingWeight), BudgetTotal(t, top), limited, avail',
                    dead')
  {
    var s := SaturatingSub(t[k].budget, t[k].remainingWeight);
    var vt := Credit(t', k, s);
    assert LocalOk(t[k]);
    if k != 0 {
      assert ParentLinked(t, k);
    }
    assert PassedUp(t, vt, k);
    PassedUpSums(t, vt, k, top);
    BudgetChange(t[k], t'[k].budget, t[k].expired);
    forall i | i in t' ensures LocalOk(t'[i]) {
      assert LocalOk(t[i]);
    }
    avail', dead' := avail, dead;
    if !limited {
      avail', dead' := PassUpFunded(t, vt, top, avail, dead, k);
    }
  }

  /** Node `k` has a parent in whose children it is. */
  ghost predicate CanLift(t: Tree, k: nat) {
    k in t && t[k].parent.Some? && HasChild(t, t[k].parent.value) && ChildAt(t, t[k].parent.value).Node?
  }

  /** Parent `p` of the settled node `k` lowers the slot of `k` and receives the surplus. */
  ghost function LiftTree(t: Tree, k: nat, s: nat): Tree
    requires CanLift(t, k)
  {
    var p := t[k].parent.value;
    var w := Min(ChildAt(t, p).weight, SaturatingSub(t[k].remainingWeight, t[k].budget));
    var n := SetChild(t[p.nodeIndex], p.childIndex, Node(w, k));
    t[p.nodeIndex := n.(budget := Min(n.budget + s, n.remainingWeight))]
  }

  ghost predicate Lifted(t: Tree, t': Tree, k: nat, s: nat) {
    CanLift(t, k) && t' == LiftTree(t, k, s)
  }

  /** The surplus `s` of node `k` moves up to the root: the tree it leaves behind, and what is left of it. */
  ghost function ReleaseUp(t: Tree, k: nat, s: nat): (Tree, nat)
    decreases k
  {
    if CanLift(t, k) && t[k].parent.value.nodeIndex < k then
      var p, t' := t[k].parent.value.nodeIndex, LiftTree(t, k, s);
      ReleaseUp(t', p, SaturatingSub(t[p].budget + s, t'[p].remainingWeight))
    else (t, s)
  }

  ghost function ExpiredSurplus(n: NodeState): nat {
    Min(n.expired, SaturatingSub(n.budget, n.remainingWeight))
  }

  /** Node `n` without the expired budget that it does not need. */
  ghost function WithoutExpired(n: NodeState): NodeState {
    n.(budget := SaturatingSub(n.budget, ExpiredSurplus(n)), expired := SaturatingSub(n.expired, ExpiredSurplus(n)))
  }

  /** Node `at` gives up its expired budget, and its surplus to the nodes above it. */
  ghost function Release(t: Tree, at: nat): (Tree, nat)
    requires at in t
  {
    var n := WithoutExpired(t[at]);
    ReleaseUp(t[at := n.(budget := Min(n.budget, n.remainingWeight))], at, SaturatingSub(n.budget, n.remainingWeight))
  }

  /** Once fewer items are to come than there is budget, every item makes a unit of budget expire. */
  ghost function Expire(t: Tree, at: nat, limit: Option<nat>, total: nat): Tree
    requires at in t
  {
    if limit.Some? && limit.value < total then t[at := t[at].(expired := t[at].expired + 1)] else t
  }

  lemma ReleaseStep(t: Tree, t': Tree, k: nat, s: nat)
    requires Lifted(t, t', k, s) && t[k].parent.value.nodeIndex < k
    ensures var p := t[k].parent.value.nodeIndex;
            p in t' && ReleaseUp(t, k, s) == ReleaseUp(t', p, SaturatingSub(t[p].budget + s, t'[p].remainingWeight))
  {
  }

  lemma ReleaseStop(t: Tree, k: nat, s: nat)
    requires k in t && t[k].parent.None?
    ensures ReleaseUp(t, k, s) == (t, s)
  {
  }

  lemma LiftedLocal(t: Tree, t': Tree, k: nat, s: nat)
    requires AllLocalOk(t) && Lifted(t, t', k, s)
    requires ChildAt(t, t[k].parent.value).nodeIndex == k
    ensures AllLocalOk(t')
    ensures var p := t[k].parent.value.nodeIndex;
            t'[p].budget <= t'[p].remainingWeight <= t[p].remainingWeight
  {
    var p := t[k].parent.value;
    var w := Min(ChildAt(t, p).weight, SaturatingSub(t[k].remainingWeight, t[k].budget));
    var n := SetChild(t[p.nodeIndex], p.childIndex, Node(w, k));
    assert LocalOk(t[p.nodeIndex]);
    SetLighterChild(t[p.nodeIndex], p.childIndex, Node(w, k));
    BudgetChange(n, Min(n.budget + s, n.remainingWeight), n.expired);
    assert t'[p.nodeIndex] == n.(budget := Min(n.budget + s, n.remainingWeight), expired := n.expired);
    forall i | i in t' ensures LocalOk(t'[i]) {
      assert LocalOk(t[i]);
    }
  }

  /** The same two steps in the tree with the surplus credited. */
  lemma LiftedCredit(t: Tree, t': Tree, top: nat, k: nat, s: nat, mid: Tree)
    requires Linked(t, top) && AllLocalOk(t) && k in t && k != 0 && Lifted(t, t', k, s)
    requires var p := t[k].parent.value;
             mid == Credit(t, k, s)[p.nodeIndex := SetChild(Credit(t, k, s)[p.nodeIndex], p.childIndex,
                      Node(Min(ChildAt(t, p).weight, SaturatingSub(t[k].remainingWeight, t[k].budget)), k))]
    ensures var p := t[k].parent.value.nodeIndex;
            PassedUp(mid, Credit(t', p, SaturatingSub(t[p].budget + s, t'[p].remainingWeight)), p)
  {
    assert ParentLinked(t, k);
    var p := t[k].parent.value.nodeIndex;
    if p != 0 {
      assert ParentLinked(t, p);
    }
  }

  /** Lowering the slot of a settled child keeps every subtree funded. */
  lemma LowerFunded(vt: Tree, mid: Tree, top: nat, avail: set<nat>, dead: set<nat>, loc: Location, k: nat, w: nat)
    requires Linked(vt, top) && Funded(vt, avail, dead)
    requires HasChild(vt, loc) && ChildAt(vt, loc).Node? && ChildAt(vt, loc).nodeIndex == k
             && LocalOk(vt[loc.nodeIndex])
    requires w <= ChildAt(vt, loc).weight
    requires mid == vt[loc.nodeIndex := SetChild(vt[loc.nodeIndex], loc.childIndex, Node(w, k))]
    requires w >= 1 || w == ChildAt(vt, loc).weight || k in avail || k in dead
    ensures Funded(mid, avail, dead)
  {
    if w < ChildAt(vt, loc).weight {
      LowerSlotFunded(vt, mid, top, avail, dead, loc.nodeIndex, loc.childIndex, w);
    } else {
      assert vt[loc.nodeIndex].children[loc.childIndex := Node(w, k)] == vt[loc.nodeIndex].children;
      assert mid == vt;
    }
  }

  /** Crediting budget keeps nodes consistent. */
  lemma CreditLocal(t: Tree, k: nat, s: nat, p: nat)
    requires k in t && p in t && LocalOk(t[p])
    ensures LocalOk(Credit(t, k, s)[p]) && SameShape(t, Credit(t, k, s))
  {
    var vt := Credit(t, k, s);
    BudgetChange(t[p], vt[p].budget, t[p].expired);
    assert vt[p] == t[p].(budget := vt[p].budget, expired := t[p].expired);
  }

  lemma LiftSums(vt: Tree, mid: Tree, vt': Tree, top: nat, p: nat, c: nat, ch: Child)
    requires Below(vt, top) && p in vt && c < |vt[p].children|
    requires mid == vt[p := SetChild(vt[p], c, ch)] && PassedUp(mid, vt', p)
    ensures BudgetTotal(vt', top)
            + (if mid[p].parent.Some? then 0 else SaturatingSub(mid[p].budget, mid[p].remainingWeight))
         == BudgetTotal(vt, top)
  {
    OneNodeSums(vt, mid, p, top);
    PassedUpSums(mid, vt', p, top);
  }

  lemma Lift(t: Tree, t': Tree, top: nat, k: nat, s: nat, total: nat, limited: bool, avail: set<nat>, dead: set<nat>)
    returns (avail': set<nat>, dead': set<nat>)
    requires Linked(t, top) && k != 0 && Settled(t, top, k, s, total, limited, avail, dead)
    requires Lifted(t, t', k, s)
    ensures var p := t[k].parent.value.nodeIndex;
            Settled(t', top, p, SaturatingSub(t[p].budget + s, t'[p].remainingWeight), total, limited, avail', dead')
  {
    assert ParentLinked(t, k);
    var loc := t[k].parent.value;
    var p := loc.nodeIndex;
    var w := Min(ChildAt(t, loc).weight, SaturatingSub(t[k].remainingWeight, t[k].budget));
    var vt := Credit(t, k, s);
    var mid := vt[p := SetChild(vt[p], loc.childIndex, Node(w, k))];
    var vt' := Credit(t', p, SaturatingSub(t[p].budget + s, t'[p].remainingWeight));
    LiftedLocal(t, t', k, s);
    LiftedCredit(t, t', top, k, s, mid);
    assert LocalOk(t[p]);
    CreditLocal(t, k, s, p);
    LiftSums(vt, mid, vt', top, p, loc.childIndex, Node(w, k));
    avail', dead' := avail, dead;
    if !limited {
      SameShapeLinked(t, vt, top);
      avail', dead' := LiftFunded(vt, mid, vt', top, loc, k, w, avail, dead);
    }
  }

  lemma LiftFunded(vt: Tree, mid: Tree, vt': Tree, top: nat, loc: Location, k: nat, w: nat, avail: set<nat>,
                   dead: set<nat>)
    returns (avail': set<nat>, dead': set<nat>)
    requires Linked(vt, top) && Funded(vt, avail, dead)
    requires HasChild(vt, loc) && ChildAt(vt, loc).Node? && ChildAt(vt, loc).nodeIndex == k
             && LocalOk(vt[loc.nodeIndex])
    requires w <= ChildAt(vt, loc).weight
    requires mid == vt[loc.nodeIndex := SetChild(vt[loc.nodeIndex], loc.childIndex, Node(w, k))]
    requires w >= 1 || w == ChildAt(vt, loc).weight || k in avail || k in dead
    requires PassedUp(mid, vt', loc.nodeIndex)
    ensures Funded(vt', avail', dead')
    ensures mid[loc.nodeIndex].budget >= mid[loc.nodeIndex].remainingWeight
            ==> loc.nodeIndex in avail' || loc.nodeIndex in dead'
  {
    var p := loc.nodeIndex;
    LowerFunded(vt, mid, top, avail, dead, loc, k, w);
    SetLighterChild(vt[p], loc.childIndex, Node(w, k));
    SameShapeLinked(vt, mid, top);
    avail', dead' := PassUpFunded(mid, vt', top, avail, dead, p);
  }

  lemma LiftedTree(t: Tree, t': Tree, top: nat, labels: Labels, pending: map<Location, Input>, at: nat, jobs: seq<Job>,
                   k: nat, s: nat)
    requires TreeOk(t, top, labels, pending, at) && JobsOk(t, top, jobs, pending) && AllLocalOk(t)
    requires k != 0 && Lifted(t, t', k, s)
    ensures TreeOk(t', top, labels, pending, at) && JobsOk(t', top, jobs, pending)
    ensures WorkTotal(t', labels, top) == WorkTotal(t, labels, top)
    ensures WeightTotal(t', top) <= WeightTotal(t, top)
  {
    assert ParentLinked(t, k);
    LiftedLocal(t, t', k, s);
    SameShapeKeepsTree(t, t', top, labels, pending, at);
    SameShapeKeepsJobs(t, t', top, jobs, pending);
    SameShapeKeepsWorks(t, t', labels, top);
    OneNodeSums(t, t', t[k].parent.value.nodeIndex, top);
  }
}
