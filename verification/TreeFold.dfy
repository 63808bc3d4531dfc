/** The execution tree of a traversal of a tree, and the invariant that ties it to the recursive fold. */
module TreeFold {
  import opened Common
  import opened Jobs
  import opened Slots

  type OutCtx(!new)
  type Out(!new)

  /** A value and what its unfold returns. */
  datatype In = In(context: OutCtx, children: seq<In>)

  type Fold = (OutCtx, seq<Out>) -> Out

  /** The recursive fold. */
  ghost function Eval(fold: Fold, v: In): Out {
    fold(v.context, EvalAll(fold, v.children))
  }

  ghost function EvalAll(fold: Fold, vs: seq<In>): seq<Out> {
    if vs == [] then [] else [Eval(fold, vs[0])] + EvalAll(fold, vs[1..])
  }

  lemma {:induction false} EvalEach(fold: Fold, vs: seq<In>, outs: seq<Out>)
    requires |outs| == |vs| && forall c :: 0 <= c < |vs| ==> outs[c] == Eval(fold, vs[c])
    ensures outs == EvalAll(fold, vs)
  {
    if vs != [] {
      EvalEach(fold, vs[1..], outs[1..]);
      assert outs == [outs[0]] + outs[1..];
    }
  }

  /** The number of values in a tree. */
  ghost function Size(v: In): nat {
    1 + SizeAll(v.children)
  }

  ghost function SizeAll(vs: seq<In>): nat {
    if vs == [] then 0 else Size(vs[0]) + SizeAll(vs[1..])
  }

  type Location = NodeLocation<nat>

  /** A node that is blocked by children, and the slot that waits for it. */
  datatype Node = Node(parent: Location, context: OutCtx, children: seq<Option<Out>>, childrenLeft: nat)

  type Tree = map<nat, Node>

  datatype Work = Unfold(value: In) | Fold(context: OutCtx, children: seq<Out>)

  /** A future whose result belongs in a slot. */
  type Task = Job<Location, Work>

  const ROOT: Location := NodeLocation(0, 0)

  // ---------------------------------------------------------------- the invariant

  /** Ghost record of a traversal: outstanding work, the values of the nodes, and the last node index. */
  datatype Book = Book(init: In, work: map<Location, Work>, src: map<nat, In>, top: nat)

  ghost predicate InSource(b: Book, loc: Location) {
    loc == ROOT || (loc.nodeIndex in b.src && loc.childIndex < |b.src[loc.nodeIndex].children|)
  }

  /** The value whose result belongs in a slot. */
  ghost function ValueAt(b: Book, loc: Location): In
    requires InSource(b, loc)
  {
    if loc == ROOT then b.init else b.src[loc.nodeIndex].children[loc.childIndex]
  }

  /** A slot without a result. */
  ghost predicate Empty(t: Tree, loc: Location) {
    loc == ROOT || (loc.nodeIndex in t && loc.childIndex < |t[loc.nodeIndex].children|
                    && t[loc.nodeIndex].children[loc.childIndex].None?)
  }

  /** A node has the results of the recursive fold of some children, and waits for the others. */
  ghost predicate NodeOk(fold: Fold, t: Tree, b: Book, i: nat) {
    i in t ==>
      && 0 < i <= b.top && i in b.src
      && Empty(t, t[i].parent) && t[i].parent.nodeIndex < i && InSource(b, t[i].parent)
      && ValueAt(b, t[i].parent) == b.src[i]
      && t[i].context == b.src[i].context && |t[i].children| == |b.src[i].children|
      && t[i].childrenLeft == CountNone(t[i].children) > 0
      && forall c :: 0 <= c < |t[i].children| ==>
           (t[i].children[c].Some? ==> t[i].children[c].value == Eval(fold, b.src[i].children[c]))
  }

  ghost predicate WorkOk(fold: Fold, t: Tree, b: Book, loc: Location) {
    loc in b.work ==>
      && Empty(t, loc) && InSource(b, loc)
      && (match b.work[loc]
          case Unfold(v) => v == ValueAt(b, loc)
          case Fold(context, children) => fold(context, children) == Eval(fold, ValueAt(b, loc)))
      && forall i :: i in t ==> t[i].parent != loc
  }

  /** A slot without a result is being worked on, or a node waits to fill it. */
  ghost predicate OwnerOk(t: Tree, b: Book, busy: Option<Location>, loc: Location) {
    Empty(t, loc) && busy != Some(loc) ==> loc in b.work || exists i :: i in t && t[i].parent == loc
  }

  ghost predicate Inv(fold: Fold, t: Tree, b: Book, busy: Option<Location>) {
    && t.Keys == b.src.Keys
    && (forall i {:trigger NodeOk(fold, t, b, i)} :: NodeOk(fold, t, b, i))
    && (forall loc {:trigger WorkOk(fold, t, b, loc)} :: WorkOk(fold, t, b, loc))
    && (forall loc {:trigger OwnerOk(t, b, busy, loc)} :: OwnerOk(t, b, busy, loc))
    && (forall i, j {:trigger t[i], t[j]} :: i in t && j in t && i != j ==> t[i].parent != t[j].parent)
    && (busy.Some? ==>
          && busy.value !in b.work && Empty(t, busy.value) && InSource(b, busy.value)
          && forall i :: i in t ==> t[i].parent != busy.value)
  }

  /** The invariant, as the traversal passes it on. */
  ghost predicate Kept(fold: Fold, t: Tree, b: Book, busy: Option<Location>) {
    forall part {:trigger Look(part)} :: Look(part) && part == Part.FoldTree ==> Inv(fold, t, b, busy)
  }

  /** The future for `loc` has completed. */
  lemma Begin(fold: Fold, t: Tree, b: Book, loc: Location)
    requires Kept(fold, t, b, None) && loc in b.work
    ensures Kept(fold, t, b.(work := b.work - {loc}), Some(loc))
    ensures InSource(b, loc) && (loc.nodeIndex == 0 ==> loc == ROOT)
    ensures match b.work[loc]
            case Unfold(v) => v == ValueAt(b, loc)
            case Fold(context, children) => fold(context, children) == Eval(fold, ValueAt(b, loc))
  {
    assert Look(Part.FoldTree);
    var b' := b.(work := b.work - {loc});
    assert WorkOk(fold, t, b, loc);
    assert NodeOk(fold, t, b, 0);
    forall i ensures NodeOk(fold, t, b', i) { assert NodeOk(fold, t, b, i); }
    forall l ensures WorkOk(fold, t, b', l) { assert WorkOk(fold, t, b, l); }
    forall l ensures OwnerOk(t, b', Some(loc), l) { assert OwnerOk(t, b, None, l); }
  }

  /** A fold is started for a slot. */
  lemma StartFold(fold: Fold, t: Tree, b: Book, loc: Location, context: OutCtx, children: seq<Out>)
    requires Kept(fold, t, b, Some(loc)) && InSource(b, loc) && fold(context, children) == Eval(fold, ValueAt(b, loc))
    ensures loc !in b.work && Kept(fold, t, b.(work := b.work[loc := Fold(context, children)]), None)
  {
    assert Look(Part.FoldTree);
    var b' := b.(work := b.work[loc := Fold(context, children)]);
    forall i ensures NodeOk(fold, t, b', i) { assert NodeOk(fold, t, b, i); }
    forall l ensures WorkOk(fold, t, b', l) { assert WorkOk(fold, t, b, l); }
    forall l ensures OwnerOk(t, b', None, l) { assert OwnerOk(t, b, Some(loc), l); }
  }

  // ---------------------------------------------------------------- an unfold

  ghost function NewWork(work: map<Location, Work>, k: nat, vs: seq<In>): map<Location, Work> {
    if vs == [] then work
    else NewWork(work, k, vs[..|vs| - 1])[NodeLocation(k, |vs| - 1) := Unfold(vs[|vs| - 1])]
  }

  ghost predicate FreshFor(work: map<Location, Work>, k: nat) {
    forall loc: Location :: loc in work ==> loc.nodeIndex != k
  }

  lemma {:induction false} NewWorkAt(work: map<Location, Work>, k: nat, vs: seq<In>, loc: Location)
    requires FreshFor(work, k)
    ensures loc in NewWork(work, k, vs) <==> loc in work || (loc.nodeIndex == k && loc.childIndex < |vs|)
    ensures loc in work ==> loc.nodeIndex != k && NewWork(work, k, vs)[loc] == work[loc]
    ensures loc.nodeIndex == k && loc.childIndex < |vs| ==> NewWork(work, k, vs)[loc] == Unfold(vs[loc.childIndex])
    decreases |vs|
  {
    if vs != [] {
      NewWorkAt(work, k, vs[..|vs| - 1], loc);
    }
  }

  ghost function NoResults(n: nat): seq<Option<Out>> {
    seq(n, _ => None)
  }

  lemma {:induction false} NoResultsCount(n: nat)
    ensures CountNone(NoResults(n)) == n
  {
    if n > 0 {
      assert NoResults(n)[..n - 1] == NoResults(n - 1);
      NoResultsCount(n - 1);
    }
  }

  ghost function Grown(b: Book, k: nat, v: In): Book {
    b.(work := NewWork(b.work, k, v.children), src := b.src[k := v], top := k)
  }

  ghost function NewNode(loc: Location, v: In): Node {
    Node(loc, v.context, NoResults(|v.children|), |v.children|)
  }

  lemma FreshIndex(fold: Fold, t: Tree, b: Book, busy: Option<Location>)
    requires Kept(fold, t, b, busy)
    ensures b.top + 1 !in t && FreshFor(b.work, b.top + 1)
  {
    assert Look(Part.FoldTree);
    assert NodeOk(fold, t, b, b.top + 1);
    forall loc: Location | loc in b.work ensures loc.nodeIndex != b.top + 1 {
      assert WorkOk(fold, t, b, loc);
    }
  }

  /** A value without children takes an index that no node gets. */
  lemma SkipIndex(fold: Fold, t: Tree, b: Book, busy: Option<Location>)
    requires Kept(fold, t, b, busy)
    ensures Kept(fold, t, b.(top := b.top + 1), busy)
  {
    assert Look(Part.FoldTree);
    var b' := b.(top := b.top + 1);
    forall i ensures NodeOk(fold, t, b', i) { assert NodeOk(fold, t, b, i); }
    forall l ensures WorkOk(fold, t, b', l) { assert WorkOk(fold, t, b, l); }
    forall l ensures OwnerOk(t, b', busy, l) { assert OwnerOk(t, b, busy, l); }
  }

  lemma ExpandNode(fold: Fold, t: Tree, b: Book, loc: Location, v: In, k: nat, i: nat)
    requires t.Keys == b.src.Keys && k == b.top + 1 && k !in t && Empty(t, loc) && InSource(b, loc)
             && ValueAt(b, loc) == v && v.children != []
    requires NodeOk(fold, t, b, i) && (loc.nodeIndex in t ==> loc.nodeIndex < k)
    ensures NodeOk(fold, t[k := NewNode(loc, v)], Grown(b, k, v), i)
  {
    NoResultsCount(|v.children|);
  }

  lemma ExpandWork(fold: Fold, t: Tree, b: Book, loc: Location, v: In, k: nat, l: Location)
    requires t.Keys == b.src.Keys && k !in t && FreshFor(b.work, k) && WorkOk(fold, t, b, l) && loc !in b.work
    requires loc.nodeIndex != k && forall i :: i in t ==> t[i].parent.nodeIndex != k
    requires k > 0
    ensures WorkOk(fold, t[k := NewNode(loc, v)], Grown(b, k, v), l)
  {
    NewWorkAt(b.work, k, v.children, l);
  }

  lemma ExpandOwner(t: Tree, b: Book, loc: Location, v: In, k: nat, l: Location)
    requires k !in t && FreshFor(b.work, k) && OwnerOk(t, b, Some(loc), l) && k > 0
    ensures OwnerOk(t[k := NewNode(loc, v)], Grown(b, k, v), None, l)
  {
    var t' := t[k := NewNode(loc, v)];
    NewWorkAt(b.work, k, v.children, l);
    if l == loc {
      assert t'[k].parent == l;
    } else if Empty(t, l) && l !in b.work {
      var i :| i in t && t[i].parent == l;
      assert t'[i].parent == l;
    }
  }

  /** The slot `loc` gets a node that waits for its children. */
  lemma Expand(fold: Fold, t: Tree, b: Book, loc: Location, v: In)
    requires Kept(fold, t, b, Some(loc)) && InSource(b, loc) && ValueAt(b, loc) == v && v.children != []
    ensures Kept(fold, t[b.top + 1 := NewNode(loc, v)], Grown(b, b.top + 1, v), None)
  {
    FreshIndex(fold, t, b, Some(loc));
    assert Look(Part.FoldTree);
    var k := b.top + 1;
    assert NodeOk(fold, t, b, loc.nodeIndex);
    forall i | i in t ensures t[i].parent.nodeIndex != k { assert NodeOk(fold, t, b, i); }
    var t', b' := t[k := NewNode(loc, v)], Grown(b, k, v);
    forall i ensures NodeOk(fold, t', b', i) {
      assert NodeOk(fold, t, b, i);
      ExpandNode(fold, t, b, loc, v, k, i);
    }
    forall l ensures WorkOk(fold, t', b', l) {
      assert WorkOk(fold, t, b, l);
      ExpandWork(fold, t, b, loc, v, k, l);
    }
    forall l ensures OwnerOk(t', b', None, l) {
      assert OwnerOk(t, b, Some(loc), l);
      ExpandOwner(t, b, loc, v, k, l);
    }
  }

  // ---------------------------------------------------------------- a fold

  ghost function Filled(t: Tree, loc: Location, result: Out): Node
    requires loc.nodeIndex in t && loc.childIndex < |t[loc.nodeIndex].children|
  {
    var node := t[loc.nodeIndex];
    node.(children := node.children[loc.childIndex := Some(result)],
          childrenLeft := SaturatingSub(node.childrenLeft, 1))
  }

  /** The node of a slot that a result belongs in. */
  lemma Waiting(fold: Fold, t: Tree, b: Book, loc: Location)
    requires Kept(fold, t, b, Some(loc)) && loc != ROOT
    ensures loc.nodeIndex in t && loc.childIndex < |t[loc.nodeIndex].children|
    ensures t[loc.nodeIndex].children[loc.childIndex].None?
    ensures t[loc.nodeIndex].childrenLeft == CountNone(t[loc.nodeIndex].children) > 0
  {
    assert Look(Part.FoldTree);
    assert NodeOk(fold, t, b, loc.nodeIndex);
  }

  /** A result is stored, and the node waits for others. */
  lemma Fill(fold: Fold, t: Tree, b: Book, loc: Location, result: Out)
    requires Kept(fold, t, b, Some(loc)) && loc != ROOT && InSource(b, loc) && result == Eval(fold, ValueAt(b, loc))
    requires loc.nodeIndex in t && loc.childIndex < |t[loc.nodeIndex].children| && t[loc.nodeIndex].childrenLeft > 1
    ensures Kept(fold, t[loc.nodeIndex := Filled(t, loc, result)], b, None)
  {
    assert Look(Part.FoldTree);
    var t' := t[loc.nodeIndex := Filled(t, loc, result)];
    assert NodeOk(fold, t, b, loc.nodeIndex);
    CountNoneFill(t[loc.nodeIndex].children, loc.childIndex, result);
    forall i ensures NodeOk(fold, t', b, i) { assert NodeOk(fold, t, b, i); }
    forall l ensures WorkOk(fold, t', b, l) { assert WorkOk(fold, t, b, l); }
    FillOwners(t, b, loc, result);
  }

  lemma FillOwners(t: Tree, b: Book, loc: Location, result: Out)
    requires forall l {:trigger OwnerOk(t, b, Some(loc), l)} :: OwnerOk(t, b, Some(loc), l)
    requires loc != ROOT && loc.nodeIndex in t && loc.childIndex < |t[loc.nodeIndex].children|
    ensures var t' := t[loc.nodeIndex := Filled(t, loc, result)];
            forall l {:trigger OwnerOk(t', b, None, l)} :: OwnerOk(t', b, None, l)
  {
    var t' := t[loc.nodeIndex := Filled(t, loc, result)];
    forall l ensures OwnerOk(t', b, None, l) {
      assert OwnerOk(t, b, Some(loc), l);
      FillOwner(t, b, loc, result, l);
    }
  }

  lemma FillOwner(t: Tree, b: Book, loc: Location, result: Out, l: Location)
    requires OwnerOk(t, b, Some(loc), l) && loc != ROOT && loc.nodeIndex in t
             && loc.childIndex < |t[loc.nodeIndex].children|
    ensures OwnerOk(t[loc.nodeIndex := Filled(t, loc, result)], b, None, l)
  {
    var t' := t[loc.nodeIndex := Filled(t, loc, result)];
    if Empty(t', l) && l !in b.work {
      var i :| i in t && t[i].parent == l;
      assert t'[i].parent == l;
    }
  }

  lemma RemoveOwner(t: Tree, b: Book, b': Book, x: nat, loc: Location, l: Location)
    requires x in t && b'.work == b.work && OwnerOk(t, b, Some(loc), l) && loc.nodeIndex == x > 0
    ensures OwnerOk(t - {x}, b', Some(t[x].parent), l)
  {
    if Empty(t - {x}, l) && l != t[x].parent && l !in b.work {
      var i :| i in t && t[i].parent == l;
      assert (t - {x})[i].parent == l;
    }
  }

  lemma AllFilled(fold: Fold, t: Tree, b: Book, loc: Location, result: Out)
    requires NodeOk(fold, t, b, loc.nodeIndex) && loc != ROOT && Empty(t, loc) && InSource(b, loc) && loc.nodeIndex > 0
    requires result == Eval(fold, ValueAt(b, loc)) && t[loc.nodeIndex].childrenLeft == 1
    ensures var node := Filled(t, loc, result);
            && fold(node.context, Flatten(node.children)) == Eval(fold, b.src[loc.nodeIndex])
    ensures forall l: Location :: l.nodeIndex == loc.nodeIndex && Empty(t, l) ==> l == loc
  {
    var x, node := loc.nodeIndex, Filled(t, loc, result);
    CountNoneFill(t[x].children, loc.childIndex, result);
    CountNoneZero(node.children);
    FlattenAll(node.children);
    forall c | 0 <= c < |node.children| ensures Flatten(node.children)[c] == Eval(fold, b.src[x].children[c]) {
      assert node.children[c] == Some(Flatten(node.children)[c]);
    }
    EvalEach(fold, b.src[x].children, Flatten(node.children));
    forall c | 0 <= c < |node.children| && c != loc.childIndex ensures t[x].children[c].Some? {
      assert node.children[c] == t[x].children[c];
    }
  }

  lemma RemoveNode(fold: Fold, t: Tree, b: Book, x: nat, loc: Location, i: nat)
    requires NodeOk(fold, t, b, i) && t.Keys == b.src.Keys && x in t && loc.nodeIndex == x
    requires (forall l: Location :: l.nodeIndex == x && Empty(t, l) ==> l == loc) && (i in t ==> t[i].parent != loc)
             && x > 0
    ensures NodeOk(fold, t - {x}, b.(src := b.src - {x}), i)
  {
  }

  lemma RemoveWork(fold: Fold, t: Tree, b: Book, x: nat, loc: Location, l: Location)
    requires WorkOk(fold, t, b, l) && t.Keys == b.src.Keys && x in t && loc.nodeIndex == x && loc !in b.work && x > 0
    requires forall l: Location :: l.nodeIndex == x && Empty(t, l) ==> l == loc
    ensures WorkOk(fold, t - {x}, b.(src := b.src - {x}), l)
  {
  }

  /** The last result arrives: the node is removed, and the slot that waits for it is to be filled by a fold. */
  lemma Remove(fold: Fold, t: Tree, b: Book, loc: Location, result: Out)
    requires Kept(fold, t, b, Some(loc)) && loc != ROOT && InSource(b, loc) && result == Eval(fold, ValueAt(b, loc))
    requires loc.nodeIndex in t && loc.childIndex < |t[loc.nodeIndex].children| && t[loc.nodeIndex].childrenLeft == 1
    ensures var node, b' := Filled(t, loc, result), b.(src := b.src - {loc.nodeIndex});
            && Kept(fold, t - {loc.nodeIndex}, b', Some(node.parent)) && InSource(b', node.parent)
            && fold(node.context, Flatten(node.children)) == Eval(fold, ValueAt(b', node.parent))
  {
    assert Look(Part.FoldTree);
    var x := loc.nodeIndex;
    var t', b' := t - {x}, b.(src := b.src - {x});
    assert NodeOk(fold, t, b, x);
    AllFilled(fold, t, b, loc, result);
    assert WorkOk(fold, t, b, t[x].parent);
    forall i ensures NodeOk(fold, t', b', i) {
      assert NodeOk(fold, t, b, i);
      RemoveNode(fold, t, b, x, loc, i);
    }
    forall l ensures WorkOk(fold, t', b', l) {
      assert WorkOk(fold, t, b, l);
      RemoveWork(fold, t, b, x, loc, l);
    }
    forall l ensures OwnerOk(t', b', Some(t[x].parent), l) {
      assert OwnerOk(t, b, Some(loc), l);
      RemoveOwner(t, b, b', x, loc, l);
    }
  }

  // ---------------------------------------------------------------- the end

  /** When the result of the whole tree is there, nothing is left in the execution tree. */
  lemma RootCompleted(fold: Fold, t: Tree, b: Book)
    requires Kept(fold, t, b, Some(ROOT))
    ensures t == map[] && b.work == map[]
  {
    assert Look(Part.FoldTree);
    forall i ensures i !in t { NoNode(fold, t, b, i); }
    forall l ensures l !in b.work { assert WorkOk(fold, t, b, l); }
  }

  lemma {:induction false} NoNode(fold: Fold, t: Tree, b: Book, i: nat)
    requires Inv(fold, t, b, Some(ROOT))
    ensures i !in t
    decreases i
  {
    assert NodeOk(fold, t, b, i);
    if i in t && t[i].parent.nodeIndex < i {
      NoNode(fold, t, b, t[i].parent.nodeIndex);
    }
  }

  /** Until then, something is being worked on. */
  lemma SomethingToDo(fold: Fold, t: Tree, b: Book)
    requires Kept(fold, t, b, None)
    ensures b.work != map[]
  {
    assert Look(Part.FoldTree);
    if b.work == map[] {
      assert OwnerOk(t, b, None, ROOT);
      var i :| i in t && t[i].parent == ROOT;
      Bottomless(fold, t, b, i);
    }
  }

  lemma {:induction false} Bottomless(fold: Fold, t: Tree, b: Book, i: nat)
    requires Inv(fold, t, b, None) && b.work == map[] && i in t
    ensures false
    decreases b.top - i
  {
    assert NodeOk(fold, t, b, i);
    CountNoneZero(t[i].children);
    var c :| 0 <= c < |t[i].children| && t[i].children[c].None?;
    assert OwnerOk(t, b, None, NodeLocation(i, c));
    var j :| j in t && t[j].parent == NodeLocation(i, c);
    assert NodeOk(fold, t, b, j);
    Bottomless(fold, t, b, j);
  }
}
