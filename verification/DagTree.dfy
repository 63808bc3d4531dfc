/** The execution tree of a traversal of a directed graph, and the invariant that ties it to the graph. */
module DagTree {
  import opened Common
  import opened Digraph
  import opened DagFold
  import opened Jobs
  import opened Slots

  type Location = NodeLocation<In>

  datatype Children = Children(context: OutCtx, children: seq<Option<Out>>, childrenLeft: nat)

  /** A node is blocked while it has `children`; its `parents` are the slots that wait for it. */
  datatype Node =
    | Pending(parents: seq<Location>, children: Option<Children>)
    | Done(out: Out)

  type Tree = map<In, Node>

  datatype Work = Unfold | Fold(context: OutCtx, children: seq<Out>)

  /** A future that unfolds or folds a value. */
  type Task = Job<In, Work>

  // ---------------------------------------------------------------- the invariant

  /** Ghost record of a traversal: the outstanding work; the children that each unfolded value was given and
      the results that reached their slots; the slots waiting for each value; and the calls of `unfold` and
      `fold`, in the order in which they were made. */
  datatype Book = Book(
    work: map<In, Work>,
    eff: Graph,
    slots: map<In, seq<Option<Out>>>,
    links: map<In, seq<Location>>,
    unfolds: seq<In>,
    folds: seq<In>)

  ghost predicate SlotAt(b: Book, loc: Location) {
    && loc.nodeIndex in b.eff && loc.nodeIndex in b.slots
    && loc.childIndex < |b.eff[loc.nodeIndex]| && loc.childIndex < |b.slots[loc.nodeIndex]|
  }

  /** The result in a slot is that of the child; an empty slot waits for the child. */
  ghost predicate SlotOk(t: Tree, b: Book, loc: Location) {
    SlotAt(b, loc) ==>
      var child := b.eff[loc.nodeIndex][loc.childIndex];
      && child in t && child in b.links
      && match b.slots[loc.nodeIndex][loc.childIndex]
         case Some(out) => t[child] == Done(out)
         case None => loc in b.links[child]
  }

  /** A slot that waits for `w` is an empty slot of the child `w`. */
  ghost predicate WaitsFor(b: Book, loc: Location, w: In) {
    SlotAt(b, loc) && b.eff[loc.nodeIndex][loc.childIndex] == w && b.slots[loc.nodeIndex][loc.childIndex].None?
  }

  /** The traversed value has a first parent location that is no slot: nothing waits for the traversed value. */
  ghost function Skip(pb: Problem, w: In): nat {
    if w == pb.init then 1 else 0
  }

  ghost predicate LinksOk(pb: Problem, b: Book, w: In) {
    w in b.links ==>
      && (w == pb.init ==> b.links[w] != [])
      && (forall i {:trigger b.links[w][i]} :: Skip(pb, w) <= i < |b.links[w]| ==> WaitsFor(b, b.links[w][i], w))
      && (forall i, j :: Skip(pb, w) <= i < j < |b.links[w]| ==> b.links[w][i] != b.links[w][j])
  }

  ghost predicate KeysOk(t: Tree, b: Book) {
    && b.work.Keys <= t.Keys
    && b.eff.Keys == b.slots.Keys <= t.Keys == b.links.Keys
    && (forall v :: v in b.eff ==> |b.eff[v]| == |b.slots[v]|)
  }

  /** What is being done about `v`: it is being unfolded, it is being folded, it is done, or it is blocked by
      children that are not done. */
  ghost predicate StatusOk(pb: Problem, t: Tree, b: Book, v: In) {
    v in t && v in b.links &&
    if v in b.work then
      && t[v] == Pending(b.links[v], None)
      && match b.work[v]
         case Unfold => v !in b.eff
         case Fold(context, children) =>
           && v in b.slots && AllSome(b.slots[v])
           && context == pb.unfold(v).context && children == Flatten(b.slots[v])
    else
      && v in b.slots
      && (t[v].Done? ==> Finished(pb, t, b, v) && b.links[v] == [])
      && (t[v].Pending? ==>
            && t[v] == Pending(b.links[v], Some(Children(pb.unfold(v).context, b.slots[v], CountNone(b.slots[v]))))
            && CountNone(b.slots[v]) > 0)
  }

  ghost predicate Finished(pb: Problem, t: Tree, b: Book, v: In) {
    && v in t && v in b.slots && v !in b.work && v != pb.init
    && AllSome(b.slots[v]) && t[v] == Done(pb.fold(pb.unfold(v).context, Flatten(b.slots[v])))
  }

  /** Every value was found as the child of a value found earlier. */
  ghost predicate FoundOk(b: Book, k: nat) {
    0 < k < |b.unfolds| ==>
      exists j: nat, c: nat {:trigger FoundAs(b, b.unfolds[k], j, c)} :: j < k && FoundAs(b, b.unfolds[k], j, c)
  }

  ghost predicate FoundAs(b: Book, v: In, j: nat, c: nat) {
    && j < |b.unfolds| && b.unfolds[j] in b.eff
    && c < |b.eff[b.unfolds[j]]| && b.eff[b.unfolds[j]][c] == v
  }

  /** The children of a value are folded before it is. */
  ghost predicate FoldOrderOk(b: Book, k: nat) {
    k < |b.folds| ==>
      && b.folds[k] in b.eff
      && forall c :: 0 <= c < |b.eff[b.folds[k]]| ==> b.eff[b.folds[k]][c] in b.folds[..k]
  }

  /** `unfold` is called once for every value found. */
  ghost predicate UnfoldsOk(pb: Problem, t: Tree, b: Book) {
    && b.unfolds != [] && b.unfolds[0] == pb.init
    && (forall i, j :: 0 <= i < j < |b.unfolds| ==> b.unfolds[i] != b.unfolds[j])
    && (forall v :: v in b.unfolds <==> v in t)
    && (forall k: nat {:trigger FoundOk(b, k)} :: FoundOk(b, k))
  }

  ghost predicate FoldStarted(t: Tree, b: Book, v: In) {
    v in t && (t[v].Done? || (v in b.work && b.work[v].Fold?))
  }

  /** `fold` is called at most once for a value. */
  ghost predicate FoldsOk(t: Tree, b: Book) {
    && (forall i, j :: 0 <= i < j < |b.folds| ==> b.folds[i] != b.folds[j])
    && (forall v {:trigger FoldStarted(t, b, v)} {:trigger v in b.folds} :: v in b.folds <==> FoldStarted(t, b, v))
    && (forall k: nat {:trigger FoldOrderOk(b, k)} :: FoldOrderOk(b, k))
  }

  /** The children that an unfolded value was given: all of them or, under a limit, no fewer than the limit
      has left. */
  ghost predicate ChildrenOk(pb: Problem, limit: Option<nat>, size: nat, v: In, children: seq<In>) {
    && children <= pb.unfold(v).children
    && match limit
       case None => children == pb.unfold(v).children
       case Some(n) => |children| >= Min(|pb.unfold(v).children|, SaturatingSub(n, size))
  }

  ghost predicate AllGiven(pb: Problem, limit: Option<nat>, t: Tree, b: Book, busy: set<In>) {
    && (forall v {:trigger b.eff[v]} :: v in b.eff && v !in busy ==> ChildrenOk(pb, limit, |t|, v, b.eff[v]))
    && (limit.Some? ==> |t| <= if limit.value == 0 then 1 else limit.value)
  }

  ghost predicate GraphOk(pb: Problem, t: Tree, b: Book) {
    && KeysOk(t, b)
    && (forall loc {:trigger SlotOk(t, b, loc)} :: SlotOk(t, b, loc))
    && (forall w {:trigger LinksOk(pb, b, w)} :: LinksOk(pb, b, w))
  }

  ghost predicate StatusesOk(pb: Problem, t: Tree, b: Book, busy: set<In>) {
    forall v {:trigger StatusOk(pb, t, b, v)} :: v in t && v !in busy ==> StatusOk(pb, t, b, v)
  }

  /** The invariant; `busy` are values whose unfold or fold is being started or has completed and is being
      processed. */
  ghost predicate Inv(pb: Problem, t: Tree, b: Book, busy: set<In>) {
    && GraphOk(pb, t, b)
    && StatusesOk(pb, t, b, busy)
    && UnfoldsOk(pb, t, b)
    && FoldsOk(t, b)
  }

  /** The invariant, as the traversal passes it on. */
  ghost predicate Kept(pb: Problem, t: Tree, b: Book, busy: set<In>) {
    forall part {:trigger Look(part)} :: Look(part) && part == Part.GraphTree ==> Inv(pb, t, b, busy)
  }

  /** `v` was unfolded and is neither done nor being folded. */
  ghost predicate Open(t: Tree, b: Book, v: In) {
    && v in t && v in b.eff && v in b.slots && v in b.links && v !in b.work
    && t[v].Pending? && t[v].parents == b.links[v]
  }

  // ---------------------------------------------------------------- what keeps the invariant

  lemma StatusKept(pb: Problem, t: Tree, b: Book, t': Tree, b': Book, v: In)
    requires StatusOk(pb, t, b, v) && v in t' && t'[v] == t[v] && v in b'.links && b'.links[v] == b.links[v]
    requires (v in b.eff <==> v in b'.eff) && (v in b.slots <==> v in b'.slots)
    requires v in b.slots ==> b.slots[v] == b'.slots[v]
    requires (v in b.work <==> v in b'.work) && (v in b.work ==> b.work[v] == b'.work[v])
    ensures StatusOk(pb, t', b', v)
  {
  }

  // ---------------------------------------------------------------- what keeps the histories

  lemma UnfoldsKept(pb: Problem, t: Tree, b: Book, t': Tree, b': Book)
    requires UnfoldsOk(pb, t, b) && t'.Keys == t.Keys && b'.unfolds == b.unfolds
    requires forall v :: v in b.eff ==> v in b'.eff && b.eff[v] <= b'.eff[v]
    ensures UnfoldsOk(pb, t', b')
  {
    forall k: nat ensures FoundOk(b', k) {
      assert FoundOk(b, k);
      if 0 < k < |b.unfolds| {
        var j: nat, c: nat :| j < k && FoundAs(b, b.unfolds[k], j, c);
        assert FoundAs(b', b.unfolds[k], j, c);
      }
    }
  }

  lemma FoldsKept(t: Tree, b: Book, t': Tree, b': Book)
    requires FoldsOk(t, b) && b'.folds == b.folds
    requires forall v :: v in b.folds && v in b.eff ==> v in b'.eff && b.eff[v] == b'.eff[v]
    requires forall v {:trigger FoldStarted(t', b', v)} {:trigger FoldStarted(t, b, v)} ::
               FoldStarted(t, b, v) <==> FoldStarted(t', b', v)
    ensures FoldsOk(t', b')
  {
    forall k: nat ensures FoldOrderOk(b', k) {
      assert FoldOrderOk(b, k);
    }
  }

  // ---------------------------------------------------------------- steps of an unfold

  ghost function Unfolding(b: Book, v: In): Book {
    b.(work := b.work - {v}, eff := b.eff[v := []], slots := b.slots[v := []])
  }

  /** The unfold of `v` has completed. */
  lemma BeginUnfold(pb: Problem, t: Tree, b: Book, v: In)
    requires Kept(pb, t, b, {}) && v in b.work && b.work[v].Unfold?
    ensures Kept(pb, t, Unfolding(b, v), {v}) && Open(t, Unfolding(b, v), v)
    ensures t[v] == Pending(b.links[v], None) && v !in b.eff
  {
    assert Look(Part.GraphTree);
    var b' := Unfolding(b, v);
    assert StatusOk(pb, t, b, v);
    BeginUnfoldGraph(pb, t, b, v);
    forall u | u in t && u !in {v} ensures StatusOk(pb, t, b', u) {
      assert StatusOk(pb, t, b, u);
      StatusKept(pb, t, b, t, b', u);
    }
    UnfoldsKept(pb, t, b, t, b');
    BeginUnfoldFolds(t, b, v);
  }

  lemma BeginUnfoldGraph(pb: Problem, t: Tree, b: Book, v: In)
    requires GraphOk(pb, t, b) && v in t && v !in b.eff
    ensures GraphOk(pb, t, Unfolding(b, v))
  {
    var b' := Unfolding(b, v);
    forall l ensures SlotOk(t, b', l) { assert SlotOk(t, b, l); }
    forall w ensures LinksOk(pb, b', w) { assert LinksOk(pb, b, w); }
  }

  lemma BeginUnfoldFolds(t: Tree, b: Book, v: In)
    requires FoldsOk(t, b) && v in b.work && b.work[v].Unfold? && v in t && t[v].Pending?
    ensures FoldsOk(t, Unfolding(b, v))
  {
    var b' := Unfolding(b, v);
    assert v !in b.folds by { assert !FoldStarted(t, b, v); }
    forall u ensures FoldStarted(t, b, u) <==> FoldStarted(t, b', u) {}
    FoldsKept(t, b, t, b');
  }

  ghost function AddSlot(b: Book, v: In, w: In, slot: Option<Out>): Book
    requires v in b.eff && v in b.slots
  {
    b.(eff := b.eff[v := b.eff[v] + [w]], slots := b.slots[v := b.slots[v] + [slot]])
  }

  ghost function AddNew(b: Book, v: In, w: In): Book
    requires v in b.eff && v in b.slots
  {
    AddSlot(b, v, w, None).(work := b.work[w := Unfold], links := b.links[w := [NodeLocation(v, |b.eff[v]|)]],
                            unfolds := b.unfolds + [w])
  }

  /** A child is added to `v`: its slot is filled if it is done, and otherwise waits for it. */
  ghost predicate ChildAdded(t: Tree, b: Book, t': Tree, b': Book, v: In, w: In) {
    && KeysOk(t, b) && v in b.eff && b'.eff == b.eff[v := b.eff[v] + [w]]
    && b'.slots.Keys == b.slots.Keys && |b'.slots[v]| == |b'.eff[v]| && b'.slots == b.slots[v := b'.slots[v]]
    && b.slots[v] == b'.slots[v][..|b.slots[v]|]
    && t'.Keys == t.Keys + {w} && w in b'.links && b'.links.Keys == t'.Keys
    && (w in b.links ==> b.links[w] <= b'.links[w]) && b'.links == b.links[w := b'.links[w]]
    && (forall u :: u in t && u != w ==> t'[u] == t[u])
    && match b'.slots[v][|b.eff[v]|]
       case Some(out) => t'[w] == Done(out) && w in t && t[w] == t'[w] && b'.links == b.links
       case None =>
         && b'.links[w] == (if w in b.links then b.links[w] else []) + [NodeLocation(v, |b.eff[v]|)]
         && t'[w].Pending? && (w in t ==> t[w].Pending?)
  }

  lemma ChildAddedSlots(t: Tree, b: Book, t': Tree, b': Book, v: In, w: In)
    requires ChildAdded(t, b, t', b', v, w) && (forall l {:trigger SlotOk(t, b, l)} :: SlotOk(t, b, l))
    ensures forall l {:trigger SlotOk(t', b', l)} :: SlotOk(t', b', l)
  {
    forall l ensures SlotOk(t', b', l) {
      assert SlotOk(t, b, l);
      if SlotAt(b', l) && l == NodeLocation(v, |b.eff[v]|) {
        assert b'.eff[v][l.childIndex] == w;
      } else if SlotAt(b', l) {
        assert b'.eff[l.nodeIndex][l.childIndex] == b.eff[l.nodeIndex][l.childIndex];
        assert b'.slots[l.nodeIndex][l.childIndex] == b.slots[l.nodeIndex][l.childIndex];
        assert b.links[b.eff[l.nodeIndex][l.childIndex]] <= b'.links[b.eff[l.nodeIndex][l.childIndex]];
      }
    }
  }

  lemma ChildAddedWaits(t: Tree, b: Book, t': Tree, b': Book, v: In, w: In, l: Location, x: In)
    requires ChildAdded(t, b, t', b', v, w) && WaitsFor(b, l, x)
    ensures WaitsFor(b', l, x) && l != NodeLocation(v, |b.eff[v]|)
  {
  }

  lemma ChildAddedLinks(pb: Problem, t: Tree, b: Book, t': Tree, b': Book, v: In, w: In, x: In)
    requires ChildAdded(t, b, t', b', v, w) && LinksOk(pb, b, x) && pb.init in t
    ensures LinksOk(pb, b', x)
  {
    if x in b'.links {
      var before := if x in b.links then b.links[x] else [];
      forall i | Skip(pb, x) <= i < |before|
        ensures WaitsFor(b', before[i], x) && before[i] != NodeLocation(v, |b.eff[v]|) {
        assert WaitsFor(b, b.links[x][i], x);
        ChildAddedWaits(t, b, t', b', v, w, b.links[x][i], x);
      }
      assert b'.links[x][..|before|] == before;
      assert forall i :: 0 <= i < |before| ==> b'.links[x][i] == before[i];
      if |b'.links[x]| > |before| {
        assert b'.links[x] == before + [NodeLocation(v, |b.eff[v]|)];
        assert WaitsFor(b', NodeLocation(v, |b.eff[v]|), x);
      }
    }
  }

  lemma ChildAddedGraph(pb: Problem, t: Tree, b: Book, t': Tree, b': Book, v: In, w: In)
    requires ChildAdded(t, b, t', b', v, w) && GraphOk(pb, t, b) && pb.init in t && b'.work.Keys <= b.work.Keys + {w}
    ensures GraphOk(pb, t', b')
  {
    ChildAddedSlots(t, b, t', b', v, w);
    forall x ensures LinksOk(pb, b', x) {
      assert LinksOk(pb, b, x);
      ChildAddedLinks(pb, t, b, t', b', v, w, x);
    }
  }

  lemma ChildAddedStatuses(pb: Problem, t: Tree, b: Book, t': Tree, b': Book, v: In, w: In)
    requires ChildAdded(t, b, t', b', v, w) && StatusesOk(pb, t, b, {v})
    requires v == w || StatusOk(pb, t', b', w)
    requires forall u :: u != w ==> (u in b.work <==> u in b'.work) && (u in b.work ==> b.work[u] == b'.work[u])
    ensures StatusesOk(pb, t', b', {v})
  {
    forall u | u in t' && u !in {v} ensures StatusOk(pb, t', b', u) {
      if u != w {
        assert StatusOk(pb, t, b, u);
        StatusKept(pb, t, b, t', b', u);
      }
    }
  }

  /** The next child `w` of `v` was not seen before. */
  lemma ChildNew(pb: Problem, t: Tree, b: Book, v: In, w: In)
    requires Inv(pb, t, b, {v}) && Open(t, b, v) && w !in t
    ensures var t', b' := t[w := Pending([NodeLocation(v, |b.eff[v]|)], None)], AddNew(b, v, w);
            Inv(pb, t', b', {v}) && Open(t', b', v)
  {
    var t', b' := t[w := Pending([NodeLocation(v, |b.eff[v]|)], None)], AddNew(b, v, w);
    assert pb.init in t by { assert b.unfolds[0] in b.unfolds; }
    ChildAddedGraph(pb, t, b, t', b', v, w);
    ChildAddedStatuses(pb, t, b, t', b', v, w);
    ChildNewHistory(pb, t, b, v, w, t', b');
    OpenNotFolded(t, b, t', b', v, w);
  }

  lemma ChildAddedHistory(pb: Problem, t: Tree, b: Book, t': Tree, b': Book, v: In, w: In)
    requires UnfoldsOk(pb, t, b) && FoldsOk(t, b) && Open(t, b, v) && ChildAdded(t, b, t', b', v, w) && w in t
    requires t'[w].Done? == t[w].Done? && b'.work == b.work && b'.unfolds == b.unfolds && b'.folds == b.folds
    ensures UnfoldsOk(pb, t', b') && FoldsOk(t', b')
  {
    UnfoldsKept(pb, t, b, t', b');
    OpenNotFolded(t, b, t', b', v, w);
  }

  /** A child that was seen before. */
  lemma ChildAddedInv(pb: Problem, t: Tree, b: Book, t': Tree, b': Book, v: In, w: In)
    requires Inv(pb, t, b, {v}) && Open(t, b, v) && ChildAdded(t, b, t', b', v, w) && w in t
    requires t'[w].Done? == t[w].Done? && (v == w || StatusOk(pb, t', b', w))
    requires b'.work == b.work && b'.unfolds == b.unfolds && b'.folds == b.folds
    ensures Inv(pb, t', b', {v})
  {
    assert pb.init in t by { assert b.unfolds[0] in b.unfolds; }
    ChildAddedHistory(pb, t, b, t', b', v, w);
    ChildAddedGraph(pb, t, b, t', b', v, w);
    ChildAddedStatuses(pb, t, b, t', b', v, w);
  }

  lemma OpenNotFolded(t: Tree, b: Book, t': Tree, b': Book, v: In, w: In)
    requires FoldsOk(t, b) && Open(t, b, v) && ChildAdded(t, b, t', b', v, w) && b'.folds == b.folds
    requires if w in t then t'[w].Done? == t[w].Done? && b'.work == b.work
             else t'[w].Pending? && w !in b.work && b'.work == b.work[w := Unfold]
    ensures FoldsOk(t', b')
  {
    assert v !in b.folds by { assert !FoldStarted(t, b, v); }
    forall u ensures FoldStarted(t, b, u) <==> FoldStarted(t', b', u) {}
    FoldsKept(t, b, t', b');
  }

  lemma ChildNewHistory(pb: Problem, t: Tree, b: Book, v: In, w: In, t': Tree, b': Book)
    requires UnfoldsOk(pb, t, b) && v in t && v in b.eff && v in b.slots && w !in t
    requires t'.Keys == t.Keys + {w} && b' == AddNew(b, v, w)
    ensures UnfoldsOk(pb, t', b')
  {
    assert b.unfolds[0] in b.unfolds;
    assert forall x :: x in b'.unfolds <==> x in b.unfolds || x == w;
    forall i, j | 0 <= i < j < |b'.unfolds| ensures b'.unfolds[i] != b'.unfolds[j] {
      if j == |b.unfolds| {
        assert b.unfolds[i] in b.unfolds;
      }
    }
    assert forall k :: 0 <= k < |b.unfolds| ==> b'.unfolds[k] == b.unfolds[k];
    forall k: nat ensures FoundOk(b', k) {
      assert FoundOk(b, k);
      if 0 < k < |b.unfolds| {
        var j: nat, c: nat :| j < k && FoundAs(b, b.unfolds[k], j, c);
        assert FoundAs(b', b'.unfolds[k], j, c);
      } else if k == |b.unfolds| {
        assert v in b.unfolds;
        var j: nat :| j < |b.unfolds| && b.unfolds[j] == v;
        assert FoundAs(b', b'.unfolds[k], j, |b.eff[v]|);
      }
    }
  }

  ghost function AddLink(b: Book, v: In, w: In): Book
    requires v in b.eff && v in b.slots && w in b.links
  {
    AddSlot(b, v, w, None).(links := b.links[w := b.links[w] + [NodeLocation(v, |b.eff[v]|)]])
  }

  lemma LinkIsAdded(pb: Problem, t: Tree, b: Book, v: In, w: In)
    requires KeysOk(t, b) && Open(t, b, v) && w in t && t[w].Pending?
    requires v == w || StatusOk(pb, t, b, w)
    ensures w in b.links && t[w].parents == b.links[w]
    ensures var t', b' := t[w := t[w].(parents := t[w].parents + [NodeLocation(v, |b.eff[v]|)])], AddLink(b, v, w);
            ChildAdded(t, b, t', b', v, w) && Open(t', b', v) && (v == w || StatusOk(pb, t', b', w))
  {
    var t' := t[w := t[w].(parents := t[w].parents + [NodeLocation(v, |b.eff[v]|)])];
    assert t'.Keys == t.Keys + {w};
  }

  /** The next child `w` of `v` was seen before and is not done; it may be `v` itself. */
  lemma ChildPending(pb: Problem, t: Tree, b: Book, v: In, w: In)
    requires Inv(pb, t, b, {v}) && Open(t, b, v) && w in t && t[w].Pending?
    ensures w in b.links && t[w].parents == b.links[w]
    ensures var t', b' := t[w := t[w].(parents := t[w].parents + [NodeLocation(v, |b.eff[v]|)])], AddLink(b, v, w);
            Inv(pb, t', b', {v}) && Open(t', b', v)
  {
    assert w != v ==> StatusOk(pb, t, b, w);
    LinkIsAdded(pb, t, b, v, w);
    var t', b' := t[w := t[w].(parents := t[w].parents + [NodeLocation(v, |b.eff[v]|)])], AddLink(b, v, w);
    ChildAddedInv(pb, t, b, t', b', v, w);
  }

  /** The next child `w` of `v` is done. */
  lemma ChildDone(pb: Problem, t: Tree, b: Book, v: In, w: In)
    requires Inv(pb, t, b, {v}) && Open(t, b, v) && w in t && t[w].Done?
    ensures var b' := AddSlot(b, v, w, Some(t[w].out)); Inv(pb, t, b', {v}) && Open(t, b', v)
  {
    var b' := AddSlot(b, v, w, Some(t[w].out));
    assert w != v ==> StatusOk(pb, t, b, w);
    assert t.Keys == t.Keys + {w} && b.links == b.links[w := b.links[w]];
    ChildAddedInv(pb, t, b, t, b', v, w);
  }

  // ---------------------------------------------------------------- blocking and folding

  ghost function Blocked(pb: Problem, b: Book, v: In): Node
    requires v in b.links && v in b.slots
  {
    Pending(b.links[v], Some(Children(pb.unfold(v).context, b.slots[v], CountNone(b.slots[v]))))
  }

  /** `v` waits for children that are not done. */
  lemma Block(pb: Problem, t: Tree, b: Book, busy: set<In>, v: In)
    requires Kept(pb, t, b, busy + {v}) && Open(t, b, v) && CountNone(b.slots[v]) > 0
    ensures Kept(pb, t[v := Blocked(pb, b, v)], b, busy)
  {
    assert Look(Part.GraphTree);
    var t' := t[v := Blocked(pb, b, v)];
    forall l ensures SlotOk(t', b, l) { assert SlotOk(t, b, l); }
    forall u | u in t' && u !in busy ensures StatusOk(pb, t', b, u) { if u != v { assert StatusOk(pb, t, b, u); } }
    UnfoldsKept(pb, t, b, t', b);
    FoldsKept(t, b, t', b);
  }

  ghost function StartingFold(pb: Problem, b: Book, v: In): Book
    requires v in b.slots
  {
    b.(work := b.work[v := Fold(pb.unfold(v).context, Flatten(b.slots[v]))], folds := b.folds + [v])
  }

  /** All children of `v` are done, and its fold is started. */
  lemma StartFold(pb: Problem, t: Tree, b: Book, busy: set<In>, v: In)
    requires Kept(pb, t, b, busy + {v}) && Open(t, b, v) && CountNone(b.slots[v]) == 0
    ensures Kept(pb, t[v := Pending(b.links[v], None)], StartingFold(pb, b, v), busy)
  {
    assert Look(Part.GraphTree);
    var t', b' := t[v := Pending(b.links[v], None)], StartingFold(pb, b, v);
    CountNoneZero(b.slots[v]);
    forall l ensures SlotOk(t', b', l) { assert SlotOk(t, b, l); }
    forall w ensures LinksOk(pb, b', w) { assert LinksOk(pb, b, w); }
    forall u | u in t' && u !in busy ensures StatusOk(pb, t', b', u) { if u != v { assert StatusOk(pb, t, b, u); } }
    UnfoldsKept(pb, t, b, t', b');
    StartFoldHistory(t, b, v, t', b');
  }

  lemma StartFoldHistory(t: Tree, b: Book, v: In, t': Tree, b': Book)
    requires FoldsOk(t, b) && Open(t, b, v) && AllSome(b.slots[v]) && |b.eff[v]| == |b.slots[v]|
    requires forall loc {:trigger SlotOk(t, b, loc)} :: SlotOk(t, b, loc)
    requires t' == t[v := Pending(b.links[v], None)] && b'.folds == b.folds + [v] && b'.eff == b.eff
    requires v in b'.work && b'.work[v].Fold? && b'.work == b.work[v := b'.work[v]]
    ensures FoldsOk(t', b')
  {
    assert v !in b.folds by { assert !FoldStarted(t, b, v); }
    forall u ensures u in b'.folds <==> FoldStarted(t', b', u) {
      assert u in b'.folds <==> u in b.folds || u == v;
      assert FoldStarted(t', b', u) <==> FoldStarted(t, b, u) || u == v;
    }
    forall k: nat ensures FoldOrderOk(b', k) {
      assert FoldOrderOk(b, k);
      if k < |b.folds| {
        assert b'.folds[..k] == b.folds[..k];
      } else if k == |b.folds| {
        assert b'.folds[..k] == b.folds;
        forall c | 0 <= c < |b.eff[v]| ensures b.eff[v][c] in b.folds {
          assert SlotOk(t, b, NodeLocation(v, c));
          assert FoldStarted(t, b, b.eff[v][c]);
        }
      }
    }
  }

  // ---------------------------------------------------------------- steps of a fold

  ghost function Folded(pb: Problem, b: Book, v: In): Out
    requires v in b.slots
  {
    pb.fold(pb.unfold(v).context, Flatten(b.slots[v]))
  }

  /** The fold of `v` has completed, and `v` is not what is traversed. */
  lemma BeginFold(pb: Problem, t: Tree, b: Book, v: In)
    requires Kept(pb, t, b, {}) && v in b.work && b.work[v].Fold? && v != pb.init
    ensures v in t && v in b.slots && v in b.eff && v in b.links && t[v] == Pending(b.links[v], None)
    ensures b.work[v] == Fold(pb.unfold(v).context, Flatten(b.slots[v]))
    ensures var t', b' := t[v := Done(Folded(pb, b, v))], b.(work := b.work - {v});
            Kept(pb, t', b', {v}) && Finished(pb, t', b', v)
  {
    assert Look(Part.GraphTree);
    assert StatusOk(pb, t, b, v);
    var t', b' := t[v := Done(Folded(pb, b, v))], b.(work := b.work - {v});
    BeginFoldGraph(pb, t, b, v);
    forall u | u in t' && u !in {v} ensures StatusOk(pb, t', b', u) {
      assert StatusOk(pb, t, b, u);
      StatusKept(pb, t, b, t', b', u);
    }
    UnfoldsKept(pb, t, b, t', b');
    forall u ensures FoldStarted(t, b, u) <==> FoldStarted(t', b', u) {}
    FoldsKept(t, b, t', b');
  }

  lemma BeginFoldGraph(pb: Problem, t: Tree, b: Book, v: In)
    requires GraphOk(pb, t, b) && v in b.work && v in b.slots && t[v].Pending?
    ensures GraphOk(pb, t[v := Done(Folded(pb, b, v))], b.(work := b.work - {v}))
  {
    var t', b' := t[v := Done(Folded(pb, b, v))], b.(work := b.work - {v});
    forall l ensures SlotOk(t', b', l) { assert SlotOk(t, b, l); }
    forall w ensures LinksOk(pb, b', w) { assert LinksOk(pb, b, w); }
  }

  ghost function Delivered(b: Book, w: In, out: Out): Book
    requires w in b.links && b.links[w] != [] && SlotAt(b, b.links[w][0])
  {
    var loc := b.links[w][0];
    b.(slots := b.slots[loc.nodeIndex := b.slots[loc.nodeIndex][loc.childIndex := Some(out)]],
       links := b.links[w := b.links[w][1..]])
  }

  /** The node that waits for the first slot of a finished value is blocked. */
  lemma Waiting(pb: Problem, t: Tree, b: Book, w: In)
    requires Kept(pb, t, b, {w}) && Finished(pb, t, b, w) && w in b.links && b.links[w] != []
    ensures var loc := b.links[w][0]; var u := loc.nodeIndex;
            && WaitsFor(b, loc, w) && u != w && Open(t, b, u) && t[u] == Blocked(pb, b, u)
            && CountNone(b.slots[u]) > 0
  {
    assert Look(Part.GraphTree);
    var loc := b.links[w][0];
    assert LinksOk(pb, b, w);
    assert WaitsFor(b, loc, w);
    assert StatusOk(pb, t, b, loc.nodeIndex);
  }

  lemma DeliverSlot(pb: Problem, t: Tree, b: Book, t': Tree, w: In, l: Location)
    requires w in t && t[w].Done? && w in t' && t'[w] == t[w] && w in b.links && b.links[w] != [] && KeysOk(t, b)
    requires SlotAt(b, b.links[w][0]) && b.eff[b.links[w][0].nodeIndex][b.links[w][0].childIndex] == w
    requires forall v :: v in t ==> v in t' && (t[v].Done? ==> t'[v] == t[v])
    requires SlotOk(t, b, l)
    ensures SlotOk(t', Delivered(b, w, t[w].out), l)
  {
    assert b.links[w] == [b.links[w][0]] + b.links[w][1..];
  }

  /** The result of `w` reaches the first slot that waits for it, in node `u`. */
  lemma Deliver(pb: Problem, t: Tree, b: Book, w: In, u: In, node: Node)
    requires Kept(pb, t, b, {w}) && Finished(pb, t, b, w) && w in b.links && b.links[w] != []
             && u == b.links[w][0].nodeIndex
    requires node.Pending? && u in b.links && node.parents == b.links[u]
    ensures SlotAt(b, b.links[w][0])
    ensures var b' := Delivered(b, w, t[w].out);
            && Kept(pb, t[u := node], b', {w} + {u}) && Open(t[u := node], b', u) && Finished(pb, t[u := node], b', w)
            && CountNone(b.slots[u]) == CountNone(b'.slots[u]) + 1
  {
    assert Look(Part.GraphTree);
    Waiting(pb, t, b, w);
    var t', b' := t[u := node], Delivered(b, w, t[w].out);
    CountNoneFill(b.slots[u], b.links[w][0].childIndex, t[w].out);
    DeliverGraph(pb, t, b, t', w);
    DeliverStatuses(pb, t, b, t', b', w, u);
    UnfoldsKept(pb, t, b, t', b');
    DeliverFolds(t, b, t', b', u);
  }

  lemma DeliverGraph(pb: Problem, t: Tree, b: Book, t': Tree, w: In)
    requires GraphOk(pb, t, b) && w in t && t[w].Done? && w in b.links && b.links[w] != [] && w != pb.init
    requires t'.Keys == t.Keys && forall v :: v in t && t[v].Done? ==> t'[v] == t[v]
    ensures SlotAt(b, b.links[w][0]) && GraphOk(pb, t', Delivered(b, w, t[w].out))
  {
    assert LinksOk(pb, b, w);
    assert WaitsFor(b, b.links[w][0], w);
    var b' := Delivered(b, w, t[w].out);
    forall l ensures SlotOk(t', b', l) {
      assert SlotOk(t, b, l);
      DeliverSlot(pb, t, b, t', w, l);
    }
    forall x ensures LinksOk(pb, b', x) {
      assert LinksOk(pb, b, x);
      DeliverLinks(pb, b, w, t[w].out, x);
    }
  }

  lemma DeliverStatuses(pb: Problem, t: Tree, b: Book, t': Tree, b': Book, w: In, u: In)
    requires StatusesOk(pb, t, b, {w}) && t'.Keys == t.Keys && (forall v :: v in t && v != u ==> t'[v] == t[v])
    requires b'.work == b.work && b'.eff == b.eff && b'.slots.Keys == b.slots.Keys && b'.links.Keys == b.links.Keys
    requires forall v :: v != w && v in b.links ==> b'.links[v] == b.links[v]
    requires forall v :: v != u && v in b.slots ==> b'.slots[v] == b.slots[v]
    ensures StatusesOk(pb, t', b', {w} + {u})
  {
    forall v | v in t' && v !in {w} + {u} ensures StatusOk(pb, t', b', v) {
      assert StatusOk(pb, t, b, v);
      StatusKept(pb, t, b, t', b', v);
    }
  }

  lemma DeliverFolds(t: Tree, b: Book, t': Tree, b': Book, u: In)
    requires FoldsOk(t, b) && b'.folds == b.folds && b'.eff == b.eff && b'.work == b.work
    requires u in t && t[u].Pending? && t'.Keys == t.Keys && t'[u].Pending?
             && (forall v :: v in t && v != u ==> t'[v] == t[v])
    ensures FoldsOk(t', b')
  {
    forall v ensures FoldStarted(t, b, v) <==> FoldStarted(t', b', v) {}
    FoldsKept(t, b, t', b');
  }

  lemma DeliverLinks(pb: Problem, b: Book, w: In, out: Out, x: In)
    requires LinksOk(pb, b, w) && LinksOk(pb, b, x) && w in b.links && b.links[w] != [] && w != pb.init
    ensures SlotAt(b, b.links[w][0]) && LinksOk(pb, Delivered(b, w, out), x)
  {
    var loc := b.links[w][0];
    assert WaitsFor(b, loc, w);
    var b' := Delivered(b, w, out);
    if x in b.links {
      forall i | Skip(pb, x) <= i < |b'.links[x]| ensures WaitsFor(b', b'.links[x][i], x) {
        var i' := if x == w then i + 1 else i;
        assert b'.links[x][i] == b.links[x][i'];
        assert WaitsFor(b, b.links[x][i'], x);
      }
    }
  }

  /** No slot waits for a finished value any more. */
  lemma EndFold(pb: Problem, t: Tree, b: Book, w: In)
    requires Kept(pb, t, b, {w}) && Finished(pb, t, b, w) && w in b.links && b.links[w] == []
    ensures Kept(pb, t, b, {})
  {
    assert Look(Part.GraphTree);
    forall v | v in t && v !in {} ensures StatusOk(pb, t, b, v) { assert v != w ==> StatusOk(pb, t, b, v); }
  }

  // ---------------------------------------------------------------- the result

  /** Whatever was folded is the recursive fold of what was unfolded. */
  lemma {:induction false} FoldedInOrder(pb: Problem, t: Tree, b: Book, k: nat)
    requires Inv(pb, t, b, {}) && k < |b.folds|
    ensures b.folds[k] in b.slots && FoldAt(pb, b.eff, b.folds[k], k + 1) == Some(Folded(pb, b, b.folds[k]))
  {
    var v := b.folds[k];
    assert FoldOrderOk(b, k);
    assert v in b.folds;
    assert FoldStarted(t, b, v);
    assert StatusOk(pb, t, b, v);
    var outs := Flatten(b.slots[v]);
    FlattenAll(b.slots[v]);
    forall c | 0 <= c < |outs| ensures FoldAt(pb, b.eff, b.eff[v][c], k) == Some(outs[c]) {
      var child := b.eff[v][c];
      var i :| 0 <= i < k && b.folds[i] == child;
      FoldedInOrder(pb, t, b, i);
      FoldDeeper(pb, b.eff, child, i + 1, k);
      assert SlotOk(t, b, NodeLocation(v, c));
      assert StatusOk(pb, t, b, child);
    }
    FoldLevel(pb, b.eff, v, k, outs);
  }

  /** Every child that was given to a value is in the tree. */
  lemma EffClosed(pb: Problem, t: Tree, b: Book)
    requires GraphOk(pb, t, b) && b.eff.Keys == t.Keys
    ensures Closed(b.eff)
  {
    forall v, c | v in b.eff && 0 <= c < |b.eff[v]| ensures b.eff[v][c] in b.eff {
      assert SlotOk(t, b, NodeLocation(v, c));
    }
  }

  /** When the traversed value is being folded, everything else is done. */
  lemma {:induction false} OthersDone(pb: Problem, t: Tree, b: Book, k: nat)
    requires Inv(pb, t, b, {}) && pb.init in b.work && b.work[pb.init].Fold? && 0 < k < |b.unfolds|
    ensures b.unfolds[k] in t && t[b.unfolds[k]].Done?
  {
    assert FoundOk(b, k);
    var j: nat, c: nat :| j < k && FoundAs(b, b.unfolds[k], j, c);
    var p := b.unfolds[j];
    if j > 0 {
      OthersDone(pb, t, b, j);
    }
    assert StatusOk(pb, t, b, p);
    assert SlotOk(t, b, NodeLocation(p, c));
  }

  /** Everything found can be reached from the traversed value. */
  lemma {:induction false} FoundReachable(pb: Problem, t: Tree, b: Book, k: nat)
    requires UnfoldsOk(pb, t, b) && b.eff.Keys == t.Keys && k < |b.unfolds|
    ensures Reachable(b.eff, pb.init, b.unfolds[k])
  {
    assert b.unfolds[k] in b.unfolds;
    assert FoundOk(b, k);
    if k == 0 {
      assert IsPath(b.eff, [pb.init]);
    } else {
      var j: nat, c: nat :| j < k && FoundAs(b, b.unfolds[k], j, c);
      FoundReachable(pb, t, b, j);
      var p :| IsPath(b.eff, p) && p[0] == pb.init && p[|p| - 1] == b.unfolds[j];
      PathTo(b.eff, p, b.unfolds[k]);
      assert (p + [b.unfolds[k]])[0] == pb.init;
    }
  }

  /** The calls of `unfold` and `fold` when every value found was unfolded and all work is done, except perhaps
      the last fold. */
  lemma CallsMade(pb: Problem, t: Tree, b: Book)
    requires Kept(pb, t, b, {}) && b.eff.Keys == t.Keys && Closed(b.eff)
    requires b.work == map[] || (b.work.Keys == {pb.init} && b.work[pb.init].Fold?)
    ensures forall i, j :: 0 <= i < j < |b.unfolds| ==> b.unfolds[i] != b.unfolds[j]
    ensures forall i, j :: 0 <= i < j < |b.folds| ==> b.folds[i] != b.folds[j]
    ensures forall v :: v in b.unfolds <==> v in b.eff
    ensures forall v {:trigger b.eff[v]} :: v in b.eff ==> Reachable(b.eff, pb.init, v)
    ensures forall v {:trigger b.eff[v]} :: v in b.eff ==> (v in b.folds <==> RecFold(pb, b.eff, v).Some?)
    ensures |b.eff| == |t|
  {
    assert Look(Part.GraphTree);
    assert |b.eff| == |b.eff.Keys| && |t| == |t.Keys|;
    forall v | v in b.eff ensures Reachable(b.eff, pb.init, v) {
      assert v in b.unfolds;
      var k: nat :| k < |b.unfolds| && b.unfolds[k] == v;
      FoundReachable(pb, t, b, k);
    }
    forall v | v in b.eff ensures v in b.folds <==> RecFold(pb, b.eff, v).Some? {
      FoldedOrBlocked(pb, t, b, v);
    }
  }

  lemma FoldedOrBlocked(pb: Problem, t: Tree, b: Book, v: In)
    requires Inv(pb, t, b, {}) && v in t && b.eff.Keys == t.Keys && Closed(b.eff)
    requires b.work == map[] || (b.work.Keys == {pb.init} && b.work[pb.init].Fold?)
    ensures v in b.folds <==> RecFold(pb, b.eff, v).Some?
  {
    assert v in b.folds <==> FoldStarted(t, b, v);
    if v in b.folds {
      var k: nat :| k < |b.folds| && b.folds[k] == v;
      FoldedInOrder(pb, t, b, k);
      FoldUnique(pb, b.eff, v, k + 1);
    } else {
      if b.work == map[] {
        BlockedForEver(pb, t, b, v, |b.eff|);
      } else {
        assert v in b.unfolds;
        var k: nat :| k < |b.unfolds| && b.unfolds[k] == v;
        OthersDone(pb, t, b, k);
      }
    }
  }

  /** When the fold of the traversed value completes, nothing else is going on, every value was unfolded,
      and the result is the recursive fold. */
  lemma InitFolded(pb: Problem, t: Tree, b: Book)
    requires Kept(pb, t, b, {}) && pb.init in b.work && b.work[pb.init].Fold?
    ensures b.work.Keys == {pb.init} && b.eff.Keys == t.Keys && Closed(b.eff) && pb.init in b.eff
    ensures pb.init in b.slots && b.work[pb.init] == Fold(pb.unfold(pb.init).context, Flatten(b.slots[pb.init]))
    ensures RecFold(pb, b.eff, pb.init) == Some(Folded(pb, b, pb.init))
  {
    assert Look(Part.GraphTree);
    assert StatusOk(pb, t, b, pb.init);
    forall v | v in t && v != pb.init ensures v !in b.work && v in b.eff {
      assert v in b.unfolds;
      var k: nat :| k < |b.unfolds| && b.unfolds[k] == v;
      OthersDone(pb, t, b, k);
      assert StatusOk(pb, t, b, v);
    }
    EffClosed(pb, t, b);
    assert FoldStarted(t, b, pb.init);
    assert pb.init in b.folds;
    var k: nat :| k < |b.folds| && b.folds[k] == pb.init;
    FoldedInOrder(pb, t, b, k);
    FoldUnique(pb, b.eff, pb.init, k + 1);
  }

  /** When nothing is going on, no blocked value has a fold, of whatever depth. */
  lemma {:induction false} BlockedForEver(pb: Problem, t: Tree, b: Book, v: In, n: nat)
    requires Inv(pb, t, b, {}) && b.work == map[] && v in t && t[v].Pending?
    ensures FoldAt(pb, b.eff, v, n).None?
    decreases n
  {
    assert StatusOk(pb, t, b, v);
    if n > 0 {
      CountNoneZero(b.slots[v]);
      var c :| 0 <= c < |b.slots[v]| && b.slots[v][c].None?;
      var child := b.eff[v][c];
      assert SlotOk(t, b, NodeLocation(v, c));
      assert StatusOk(pb, t, b, child);
      BlockedForEver(pb, t, b, child, n - 1);
    }
  }

  /** When nothing is going on, the traversed value has no fold. */
  lemma InitBlocked(pb: Problem, t: Tree, b: Book)
    requires Kept(pb, t, b, {}) && b.work == map[]
    ensures b.eff.Keys == t.Keys && Closed(b.eff) && pb.init in b.eff
    ensures RecFold(pb, b.eff, pb.init) == None
  {
    assert Look(Part.GraphTree);
    assert pb.init in t by { assert b.unfolds[0] in b.unfolds; }
    forall v | v in t ensures v in b.eff { assert StatusOk(pb, t, b, v); }
    EffClosed(pb, t, b);
    assert StatusOk(pb, t, b, pb.init);
    BlockedForEver(pb, t, b, pb.init, |b.eff|);
  }
}
