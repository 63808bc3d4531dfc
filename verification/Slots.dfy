/** The results of the children of a node, as far as they are known. */
module Slots {
  import opened Common

  ghost predicate AllSome<T>(slots: seq<Option<T>>) {
    forall c :: 0 <= c < |slots| ==> slots[c].Some?
  }

  /** The values that are present. */
  function Flatten<T>(slots: seq<Option<T>>): seq<T> {
    if slots == [] then []
    else Flatten(slots[..|slots| - 1]) + (if slots[|slots| - 1].Some? then [slots[|slots| - 1].value] else [])
  }

  ghost function CountNone<T>(slots: seq<Option<T>>): nat {
    if slots == [] then 0 else CountNone(slots[..|slots| - 1]) + (if slots[|slots| - 1].None? then 1 else 0)
  }

  lemma {:induction false} FlattenAll<T>(slots: seq<Option<T>>)
    requires AllSome(slots)
    ensures |Flatten(slots)| == |slots|
    ensures forall c :: 0 <= c < |slots| ==> slots[c] == Some(Flatten(slots)[c])
  {
    if slots != [] {
      var init := slots[..|slots| - 1];
      assert forall c :: 0 <= c < |init| ==> init[c] == slots[c];
      FlattenAll(init);
    }
  }

  lemma {:induction false} CountNoneZero<T>(slots: seq<Option<T>>)
    ensures CountNone(slots) == 0 <==> AllSome(slots)
  {
    if slots != [] {
      var init := slots[..|slots| - 1];
      assert forall c :: 0 <= c < |init| ==> init[c] == slots[c];
      CountNoneZero(init);
    }
  }

  lemma {:induction false} CountNoneFill<T>(slots: seq<Option<T>>, c: nat, out: T)
    requires c < |slots| && slots[c].None?
    ensures CountNone(slots) == CountNone(slots[c := Some(out)]) + 1
  {
    var init, filled := slots[..|slots| - 1], slots[c := Some(out)];
    if c < |init| {
      assert filled[..|slots| - 1] == init[c := Some(out)];
      CountNoneFill(init, c, out);
    } else {
      assert filled[..|slots| - 1] == init;
    }
  }

  lemma CountNoneAppend<T>(slots: seq<Option<T>>, slot: Option<T>)
    ensures CountNone(slots + [slot]) == CountNone(slots) + if slot.None? then 1 else 0
  {
    assert (slots + [slot])[..|slots|] == slots;
  }
}
