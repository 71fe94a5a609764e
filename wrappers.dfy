/** The optional value shared by the other modules. */
module Wrappers {

  /** `None` stands for a Go panic or another missing result. */
  datatype Option<+T> = None | Some(value: T)

  /** All the values when none is missing, in order; `None` otherwise. */
  function Collect<T>(xs: seq<Option<T>>): Option<seq<T>>
  {
    if xs == [] then Some([])
    else
      var init := Collect(xs[..|xs| - 1]);
      if init.None? || xs[|xs| - 1].None? then None else Some(init.value + [xs[|xs| - 1].value])
  }

  lemma {:induction false} CollectShape<T>(xs: seq<Option<T>>)
    ensures Collect(xs).Some? <==> forall i :: 0 <= i < |xs| ==> xs[i].Some?
    ensures Collect(xs).Some? ==>
      |Collect(xs).value| == |xs| && forall i :: 0 <= i < |xs| ==> Collect(xs).value[i] == xs[i].value
  {
    if xs != [] {
      var init := xs[..|xs| - 1];
      CollectShape(init);
      assert forall i :: 0 <= i < |init| ==> init[i] == xs[i];
    }
  }

  lemma CollectSnoc<T>(xs: seq<Option<T>>, i: nat)
    requires i < |xs| && Collect(xs[..i]).Some? && xs[i].Some?
    ensures Collect(xs[..i + 1]) == Some(Collect(xs[..i]).value + [xs[i].value])
  {
    assert xs[..i + 1][..i] == xs[..i];
  }

  lemma CollectNone<T>(xs: seq<Option<T>>, i: nat)
    requires i < |xs| && xs[i].None?
    ensures Collect(xs).None?
  {
    CollectShape(xs);
  }
}
