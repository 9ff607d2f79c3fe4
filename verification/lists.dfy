/** Sequence helpers for the element selections the strategies walk through. */
module Lists {
  import opened Wrappers

  /** The first element of a selection, as jsoup's `Elements.first()`: `None`
      when the selection is empty. */
  function First<T>(xs: seq<T>): (r: Option<T>)
    ensures r.None? <==> |xs| == 0
    ensures r.Some? ==> r.value == xs[0]
  {
    if |xs| == 0 then None else Some(xs[0])
  }

  /** Walks `xs` in order, applies `f` to each element and keeps the `Some`
      results: the shape of a loop that converts each selected element and
      skips (`continue`s past) the ones it cannot convert. */
  function FilterMap<A, B>(xs: seq<A>, f: A -> Option<B>): (r: seq<B>)
    ensures |r| <= |xs|
    ensures forall y :: y in r ==> exists i :: 0 <= i < |xs| && f(xs[i]) == Some(y)
    ensures forall i :: 0 <= i < |xs| && f(xs[i]).Some? ==> f(xs[i]).value in r
    decreases |xs|
  {
    if |xs| == 0 then []
    else
      var init := xs[..|xs| - 1];
      var rest := FilterMap(init, f);
      assert forall i :: 0 <= i < |init| ==> init[i] == xs[i];
      match f(xs[|xs| - 1])
      case Some(y) => rest + [y]
      case None => rest
  }

  /** The positions in `xs` that `FilterMap` keeps, in increasing order. */
  function KeptIndices<A, B>(xs: seq<A>, f: A -> Option<B>): (ix: seq<nat>)
    ensures forall k :: 0 <= k < |ix| ==> ix[k] < |xs| && f(xs[ix[k]]).Some?
    ensures forall k, l :: 0 <= k < l < |ix| ==> ix[k] < ix[l]
    ensures forall i :: 0 <= i < |xs| && f(xs[i]).Some? ==> i in ix
    decreases |xs|
  {
    if |xs| == 0 then []
    else
      var init := xs[..|xs| - 1];
      var rest := KeptIndices(init, f);
      assert forall i :: 0 <= i < |init| ==> init[i] == xs[i];
      if f(xs[|xs| - 1]).Some? then rest + [|xs| - 1] else rest
  }

  /** `FilterMap` keeps one result per kept position. */
  lemma {:induction false} FilterMapLength<A, B>(xs: seq<A>, f: A -> Option<B>)
    ensures |FilterMap(xs, f)| == |KeptIndices(xs, f)|
    decreases |xs|
  {
    if |xs| > 0 {
      FilterMapLength(xs[..|xs| - 1], f);
    }
  }

  /** The k-th kept result is the conversion of the k-th kept position: together
      with the contract of `KeptIndices`, `FilterMap` keeps exactly the
      convertible elements, in their original order. */
  lemma {:induction false} FilterMapFollowsKeptIndices<A, B>(xs: seq<A>, f: A -> Option<B>, k: nat)
    requires k < |KeptIndices(xs, f)|
    ensures k < |FilterMap(xs, f)|
    ensures f(xs[KeptIndices(xs, f)[k]]) == Some(FilterMap(xs, f)[k])
    decreases |xs|
  {
    var init := xs[..|xs| - 1];
    var last := xs[|xs| - 1];
    var ix, r := KeptIndices(init, f), FilterMap(init, f);
    FilterMapLength(init, f);
    assert KeptIndices(xs, f) == if f(last).Some? then ix + [|xs| - 1] else ix;
    assert FilterMap(xs, f) == if f(last).Some? then r + [f(last).value] else r;
    if k < |ix| {
      FilterMapFollowsKeptIndices(init, f, k);
      assert init[ix[k]] == xs[ix[k]];
    }
  }
}
