/** Small shared vocabulary: an optional value, as Python's `None`-or-value returns. */
module Base {
  datatype Option<T> = None | Some(value: T)

  function Min(a: int, b: int): int { if a <= b then a else b }

  /**
   * `f` applied to every element in order, the way `list(generator)` collects a
   * generator: the first `None` stands for the exception that ends the whole list.
   */
  function MapAll<A, B>(xs: seq<A>, f: A -> Option<B>): (r: Option<seq<B>>)
    ensures r.Some? <==> forall k :: 0 <= k < |xs| ==> f(xs[k]).Some?
    ensures r.Some? ==> |r.value| == |xs| && forall k :: 0 <= k < |xs| ==> Some(r.value[k]) == f(xs[k])
  {
    if xs == [] then Some([])
    else
      match f(xs[0])
      case None => None
      case Some(x) =>
        var rest := MapAll(xs[1..], f);
        assert forall k :: 1 <= k < |xs| ==> xs[k] == xs[1..][k - 1];
        match rest
        case None => None
        case Some(ys) => Some([x] + ys)
  }

  /** The collecting loop: `f` on each element in turn, stopping at the first failure. */
  method CollectAll<A, B>(xs: seq<A>, f: A -> Option<B>) returns (r: Option<seq<B>>)
    ensures r == MapAll(xs, f)
  {
    var found: seq<B> := [];
    var i := 0;
    while i < |xs|
      invariant 0 <= i <= |xs| && |found| == i
      invariant forall k :: 0 <= k < i ==> f(xs[k]) == Some(found[k])
    {
      var y := f(xs[i]);
      if y.None? {
        return None;
      }
      found := found + [y.value];
      i := i + 1;
    }
    var all := MapAll(xs, f);
    assert all.value == found;
    r := Some(found);
  }

  /** The index of the first element satisfying `p`, as `.filter(...).first()` finds a row. */
  function First<T>(xs: seq<T>, p: T -> bool): (r: Option<nat>)
    ensures r.Some? ==> r.value < |xs| && p(xs[r.value]) && forall j :: 0 <= j < r.value ==> !p(xs[j])
    ensures r.None? ==> forall j :: 0 <= j < |xs| ==> !p(xs[j])
  {
    if xs == [] then None
    else if p(xs[0]) then Some(0)
    else
      var rest := First(xs[1..], p);
      assert forall j :: 1 <= j < |xs| ==> xs[j] == xs[1..][j - 1];
      match rest
      case None => None
      case Some(k) => Some(k + 1)
  }

  /** The first match is unaffected by elements appended after it. */
  lemma FirstAppend<T>(xs: seq<T>, ys: seq<T>, p: T -> bool)
    ensures First(xs + ys, p) == match First(xs, p)
      case Some(k) => Some(k)
      case None => match First(ys, p) case Some(k) => Some(|xs| + k) case None => None
  {
    var r, rx, ry := First(xs + ys, p), First(xs, p), First(ys, p);
    if rx.Some? {
      assert (xs + ys)[rx.value] == xs[rx.value];
    } else if ry.Some? {
      assert (xs + ys)[|xs| + ry.value] == ys[ry.value];
    }
  }
}
