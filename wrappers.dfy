/** Option, the stand-in for Java's null and for an exception. */
module Wrappers {

  datatype Option<+T> = None | Some(value: T)

  /** f applied to every element in order: Some of the results if every one is Some, None at the first None. */
  function AllSome<A, B>(f: A -> Option<B>, xs: seq<A>): (r: Option<seq<B>>)
    ensures r.Some? ==> |r.value| == |xs| && forall k :: 0 <= k < |xs| ==> f(xs[k]) == Some(r.value[k])
  {
    if xs == [] then Some([])
    else
      var front := AllSome(f, xs[..|xs| - 1]);
      var last := f(xs[|xs| - 1]);
      if front.None? || last.None? then None
      else
        assert forall k :: 0 <= k < |xs| - 1 ==> xs[..|xs| - 1][k] == xs[k];
        Some(front.value + [last.value])
  }

  /** Conversely, when every element gives Some, AllSome gives exactly those values. */
  lemma {:induction false} AllSomeOf<A, B>(f: A -> Option<B>, xs: seq<A>, ys: seq<B>)
    requires |xs| == |ys| && forall k :: 0 <= k < |xs| ==> f(xs[k]) == Some(ys[k])
    ensures AllSome(f, xs) == Some(ys)
    decreases |xs|
  {
    if xs != [] {
      var n := |xs| - 1;
      AllSomeOf(f, xs[..n], ys[..n]);
      assert ys[..n] + [ys[n]] == ys;
    }
  }
}
