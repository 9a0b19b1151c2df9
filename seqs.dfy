/** Sequence helpers shared by the modules that build one record per input. */
module Seqs {

  /** `f` applied to every element, in order. */
  function Map<A, B>(f: A -> B, xs: seq<A>): (ys: seq<B>)
    ensures |ys| == |xs|
    ensures forall i :: 0 <= i < |xs| ==> ys[i] == f(xs[i])
  {
    seq(|xs|, i requires 0 <= i < |xs| => f(xs[i]))
  }

  /** Mapping one more element appends its image. */
  lemma MapGrow<A, B>(f: A -> B, xs: seq<A>, i: int)
    requires 0 <= i < |xs|
    ensures Map(f, xs[..i + 1]) == Map(f, xs[..i]) + [f(xs[i])]
  {
    var a := Map(f, xs[..i + 1]);
    var b := Map(f, xs[..i]) + [f(xs[i])];
    forall k | 0 <= k < |a|
      ensures a[k] == b[k]
    {
      assert xs[..i + 1][k] == xs[k];
      if k < i {
        assert xs[..i][k] == xs[k];
      }
    }
  }
}
