/** Concatenating the sequences a function gives for each element, in order. */
module Seqs {

  /** The sequences `f` gives for the elements of `xs`, concatenated in order. */
  function FlatMap<A, B>(f: A -> seq<B>, xs: seq<A>): seq<B>
    decreases |xs|
  {
    if xs == [] then [] else FlatMap(f, xs[..|xs| - 1]) + f(xs[|xs| - 1])
  }

  /** FlatMap over a concatenation is the concatenation of the FlatMaps. */
  lemma {:induction false} FlatMapAppend<A, B>(f: A -> seq<B>, xs: seq<A>, ys: seq<A>)
    ensures FlatMap(f, xs + ys) == FlatMap(f, xs) + FlatMap(f, ys)
    decreases |ys|
  {
    if ys == [] {
      assert xs + ys == xs;
    } else {
      var ys' := ys[..|ys| - 1];
      assert (xs + ys)[..|xs + ys| - 1] == xs + ys';
      assert (xs + ys)[|xs + ys| - 1] == ys[|ys| - 1];
      FlatMapAppend(f, xs, ys');
    }
  }

  /** A FlatMap starts with the first element's sequence. */
  lemma FlatMapFirst<A, B>(f: A -> seq<B>, xs: seq<A>)
    requires xs != []
    ensures FlatMap(f, xs) == f(xs[0]) + FlatMap(f, xs[1..])
  {
    assert xs == [xs[0]] + xs[1..];
    assert FlatMap(f, [xs[0]]) == FlatMap(f, []) + f(xs[0]);
    FlatMapAppend(f, [xs[0]], xs[1..]);
  }

  /** Every element of a FlatMap comes from the sequence of some element. */
  lemma {:induction false} FlatMapOrigin<A, B>(f: A -> seq<B>, xs: seq<A>, k: nat)
    requires k < |FlatMap(f, xs)|
    ensures exists i :: 0 <= i < |xs| && FlatMap(f, xs)[k] in f(xs[i])
    decreases |xs|
  {
    var init := xs[..|xs| - 1];
    var before := FlatMap(f, init);
    if k < |before| {
      FlatMapOrigin(f, init, k);
      var i :| 0 <= i < |init| && before[k] in f(init[i]);
      assert xs[i] == init[i];
    } else {
      assert FlatMap(f, xs)[k] == f(xs[|xs| - 1])[k - |before|];
    }
  }
}
