/** Element-wise views of sequences, used to state what a loop over lines computes. */
module Seqs {
  /** `[f(x) for x in xs]`. */
  function MapSeq<A, B>(f: A -> B, xs: seq<A>): (ys: seq<B>)
    ensures |ys| == |xs|
    ensures forall n :: 0 <= n < |xs| ==> ys[n] == f(xs[n])
  {
    if xs == [] then [] else MapSeq(f, xs[..|xs| - 1]) + [f(xs[|xs| - 1])]
  }

  /** `any(p(x) for x in xs)`. */
  predicate AnyOf<A>(p: A -> bool, xs: seq<A>)
    ensures AnyOf(p, xs) <==> exists n :: 0 <= n < |xs| && p(xs[n])
  {
    xs != [] && (AnyOf(p, xs[..|xs| - 1]) || p(xs[|xs| - 1]))
  }

  lemma MapSeqSnoc<A, B>(f: A -> B, xs: seq<A>, x: A)
    ensures MapSeq(f, xs + [x]) == MapSeq(f, xs) + [f(x)]
  {
    assert (xs + [x])[..|xs|] == xs;
  }

  lemma AnyOfSnoc<A>(p: A -> bool, xs: seq<A>, x: A)
    ensures AnyOf(p, xs + [x]) == (AnyOf(p, xs) || p(x))
  {
    assert (xs + [x])[..|xs|] == xs;
  }

  /**
   * The dictionary `d[key(x)] = x` filled from `xs` in order, skipping the
   * elements `keep` rejects: a later element replaces an earlier one.
   */
  function KeyedBy<A, K>(xs: seq<A>, keep: A -> bool, key: A -> K): map<K, A> {
    if xs == [] then map[]
    else
      var index := KeyedBy(xs[..|xs| - 1], keep, key);
      var x := xs[|xs| - 1];
      if keep(x) then index[key(x) := x] else index
  }

  /** A key is present exactly when some kept element has it, and it maps to the last such element. */
  lemma {:induction false} KeyedByMeaning<A, K>(xs: seq<A>, keep: A -> bool, key: A -> K, k: K)
    ensures k in KeyedBy(xs, keep, key) <==> exists i :: 0 <= i < |xs| && keep(xs[i]) && key(xs[i]) == k
    ensures k in KeyedBy(xs, keep, key) ==>
      exists i :: 0 <= i < |xs| && keep(xs[i]) && key(xs[i]) == k
        && KeyedBy(xs, keep, key)[k] == xs[i]
        && forall j :: i < j < |xs| ==> !(keep(xs[j]) && key(xs[j]) == k)
  {
    if xs != [] {
      var init := xs[..|xs| - 1];
      var x := xs[|xs| - 1];
      KeyedByMeaning(init, keep, key, k);
      if keep(x) && key(x) == k {
        assert xs[|xs| - 1] == x;
      } else if k in KeyedBy(init, keep, key) {
        var i :| 0 <= i < |init| && keep(init[i]) && key(init[i]) == k
          && KeyedBy(init, keep, key)[k] == init[i]
          && forall j :: i < j < |init| ==> !(keep(init[j]) && key(init[j]) == k);
        assert xs[i] == init[i];
        forall j | i < j < |xs|
          ensures !(keep(xs[j]) && key(xs[j]) == k)
        {
          if j < |init| {
            assert xs[j] == init[j];
          }
        }
      } else {
        forall i | 0 <= i < |xs|
          ensures !(keep(xs[i]) && key(xs[i]) == k)
        {
          if i < |init| {
            assert xs[i] == init[i];
          }
        }
      }
    }
  }
}
