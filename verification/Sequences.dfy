/** Prefixes, slices and concatenation, shared by the splitting and joining models. */
module Sequences {

  function Flatten<T>(ps: seq<seq<T>>): seq<T> {
    if ps == [] then [] else Flatten(ps[..|ps| - 1]) + ps[|ps| - 1]
  }

  /** A concatenation, with the last element taken off. */
  lemma ConcatSnoc<T>(a: seq<T>, b: seq<T>)
    requires b != []
    ensures var n := |b| - 1; a + b == a + b[..n] + [b[n]] && b == b[..n] + [b[n]]
  {
  }

  /** Where the elements are after k was put in at position i. */
  lemma SpliceAt<T>(q: seq<T>, i: nat, k: T, x: nat)
    requires i <= |q| && x <= |q|
    ensures (q[..i] + [k] + q[i..])[x] == if x < i then q[x] else if x == i then k else q[x - 1]
  {
  }

  lemma SliceJoin<T>(xs: seq<T>, a: nat, b: nat)
    requires a <= b <= |xs|
    ensures xs[..a] + xs[a..b] == xs[..b]
  {
  }

  lemma PrefixSnoc<T>(xs: seq<T>, whole: seq<T>)
    requires xs <= whole && |xs| < |whole|
    ensures xs + [whole[|xs|]] <= whole
  {
  }

  lemma FlattenSnoc<T>(ps: seq<seq<T>>, p: seq<T>)
    ensures Flatten(ps + [p]) == Flatten(ps) + p
  {
    assert (ps + [p])[..|ps|] == ps;
  }
}
