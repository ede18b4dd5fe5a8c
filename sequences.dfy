/** Order-keeping selection from a sequence, shared by every filter of the
    project (the search filter of the viewer, the blank-line filter of the
    rulebook scripts), and how a prefix grows by one or two elements, which
    the line-by-line loops rely on. */
module Sequences {

  /** `a` is `b` with some elements left out and the rest in their order. */
  predicate IsSubsequence<T(==)>(a: seq<T>, b: seq<T>)
    decreases |b|
  {
    if a == [] then true
    else if b == [] then false
    else if a[0] == b[0] then IsSubsequence(a[1..], b[1..])
    else IsSubsequence(a, b[1..])
  }

  /** A prefix one element longer. */
  lemma TakeOne<T>(xs: seq<T>, i: nat)
    requires i < |xs|
    ensures xs[..i + 1] == xs[..i] + [xs[i]]
  {
  }

  /** A prefix two elements longer. */
  lemma TakeTwo<T>(xs: seq<T>, k: nat)
    requires k + 1 < |xs|
    ensures xs[..k + 2] == xs[..k] + [xs[k]] + [xs[k + 1]]
  {
  }
}
