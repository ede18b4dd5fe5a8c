/** The optional value used wherever the source has a nullable result or a
    step that can throw. */
module Wrappers {

  datatype Option<+T> = None | Some(value: T) {

    /** The wrapped value, or `default` when there is none. */
    function GetOr(default: T): T {
      match this
      case Some(v) => v
      case None => default
    }
  }

  /** The values of a run of steps that may each fail: all of them, in order,
      or `None` as soon as one fails (the steps of one `try` block). */
  function AllSome<T>(xs: seq<Option<T>>): Option<seq<T>>
    decreases |xs|
  {
    if xs == [] then Some([])
    else
      match AllSome(xs[..|xs| - 1])
      case None => None
      case Some(acc) =>
        match xs[|xs| - 1]
        case None => None
        case Some(x) => Some(acc + [x])
  }

  /** The run fails exactly when one of its steps fails. */
  lemma {:induction false} AllSomeFailsIff<T>(xs: seq<Option<T>>)
    ensures AllSome(xs).None? <==> exists k :: 0 <= k < |xs| && xs[k].None?
    decreases |xs|
  {
    if xs != [] {
      var init := xs[..|xs| - 1];
      AllSomeFailsIff(init);
      assert forall k :: 0 <= k < |init| ==> init[k] == xs[k];
    }
  }

  /** A step that fails makes the whole run fail. */
  lemma AllSomeFails<T>(xs: seq<Option<T>>, k: nat)
    requires k < |xs| && xs[k].None?
    ensures AllSome(xs).None?
  {
    AllSomeFailsIff(xs);
  }

  /** A run that succeeds holds one value per step, in step order. */
  lemma {:induction false} AllSomeValues<T>(xs: seq<Option<T>>, vs: seq<T>)
    requires AllSome(xs) == Some(vs)
    ensures |vs| == |xs|
    ensures forall k :: 0 <= k < |xs| ==> xs[k] == Some(vs[k])
    decreases |xs|
  {
    if xs != [] {
      var init := xs[..|xs| - 1];
      var acc := AllSome(init).value;
      AllSomeValues(init, acc);
      assert vs == acc + [xs[|xs| - 1].value];
      assert forall k :: 0 <= k < |init| ==> init[k] == xs[k];
    }
  }

  /** The prefix of a successful run succeeds with a prefix of its values. */
  lemma AllSomeStep<T>(xs: seq<Option<T>>, k: nat, vs: seq<T>, v: T)
    requires k < |xs| && AllSome(xs[..k]) == Some(vs) && xs[k] == Some(v)
    ensures AllSome(xs[..k + 1]) == Some(vs + [v])
  {
    assert xs[..k + 1][..k] == xs[..k];
  }

  /** The values of the steps that succeeded before the first failure: what a
      loop that appends each value and stops at the first exception has built
      when the exception is caught. */
  function TakeWhileSome<T>(xs: seq<Option<T>>): (r: seq<T>)
    ensures |r| <= |xs|
    ensures forall k :: 0 <= k < |r| ==> xs[k] == Some(r[k])
    ensures |r| < |xs| ==> xs[|r|].None?
    decreases |xs|
  {
    if xs == [] || xs[0].None? then []
    else
      var rest := TakeWhileSome(xs[1..]);
      assert forall k :: 1 <= k <= |rest| ==> xs[k] == xs[1..][k - 1];
      [xs[0].value] + rest
  }

  /** Those values are pinned down by where the first failure is. */
  lemma TakeWhileSomeIs<T>(xs: seq<Option<T>>, vs: seq<T>)
    requires |vs| <= |xs|
    requires forall k :: 0 <= k < |vs| ==> xs[k] == Some(vs[k])
    requires |vs| < |xs| ==> xs[|vs|].None?
    ensures TakeWhileSome(xs) == vs
  {
  }

  /** One more value read in order. */
  lemma SomePrefixStep<T>(xs: seq<Option<T>>, vs: seq<T>, v: T)
    requires |vs| < |xs| && xs[|vs|] == Some(v)
    requires forall k :: 0 <= k < |vs| ==> xs[k] == Some(vs[k])
    ensures forall k :: 0 <= k < |vs + [v]| ==> xs[k] == Some((vs + [v])[k])
  {
  }

  /** A run without failure keeps every value. */
  lemma TakeWhileSomeAll<T>(xs: seq<Option<T>>, vs: seq<T>)
    requires AllSome(xs) == Some(vs)
    ensures TakeWhileSome(xs) == vs
  {
    AllSomeValues(xs, vs);
    TakeWhileSomeIs(xs, vs);
  }
}
