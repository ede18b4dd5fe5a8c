/** The library sorts of the viewer (`sorted()` on the key strings and
    `sortedWith(comparator)`), both stable, modelled by one stable insertion
    sort over a "less than or equal" predicate. */
module Sorting {

  /** What a comparator must be for sorting by it to be well defined:
      total and transitive. */
  ghost predicate TotalPreorder(le: (string, string) -> bool) {
    && (forall a, b :: le(a, b) || le(b, a))
    && (forall a, b, c :: le(a, b) && le(b, c) ==> le(a, c))
  }

  predicate SortedBy(s: seq<string>, le: (string, string) -> bool) {
    forall i, j :: 0 <= i < j < |s| ==> le(s[i], s[j])
  }

  /** Puts `x` in front of the first element strictly greater than it, so an
      element equal to `x` that was placed earlier stays in front of it. */
  function Insert(x: string, s: seq<string>, le: (string, string) -> bool): (r: seq<string>)
    ensures |r| == |s| + 1
    ensures multiset(r) == multiset(s) + multiset{x}
    decreases |s|
  {
    if s == [] then [x]
    else if le(s[0], x) then
      assert s == [s[0]] + s[1..];
      [s[0]] + Insert(x, s[1..], le)
    else [x] + s
  }

  /** The stable sort: elements are inserted in input order. */
  function InsertionSort(s: seq<string>, le: (string, string) -> bool): (r: seq<string>)
    ensures |r| == |s|
    ensures multiset(r) == multiset(s)
    decreases |s|
  {
    if s == [] then []
    else
      assert s == s[..|s| - 1] + [s[|s| - 1]];
      Insert(s[|s| - 1], InsertionSort(s[..|s| - 1], le), le)
  }

  lemma {:induction false} InsertKeepsSorted(x: string, s: seq<string>, le: (string, string) -> bool)
    requires TotalPreorder(le)
    requires SortedBy(s, le)
    ensures SortedBy(Insert(x, s, le), le)
    decreases |s|
  {
    if s != [] {
      if le(s[0], x) {
        var rest := s[1..];
        assert SortedBy(rest, le) && forall k :: 0 <= k < |rest| ==> le(s[0], rest[k]) by {
          assert forall k :: 0 <= k < |rest| ==> rest[k] == s[k + 1];
        }
        InsertKeepsSorted(x, rest, le);
        InsertAbove(x, rest, le, s[0]);
        ConsSorted(s[0], Insert(x, rest, le), le);
        assert Insert(x, s, le) == [s[0]] + Insert(x, rest, le);
      } else {
        assert le(x, s[0]);
        forall k | 0 <= k < |s| ensures le(x, s[k]) {
          if k > 0 {
            assert le(s[0], s[k]);
          }
        }
        ConsSorted(x, s, le);
        assert Insert(x, s, le) == [x] + s;
      }
    }
  }

  /** A bound below every element of a sorted sequence, put in front of it,
      keeps it sorted. */
  lemma ConsSorted(h: string, t: seq<string>, le: (string, string) -> bool)
    requires SortedBy(t, le) && forall k :: 0 <= k < |t| ==> le(h, t[k])
    ensures SortedBy([h] + t, le)
  {
    var r := [h] + t;
    forall i, j | 0 <= i < j < |r| ensures le(r[i], r[j]) {
      assert r[j] == t[j - 1];
      if i > 0 {
        assert r[i] == t[i - 1];
      }
    }
  }

  /** A bound below `x` and below every element of `s` is below every element
      of the insertion. */
  lemma InsertAbove(x: string, s: seq<string>, le: (string, string) -> bool, h: string)
    requires le(h, x) && forall k :: 0 <= k < |s| ==> le(h, s[k])
    ensures forall k :: 0 <= k < |Insert(x, s, le)| ==> le(h, Insert(x, s, le)[k])
  {
    var r := Insert(x, s, le);
    forall k | 0 <= k < |r| ensures le(h, r[k]) {
      assert r[k] in multiset(r);
      if r[k] != x {
        assert r[k] in multiset(s);
        var j :| 0 <= j < |s| && s[j] == r[k];
      }
    }
  }

  /** The sort orders its result by `le`. */
  lemma {:induction false} InsertionSortSorted(s: seq<string>, le: (string, string) -> bool)
    requires TotalPreorder(le)
    ensures SortedBy(InsertionSort(s, le), le)
    decreases |s|
  {
    if s != [] {
      InsertionSortSorted(s[..|s| - 1], le);
      InsertKeepsSorted(s[|s| - 1], InsertionSort(s[..|s| - 1], le), le);
    }
  }

  /** A key lies in the sorted sequence exactly when it lies in the input. */
  lemma InsertionSortSameElements(s: seq<string>, le: (string, string) -> bool, x: string)
    ensures x in InsertionSort(s, le) <==> x in s
  {
    assert x in InsertionSort(s, le) <==> x in multiset(InsertionSort(s, le));
    assert x in s <==> x in multiset(s);
  }
}
