/** The ascending sort of the samples that quantile computation starts from. */
module Sorting {

  predicate Sorted(s: seq<int>) {
    forall i, j :: 0 <= i < j < |s| ==> s[i] <= s[j]
  }

  /** Insert x into an ascending sequence. */
  function Insert(x: int, s: seq<int>): (r: seq<int>)
    requires Sorted(s)
    ensures Sorted(r)
    ensures multiset(r) == multiset(s) + multiset{x}
    ensures |r| == |s| + 1
  {
    if |s| == 0 || x <= s[0] then
      PrependSorted(x, s);
      [x] + s
    else
      var t := Insert(x, s[1..]);
      assert s == [s[0]] + s[1..];
      forall k | 0 <= k < |t| ensures s[0] <= t[k] {
        assert t[k] in multiset(t);
      }
      PrependSorted(s[0], t);
      [s[0]] + t
  }

  /** A value no larger than any entry of an ascending sequence can go in front. */
  lemma PrependSorted(x: int, s: seq<int>)
    requires Sorted(s) && forall k :: 0 <= k < |s| ==> x <= s[k]
    ensures Sorted([x] + s)
  {
    var r := [x] + s;
    forall i, j | 0 <= i < j < |r| ensures r[i] <= r[j] {
      assert r[j] == s[j - 1];
      if i > 0 {
        assert r[i] == s[i - 1];
      }
    }
  }

  /** `np.sort(x)`: the samples in ascending order. */
  function Sort(s: seq<int>): (r: seq<int>)
    ensures Sorted(r)
    ensures multiset(r) == multiset(s)
    ensures |r| == |s|
  {
    if |s| == 0 then []
    else
      assert s == [s[0]] + s[1..];
      Insert(s[0], Sort(s[1..]))
  }

  /** Of any ascending arrangement r of the samples s, the first and last
      entries are the smallest and largest sample, and both occur in s. */
  lemma ArrangementEnds(r: seq<int>, s: seq<int>)
    requires Sorted(r) && multiset(r) == multiset(s) && |s| > 0
    ensures |r| == |s|
    ensures forall i :: 0 <= i < |s| ==> r[0] <= s[i] <= r[|s| - 1]
    ensures r[0] in s && r[|s| - 1] in s
  {
    assert |r| == |multiset(r)| == |multiset(s)| == |s|;
    forall i | 0 <= i < |s| ensures r[0] <= s[i] <= r[|s| - 1] {
      assert s[i] in multiset(s);
      assert s[i] in r;
    }
    assert r[0] in multiset(r);
    assert r[|s| - 1] in multiset(r);
  }

  /** The first and last sorted samples are the smallest and largest sample,
      and both occur among the samples. */
  lemma SortEnds(s: seq<int>)
    requires |s| > 0
    ensures forall i :: 0 <= i < |s| ==> Sort(s)[0] <= s[i] <= Sort(s)[|s| - 1]
    ensures Sort(s)[0] in s && Sort(s)[|s| - 1] in s
  {
    ArrangementEnds(Sort(s), s);
  }

  /** Sorting already ascending samples changes nothing. */
  lemma {:induction false} SortOfSorted(s: seq<int>)
    requires Sorted(s)
    ensures Sort(s) == s
  {
    if |s| > 0 {
      SortOfSorted(s[1..]);
      assert s == [s[0]] + s[1..];
    }
  }
}
