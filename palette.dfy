/** The two array operations behind `extract_palette`: the distinct RGB rows of
    `np.unique(pixels, axis=0)`, in the ascending lexicographic order numpy
    sorts them in, and the integer sample positions of
    `np.linspace(0, n - 1, num, dtype=int)`. */
module Palette {
  import opened Arith
  import opened Grids

  /** Row order of `np.unique(..., axis=0)`: by red, then green, then blue. */
  predicate Below(p: Pixel, q: Pixel) {
    p.r < q.r || (p.r == q.r && (p.g < q.g || (p.g == q.g && p.b < q.b)))
  }

  /** Strictly ascending rows, hence pairwise distinct. */
  predicate Ascending(s: seq<Pixel>) {
    forall i, j :: 0 <= i < j < |s| ==> Below(s[i], s[j])
  }

  /** Insert a row into ascending distinct rows, unless it is already there. */
  function InsertRow(p: Pixel, s: seq<Pixel>): (r: seq<Pixel>)
    requires Ascending(s)
    ensures Ascending(r)
    ensures forall q :: q in r <==> q == p || q in s
  {
    if |s| == 0 then [p]
    else if p == s[0] then s
    else if Below(p, s[0]) then [p] + s
    else
      var t := InsertRow(p, s[1..]);
      assert s == [s[0]] + s[1..];
      assert forall k :: 0 <= k < |t| ==> t[k] in t;
      [s[0]] + t
  }

  /** `np.unique(pixels, axis=0)`: each distinct row once, ascending. */
  function UniqueRows(s: seq<Pixel>): (u: seq<Pixel>)
    ensures Ascending(u)
    ensures forall q :: q in u <==> q in s
  {
    if |s| == 0 then []
    else
      assert s == [s[0]] + s[1..];
      InsertRow(s[0], UniqueRows(s[1..]))
  }

  /** The ascending distinct arrangement of a set of rows is unique, so
      UniqueRows is `np.unique`'s result however it is computed. */
  lemma {:induction false} AscendingDetermined(a: seq<Pixel>, b: seq<Pixel>)
    requires Ascending(a) && Ascending(b)
    requires forall q :: q in a <==> q in b
    ensures a == b
  {
    if |a| > 0 {
      assert a[0] in a;
    }
    if |b| > 0 {
      assert b[0] in b;
    }
    if |a| > 0 && |b| > 0 {
      var i :| 0 <= i < |b| && b[i] == a[0];
      var j :| 0 <= j < |a| && a[j] == b[0];
      assert i == 0 || j == 0;
      forall q ensures q in a[1..] <==> q in b[1..] {
        if q in a[1..] {
          var k :| 1 <= k < |a| && a[k] == q;
          assert q in b && q != b[0];
        }
        if q in b[1..] {
          var k :| 1 <= k < |b| && b[k] == q;
          assert q in a && q != a[0];
        }
      }
      AscendingDetermined(a[1..], b[1..]);
      assert a == [a[0]] + a[1..] && b == [b[0]] + b[1..];
    }
  }

  /** `np.linspace(0, n - 1, num, dtype=int)[i]`, taken as the exact quotient
      i * (n - 1) div (num - 1), and 0 for a single sample. numpy floors the
      double product i * ((n - 1) / (num - 1)) instead, which can land one
      below the exact quotient. */
  function LinspaceIndex(i: nat, n: nat, num: nat): nat
    requires n > 0 && i < num
  {
    if num == 1 then 0 else Quot(Times(i, n - 1), num - 1)
  }

  /** Every index lies in [0, n - 1]; the first is 0 and, from two samples on,
      the last is n - 1. */
  lemma LinspaceBounds(i: nat, n: nat, num: nat)
    requires n > 0 && i < num
    ensures LinspaceIndex(i, n, num) < n
    ensures i == 0 ==> LinspaceIndex(i, n, num) == 0
    ensures num >= 2 && i == num - 1 ==> LinspaceIndex(i, n, num) == n - 1
  {
    if num >= 2 {
      TimesMonotone(i, num - 1, n - 1);
      TimesCommutes(num - 1, n - 1);
      QuotMonotone(Times(i, n - 1), Times(n - 1, num - 1), num - 1);
      QuotOfTimes(n - 1, num - 1);
      if i == 0 {
        QuotOfTimes(0, num - 1);
      }
    }
  }

  /** With more rows than samples, the step (n - 1) / (num - 1) exceeds 1, so
      the indices are strictly increasing: no row is picked twice. */
  lemma LinspaceIncreasing(i: nat, j: nat, n: nat, num: nat)
    requires n > num && i < j < num
    ensures LinspaceIndex(i, n, num) < LinspaceIndex(j, n, num)
  {
    TimesMonotone(i, j, n - 1);
    QuotStep(Times(i, n - 1), Times(j, n - 1), num - 1);
  }
}
