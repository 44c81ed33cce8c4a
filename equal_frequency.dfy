/** Equal-frequency binning as `pd.qcut(x, q=g, labels=False, duplicates='drop')`
    performs it on a flat sequence of integer samples:

      1. the bin edges are the quantiles of the samples at the fractions k / g,
         k = 0 .. g, each by linear interpolation between order statistics;
      2. repeated edges are dropped (unless there are exactly two edges);
      3. a sample v gets the index l of the edge interval that holds it: the
         first interval [e0, e1] is closed, every other one (el, el+1] is open
         on the left; a sample in no interval gets NaN, modelled as None.

    Edges are exact rationals here. */
module EqualFrequency {
  import opened Sorting
  import opened Arith

  /** A label, or NaN. */
  datatype Option<T> = None | Some(value: T)

  /** The samples hold at least two distinct values. */
  predicate Varied(x: seq<int>) {
    |x| > 0 && exists i :: 0 <= i < |x| && x[i] != x[0]
  }

  predicate NonDecreasing(e: seq<real>) {
    forall i, j :: 0 <= i < j < |e| ==> e[i] <= e[j]
  }

  predicate StrictlyIncreasing(e: seq<real>) {
    forall i, j :: 0 <= i < j < |e| ==> e[i] < e[j]
  }

  // ---------------------------------------------------------------------------
  // Quantile edges

  /** Numerator (n - 1) * k of the virtual position (n - 1) * k / g of quantile
      k / g among n order statistics. */
  function Position(n: nat, k: nat): nat
    requires n > 0
  {
    Times(k, n - 1)
  }

  /** The virtual position has its integer part inside [0, n - 1], strictly
      below n - 1 when it has a fractional part. */
  lemma PositionBounds(n: nat, k: nat, g: nat)
    requires n > 0 && g > 0 && k <= g
    ensures Quot(Position(n, k), g) <= n - 1
    ensures Rem(Position(n, k), g) != 0 ==> Quot(Position(n, k), g) < n - 1
  {
    var p := Position(n, k);
    TimesMonotone(k, g, n - 1);
    TimesCommutes(g, n - 1);
    var q := Quot(p, g);
    QuotBounds(p, g);
    if q >= n - 1 {
      TimesMonotone(n - 1, q, g);
    }
  }

  /** Lower order statistic of quantile k / g: the floor of its virtual position. */
  function LowerIndex(n: nat, k: nat, g: nat): (i: nat)
    requires n > 0 && g > 0 && k <= g
    ensures i <= n - 1
  {
    PositionBounds(n, k, g);
    Quot(Position(n, k), g)
  }

  /** The quantile of the ascending samples s at fraction k / g, interpolated
      linearly between the two order statistics around position (|s| - 1) * k / g. */
  function Quantile(s: seq<int>, k: nat, g: nat): real
    requires |s| > 0 && g > 0 && k <= g
  {
    PositionBounds(|s|, k, g);
    var i := LowerIndex(|s|, k, g);
    var r := Rem(Position(|s|, k), g);
    if r == 0 then s[i] as real
    else s[i] as real + (r as real / g as real) * (s[i + 1] - s[i]) as real
  }

  lemma Interpolate(a: int, b: int, t: real)
    requires a <= b && 0.0 <= t <= 1.0
    ensures a as real <= a as real + t * (b - a) as real <= b as real
  {
    assert (1.0 - t) * (b - a) as real >= 0.0;
  }

  lemma FractionBelowOne(r: nat, g: nat)
    requires r < g
    ensures 0.0 <= r as real / g as real <= 1.0
  {}

  /** A quantile lies between its two order statistics. */
  lemma QuantileBetween(s: seq<int>, k: nat, g: nat)
    requires Sorted(s) && |s| > 0 && g > 0 && k <= g
    ensures var i := LowerIndex(|s|, k, g);
      && s[i] as real <= Quantile(s, k, g)
      && (i + 1 < |s| ==> Quantile(s, k, g) <= s[i + 1] as real)
      && (i + 1 == |s| ==> Quantile(s, k, g) == s[i] as real)
  {
    PositionBounds(|s|, k, g);
    var i := LowerIndex(|s|, k, g);
    var r := Rem(Position(|s|, k), g);
    if r != 0 {
      FractionBelowOne(r, g);
      Interpolate(s[i], s[i + 1], r as real / g as real);
    }
  }

  lemma FractionMonotone(r1: nat, r2: nat, g: nat)
    requires r1 <= r2 && g > 0
    ensures r1 as real / g as real <= r2 as real / g as real
  {}

  lemma RealScaleMonotone(t1: real, t2: real, d: real)
    requires t1 <= t2 && d >= 0.0
    ensures t1 * d <= t2 * d
  {
    assert (t2 - t1) * d >= 0.0;
  }

  /** Quantiles grow with the fraction k / g. */
  lemma QuantileMonotone(s: seq<int>, k1: nat, k2: nat, g: nat)
    requires Sorted(s) && |s| > 0 && g > 0 && k1 <= k2 <= g
    ensures Quantile(s, k1, g) <= Quantile(s, k2, g)
  {
    var n := |s|;
    var p1, p2 := Position(n, k1), Position(n, k2);
    TimesMonotone(k1, k2, n - 1);
    QuotMonotone(p1, p2, g);
    var i1, i2 := LowerIndex(n, k1, g), LowerIndex(n, k2, g);
    if i1 < i2 {
      QuantileBetween(s, k1, g);
      QuantileBetween(s, k2, g);
      assert s[i1 + 1] <= s[i2];
    } else {
      assert Rem(p1, g) <= Rem(p2, g);
      QuantileSameCell(s, k1, k2, g);
    }
  }

  /** Two quantiles with the same lower order statistic are ordered by their
      fractional parts. */
  lemma QuantileSameCell(s: seq<int>, k1: nat, k2: nat, g: nat)
    requires Sorted(s) && |s| > 0 && g > 0 && k1 <= g && k2 <= g
    requires LowerIndex(|s|, k1, g) == LowerIndex(|s|, k2, g)
    requires Rem(Position(|s|, k1), g) <= Rem(Position(|s|, k2), g)
    ensures Quantile(s, k1, g) <= Quantile(s, k2, g)
  {
    var i := LowerIndex(|s|, k1, g);
    var r1, r2 := Rem(Position(|s|, k1), g), Rem(Position(|s|, k2), g);
    if r1 == 0 {
      assert Quantile(s, k1, g) == s[i] as real;
      QuantileBetween(s, k2, g);
    } else {
      QuantileInCell(s, k1, g);
      QuantileInCell(s, k2, g);
      assert s[i] <= s[i + 1];
      InterpolationOrdered(s[i], s[i + 1], r1, r2, g);
    }
  }

  /** A quantile with a fractional position interpolates inside its cell. */
  lemma QuantileInCell(s: seq<int>, k: nat, g: nat)
    requires |s| > 0 && g > 0 && k <= g && Rem(Position(|s|, k), g) != 0
    ensures var i := LowerIndex(|s|, k, g);
      i + 1 < |s| &&
      Quantile(s, k, g) == s[i] as real + (Rem(Position(|s|, k), g) as real / g as real) * (s[i + 1] - s[i]) as real
  {
    PositionBounds(|s|, k, g);
  }

  /** Linear interpolation from a towards b >= a grows with the fraction. */
  lemma InterpolationOrdered(a: int, b: int, r1: nat, r2: nat, g: nat)
    requires a <= b && r1 <= r2 && g > 0
    ensures a as real + (r1 as real / g as real) * (b - a) as real
      <= a as real + (r2 as real / g as real) * (b - a) as real
  {
    FractionMonotone(r1, r2, g);
    RealScaleMonotone(r1 as real / g as real, r2 as real / g as real, (b - a) as real);
  }

  /** `x.quantile(np.linspace(0, 1, g + 1))` of the ascending samples s. */
  function Edges(s: seq<int>, g: nat): (e: seq<real>)
    requires |s| > 0 && g > 0
    ensures |e| == g + 1
  {
    seq(g + 1, k requires 0 <= k <= g => Quantile(s, k, g))
  }

  /** The edges ascend from the smallest to the largest sample. */
  lemma EdgesShape(s: seq<int>, g: nat)
    requires Sorted(s) && |s| > 0 && g > 0
    ensures NonDecreasing(Edges(s, g))
    ensures Edges(s, g)[0] == s[0] as real
    ensures Edges(s, g)[g] == s[|s| - 1] as real
  {
    var e := Edges(s, g);
    forall i, j | 0 <= i < j < |e| ensures e[i] <= e[j] {
      QuantileMonotone(s, i, j, g);
    }
    QuotUnique(0, g, 0);
    TimesCommutes(g, |s| - 1);
    QuotOfTimes(|s| - 1, g);
  }

  // ---------------------------------------------------------------------------
  // Dropping repeated edges

  /** `algos.unique`: the distinct values in order of first appearance. */
  function Unique(e: seq<real>): (u: seq<real>)
    ensures |u| <= |e|
    ensures forall v :: v in u <==> v in e
    ensures forall i, j :: 0 <= i < j < |u| ==> u[i] != u[j]
  {
    if |e| == 0 then []
    else
      var u := Unique(e[..|e| - 1]);
      assert e == e[..|e| - 1] + [e[|e| - 1]];
      if e[|e| - 1] in u then u else u + [e[|e| - 1]]
  }

  /** Of ascending edges, the unique ones are strictly ascending, with the same
      first and last edge. */
  lemma {:induction false} UniqueOfNonDecreasing(e: seq<real>)
    requires NonDecreasing(e) && |e| > 0
    ensures var u := Unique(e);
      && StrictlyIncreasing(u) && |u| > 0
      && u[0] == e[0] && u[|u| - 1] == e[|e| - 1]
  {
    var init := e[..|e| - 1];
    var x := e[|e| - 1];
    if |init| > 0 {
      UniqueOfNonDecreasing(init);
      var u := Unique(init);
      assert Unique(e) == if x in u then u else u + [x];
      var last := u[|u| - 1];
      assert last <= x by {
        assert last in init;
        var m :| 0 <= m < |init| && init[m] == last;
      }
      if x in u {
        var k :| 0 <= k < |u| && u[k] == x;
      } else {
        AppendIncreasing(u, x);
      }
    }
  }

  /** A larger value appended to strictly ascending values keeps them so. */
  lemma AppendIncreasing(u: seq<real>, x: real)
    requires StrictlyIncreasing(u) && |u| > 0 && u[|u| - 1] < x
    ensures StrictlyIncreasing(u + [x])
  {
    var v := u + [x];
    forall i, j | 0 <= i < j < |v| ensures v[i] < v[j] {
      if j == |u| {
        assert v[i] <= u[|u| - 1];
      }
    }
  }

  /** Two strictly ascending sequences with the same values are equal. */
  lemma {:induction false} IncreasingDetermined(a: seq<real>, b: seq<real>)
    requires StrictlyIncreasing(a) && StrictlyIncreasing(b)
    requires forall v :: v in a <==> v in b
    ensures a == b
  {
    if |a| > 0 {
      assert a[0] in a;
    }
    if |b| > 0 {
      assert b[0] in b;
    }
    if |a| > 0 && |b| > 0 {
      var i :| 0 <= i < |b| && b[i] == a[0];
      var j :| 0 <= j < |a| && a[j] == b[0];
      assert i == 0 || j == 0;
      forall v ensures v in a[1..] <==> v in b[1..] {
        if v in a[1..] {
          var k :| 1 <= k < |a| && a[k] == v;
          assert v in b && v != b[0];
        }
        if v in b[1..] {
          var k :| 1 <= k < |b| && b[k] == v;
          assert v in a && v != a[0];
        }
      }
      IncreasingDetermined(a[1..], b[1..]);
      assert a == [a[0]] + a[1..] && b == [b[0]] + b[1..];
    }
  }

  /** When nothing repeats, `unique` changes nothing. */
  lemma {:induction false} UniqueFull(e: seq<real>)
    requires |Unique(e)| == |e|
    ensures Unique(e) == e
  {
    if |e| > 0 {
      var init := e[..|e| - 1];
      UniqueFull(init);
      assert e == init + [e[|e| - 1]];
    }
  }

  /** The edge cleanup of `_bins_to_cuts` under `duplicates='drop'`: repeated
      edges are dropped only when some repeat and there are not exactly two edges. */
  function DropDuplicates(e: seq<real>): (c: seq<real>)
    ensures |c| <= |e|
  {
    var u := Unique(e);
    if |u| < |e| && |e| != 2 then u else e
  }

  /** The bin edges pd.qcut ends up with for samples x and g bins. */
  function CutEdges(x: seq<int>, g: nat): (c: seq<real>)
    requires |x| > 0 && g > 0
    ensures 0 < |c| <= g + 1
  {
    var e := Edges(Sort(x), g);
    assert e[0] in Unique(e);
    DropDuplicates(e)
  }

  // ---------------------------------------------------------------------------
  // Binning

  /** Number of edges strictly below v: `np.searchsorted(edges, v, side='left')`
      of ascending edges. */
  function CountBelow(e: seq<real>, v: real): nat {
    if |e| == 0 then 0 else (if e[0] < v then 1 else 0) + CountBelow(e[1..], v)
  }

  /** Of ascending edges, exactly the first CountBelow(e, v) lie below v. */
  lemma {:induction false} CountBelowSplit(e: seq<real>, v: real)
    requires NonDecreasing(e)
    ensures CountBelow(e, v) <= |e|
    ensures forall i :: 0 <= i < CountBelow(e, v) ==> e[i] < v
    ensures forall i :: CountBelow(e, v) <= i < |e| ==> v <= e[i]
  {
    if |e| > 0 {
      CountBelowSplit(e[1..], v);
      if e[0] >= v {
        assert forall i :: 0 <= i < |e| ==> e[0] <= e[i];
      }
    }
  }

  /** The label of one sample v: `ids = edges.searchsorted(v, side='left')`,
      `ids[v == edges[0]] = 1` (the lowest edge is included), NaN where
      `ids == 0` or `ids == len(edges)`, and `ids - 1` otherwise. */
  function BinLabel(e: seq<real>, v: real): Option<nat>
    requires |e| > 0
  {
    var ids := if v == e[0] then 1 else CountBelow(e, v);
    if ids == 0 || ids == |e| then None else Some(ids - 1)
  }

  /** v lies in bin l of the edges e: in (e[l], e[l + 1]], or l is the first
      bin, which also holds e[0]. */
  predicate InBin(e: seq<real>, l: nat, v: real) {
    l + 1 < |e| && ((e[l] < v <= e[l + 1]) || (l == 0 && v == e[0]))
  }

  /** Over strictly ascending edges, BinLabel names exactly the bin holding v,
      and is NaN exactly when no bin holds it. */
  lemma BinLabelIsBin(e: seq<real>, v: real, l: nat)
    requires StrictlyIncreasing(e) && |e| >= 2
    ensures BinLabel(e, v) == Some(l) <==> InBin(e, l, v)
  {
    CountBelowSplit(e, v);
    var c := CountBelow(e, v);
    if InBin(e, l, v) && v != e[0] {
      assert c == l + 1;
    }
  }

  /** Over strictly ascending edges, samples inside [e[0], e[|e| - 1]] always
      get a label, at most |e| - 2. */
  lemma BinLabelDefined(e: seq<real>, v: real)
    requires StrictlyIncreasing(e) && |e| >= 2
    requires e[0] <= v <= e[|e| - 1]
    ensures BinLabel(e, v).Some? && BinLabel(e, v).value <= |e| - 2
    ensures InBin(e, BinLabel(e, v).value, v)
  {
    CountBelowSplit(e, v);
    BinLabelIsBin(e, v, if v == e[0] then 0 else CountBelow(e, v) - 1);
  }

  /** Binning by value edges keeps the order of values. */
  lemma BinLabelMonotone(e: seq<real>, v1: real, v2: real)
    requires StrictlyIncreasing(e) && |e| >= 2
    requires e[0] <= v1 <= v2 <= e[|e| - 1]
    ensures BinLabel(e, v1).Some? && BinLabel(e, v2).Some?
    ensures BinLabel(e, v1).value <= BinLabel(e, v2).value
  {
    BinLabelDefined(e, v1);
    BinLabelDefined(e, v2);
  }

  /** `pd.qcut(x, q=g, labels=False, duplicates='drop')`: one label (or NaN) per
      sample, in the order of the samples. */
  function QCut(x: seq<int>, g: nat): (labels: seq<Option<nat>>)
    requires |x| > 0 && g > 0
    ensures |labels| == |x|
  {
    var e := CutEdges(x, g);
    seq(|x|, i requires 0 <= i < |x| => BinLabel(e, x[i] as real))
  }

  // ---------------------------------------------------------------------------
  // What pd.qcut guarantees

  /** Samples with two distinct values: the sorted ends differ. */
  lemma VariedEnds(x: seq<int>)
    requires Varied(x)
    ensures Sort(x)[0] < Sort(x)[|x| - 1]
  {
    SortEnds(x);
    var i :| 0 <= i < |x| && x[i] != x[0];
  }

  /** With two distinct sample values the cut edges are the strictly ascending
      unique quantiles, from the smallest to the largest sample, at most g + 1
      of them (so at most g bins). */
  lemma CutEdgesOfVaried(x: seq<int>, g: nat)
    requires Varied(x) && g > 0
    ensures var c := CutEdges(x, g);
      && StrictlyIncreasing(c) && 2 <= |c| <= g + 1
      && c[0] == Sort(x)[0] as real && c[|c| - 1] == Sort(x)[|x| - 1] as real
  {
    var s := Sort(x);
    var e := Edges(s, g);
    assert NonDecreasing(e) && e[0] < e[g] && e[0] == s[0] as real && e[g] == s[|x| - 1] as real by {
      VariedEnds(x);
      EdgesShape(s, g);
    }
    UniqueOfNonDecreasing(e);
    var u := Unique(e);
    assert 2 <= |u| <= |e| == g + 1;
    assert u[0] == s[0] as real && u[|u| - 1] == s[|x| - 1] as real;
    if |u| == |e| {
      UniqueFull(e);
    }
    assert CutEdges(x, g) == u;
  }

  /** A channel holding one value only: with g >= 2 every label is NaN (pandas
      cannot form a bin); with g == 1 the two equal edges are kept and every
      sample gets label 0. */
  lemma QCutOfConstant(x: seq<int>, g: nat)
    requires |x| > 0 && !Varied(x) && g > 0
    ensures forall i :: 0 <= i < |x| ==> QCut(x, g)[i] == (if g == 1 then Some(0) else None)
  {
    var s := Sort(x);
    var e := Edges(s, g);
    var m := x[0] as real;
    forall k | 0 <= k < |s| ensures s[k] == x[0] {
      assert s[k] in multiset(x);
    }
    forall k | 0 <= k <= g ensures e[k] == m {
      QuantileBetween(s, k, g);
    }
    EdgesShape(s, g);
    UniqueOfNonDecreasing(e);
    var u := Unique(e);
    assert u == [m] by {
      forall k | 0 <= k < |u| ensures u[k] == m {
        assert u[k] in e;
      }
    }
  }

  /** With two distinct values (or a single bin) every sample gets a label, and
      labels lie in [0, g - 1]: no NaN and no error even when there are fewer
      distinct values than bins. */
  lemma QCutLabelsInRange(x: seq<int>, g: nat)
    requires |x| > 0 && g > 0 && (Varied(x) || g == 1)
    ensures forall i :: 0 <= i < |x| ==> QCut(x, g)[i].Some? && QCut(x, g)[i].value < g
  {
    if Varied(x) {
      forall i | 0 <= i < |x| ensures QCut(x, g)[i].Some? && QCut(x, g)[i].value < g {
        QCutBins(x, g, i);
      }
    } else {
      QCutOfConstant(x, g);
    }
  }

  /** Labels are monotone in intensity, so equal intensities share a label. */
  lemma QCutMonotone(x: seq<int>, g: nat, i: nat, j: nat)
    requires |x| > 0 && g > 0 && (Varied(x) || g == 1)
    requires i < |x| && j < |x| && x[i] <= x[j]
    ensures QCut(x, g)[i].Some? && QCut(x, g)[j].Some?
    ensures QCut(x, g)[i].value <= QCut(x, g)[j].value
    ensures x[i] == x[j] ==> QCut(x, g)[i] == QCut(x, g)[j]
  {
    if Varied(x) {
      CutEdgesOfVaried(x, g);
      SortEnds(x);
      BinLabelMonotone(CutEdges(x, g), x[i] as real, x[j] as real);
    } else {
      QCutOfConstant(x, g);
    }
  }

  /** The smallest intensity always gets label 0. */
  lemma QCutMinimum(x: seq<int>, g: nat, i: nat)
    requires |x| > 0 && g > 0 && (Varied(x) || g == 1)
    requires i < |x| && forall j :: 0 <= j < |x| ==> x[i] <= x[j]
    ensures QCut(x, g)[i] == Some(0)
  {
    if Varied(x) {
      CutEdgesOfVaried(x, g);
      SortEnds(x);
      var k :| 0 <= k < |x| && x[k] == Sort(x)[0];
      assert x[i] == Sort(x)[0];
    } else {
      QCutOfConstant(x, g);
    }
  }

  /** Each label is the index of the cut-edge interval holding the sample:
      (e[l], e[l + 1]], or the closed first interval [e[0], e[1]]. */
  lemma QCutBins(x: seq<int>, g: nat, i: nat)
    requires Varied(x) && g > 0 && i < |x|
    ensures QCut(x, g)[i].Some?
    ensures InBin(CutEdges(x, g), QCut(x, g)[i].value, x[i] as real)
  {
    var c := CutEdges(x, g);
    var v := x[i] as real;
    assert QCut(x, g)[i] == BinLabel(c, v);
    assert StrictlyIncreasing(c) && |c| >= 2 && c[0] <= v <= c[|c| - 1] by {
      CutEdgesOfVaried(x, g);
      SortEnds(x);
    }
    BinLabelDefined(c, v);
  }

  // ---------------------------------------------------------------------------
  // Equal frequency

  /** The number of samples below v: strictly below when `strict`, at most v
      otherwise. */
  function Tally(x: seq<int>, v: real, strict: bool): (c: nat)
    ensures c <= |x|
  {
    if |x| == 0 then 0
    else
      var counted := if strict then x[0] as real < v else x[0] as real <= v;
      (if counted then 1 else 0) + Tally(x[1..], v, strict)
  }

  /** Inserting a sample into ascending samples tallies it once. */
  lemma {:induction false} TallyInsert(a: int, s: seq<int>, v: real, strict: bool)
    requires Sorted(s)
    ensures Tally(Insert(a, s), v, strict) == Tally([a] + s, v, strict)
  {
    assert ([a] + s)[1..] == s;
    if |s| > 0 && a > s[0] {
      TallyInsert(a, s[1..], v, strict);
      assert ([a] + s[1..])[1..] == s[1..];
      assert Insert(a, s)[1..] == Insert(a, s[1..]);
    }
  }

  /** Sorting does not change how many samples lie below a value. */
  lemma {:induction false} TallySort(x: seq<int>, v: real, strict: bool)
    ensures Tally(Sort(x), v, strict) == Tally(x, v, strict)
  {
    if |x| > 0 {
      TallySort(x[1..], v, strict);
      TallyInsert(x[0], Sort(x[1..]), v, strict);
      assert ([x[0]] + Sort(x[1..]))[1..] == Sort(x[1..]);
    }
  }

  /** Of ascending samples whose first m are at most v, at least m are at most v. */
  lemma {:induction false} TallyAtLeast(s: seq<int>, v: real, m: nat)
    requires Sorted(s) && 0 < m <= |s| && s[m - 1] as real <= v
    ensures Tally(s, v, false) >= m
  {
    if m > 1 {
      TallyAtLeast(s[1..], v, m - 1);
    }
  }

  /** Of ascending samples whose entries from m on are at least v, at most m
      lie strictly below v. */
  lemma {:induction false} TallyAtMost(s: seq<int>, v: real, m: nat)
    requires Sorted(s) && m <= |s| && (m < |s| ==> v <= s[m] as real)
    ensures Tally(s, v, true) <= m
  {
    if |s| > 0 {
      if m == 0 {
        TallyAtMost(s[1..], v, 0);
      } else {
        TallyAtMost(s[1..], v, m - 1);
      }
    }
  }

  /** The equal-frequency property of the quantile edges: with p = (n - 1) * k
      for n samples, at least floor(p / g) + 1 samples are at most edge k, and
      at most ceil(p / g) lie strictly below it. So edge k splits off the lowest
      k / g of the samples, up to one sample and to ties at the edge itself. */
  lemma EdgeSplitsSamples(x: seq<int>, g: nat, k: nat)
    requires |x| > 0 && g > 0 && k <= g
    ensures var e := Edges(Sort(x), g)[k];
      var p := Position(|x|, k);
      && Tally(x, e, false) >= Quot(p, g) + 1
      && Tally(x, e, true) <= Quot(p, g) + (if Rem(p, g) == 0 then 0 else 1)
  {
    var s := Sort(x);
    var e := Edges(s, g)[k];
    var i := LowerIndex(|x|, k, g);
    var r := Rem(Position(|x|, k), g);
    PositionBounds(|x|, k, g);
    QuantileBetween(s, k, g);
    TallySort(x, e, false);
    TallySort(x, e, true);
    TallyAtLeast(s, e, i + 1);
    if r == 0 {
      assert e == s[i] as real;
      TallyAtMost(s, e, i);
    } else {
      TallyAtMost(s, e, i + 1);
    }
  }

  /** Fewer distinct values than bins: the samples 5, 5, 5, 9 in four bins
      have quantile edges 5, 5, 5, 6, 9, which `duplicates='drop'` reduces to
      5, 6, 9, so only labels 0 and 1 occur. */
  lemma TiedSamplesExample()
    ensures CutEdges([5, 5, 5, 9], 4) == [5.0, 6.0, 9.0]
    ensures QCut([5, 5, 5, 9], 4) == [Some(0), Some(0), Some(0), Some(1)]
  {
    var x, c := [5, 5, 5, 9], [5.0, 6.0, 9.0];
    TiedCutEdges();
    TiedLabel(5.0);
    TiedLabel(9.0);
    var q := QCut(x, 4);
    assert q[0] == BinLabel(c, 5.0) && q[1] == BinLabel(c, 5.0);
    assert q[2] == BinLabel(c, 5.0) && q[3] == BinLabel(c, 9.0);
    assert |q| == 4;
    SeqOfFour(q);
  }

  lemma SeqOfFour<T>(q: seq<T>)
    requires |q| == 4
    ensures q == [q[0], q[1], q[2], q[3]]
  {
  }

  lemma TiedCutEdges()
    ensures CutEdges([5, 5, 5, 9], 4) == [5.0, 6.0, 9.0]
  {
    TiedSorted();
    TiedEdges();
    TiedUnique();
  }

  lemma TiedLabel(v: real)
    requires v == 5.0 || v == 9.0
    ensures BinLabel([5.0, 6.0, 9.0], v) == if v == 5.0 then Some(0) else Some(1)
  {
    var c := [5.0, 6.0, 9.0];
    assert c[1..] == [6.0, 9.0] && c[1..][1..] == [9.0];
  }

  lemma TiedSorted()
    ensures Sort([5, 5, 5, 9]) == [5, 5, 5, 9]
  {
    SortOfSorted([5, 5, 5, 9]);
  }

  lemma TiedEdges()
    ensures Edges([5, 5, 5, 9], 4) == [5.0, 5.0, 5.0, 6.0, 9.0]
  {
    var e := Edges([5, 5, 5, 9], 4);
    forall k | 0 <= k <= 4 ensures e[k] == [5.0, 5.0, 5.0, 6.0, 9.0][k] {
      TiedQuantile(k);
    }
  }

  lemma TiedQuantile(k: nat)
    requires k <= 4
    ensures Quantile([5, 5, 5, 9], k, 4) == [5.0, 5.0, 5.0, 6.0, 9.0][k]
  {
    QuotUnique(Times(k, 3), 4, [0, 0, 1, 2, 3][k]);
  }

  lemma TiedUnique()
    ensures Unique([5.0, 5.0, 5.0, 6.0, 9.0]) == [5.0, 6.0, 9.0]
  {
    var e, c := [5.0, 5.0, 5.0, 6.0, 9.0], [5.0, 6.0, 9.0];
    UniqueOfNonDecreasing(e);
    IncreasingDetermined(Unique(e), c);
  }
}
