/** `calculate_mse_psnr(original, compressed)`, as both app.py and
    models/model.py define it, on two uint8 image arrays of the same shape.
    numpy keeps uint8 arithmetic in uint8, so `original - compressed` and `** 2`
    both wrap modulo 256; the mean is one mean over every element of all
    three channels. PSNR's `10 * log10(255**2 / mse)` is floating point and is
    not computed; only which branch is taken is. */
module Metrics {
  import opened Grids
  import opened Arith

  /** uint8 `o - c`. */
  function WrapSub(o: int, c: int): int { (o - c) % 256 }

  /** uint8 `d ** 2`. */
  function WrapSquare(d: int): int { (d * d) % 256 }

  /** One element of `(original - compressed) ** 2`. */
  function SquaredError(o: int, c: int): (t: int)
    ensures 0 <= t < 256
  {
    WrapSquare(WrapSub(o, c))
  }

  /** The three elements one pixel contributes. */
  function PixelError(p: Pixel, q: Pixel): nat {
    SquaredError(p.r, q.r) + SquaredError(p.g, q.g) + SquaredError(p.b, q.b)
  }

  /** Sum of the squared-error elements over flattened pixels. */
  function ErrorSum(o: seq<Pixel>, c: seq<Pixel>): nat
    requires |o| == |c|
  {
    if |o| == 0 then 0 else PixelError(o[0], c[0]) + ErrorSum(o[1..], c[1..])
  }

  /** Two uint8 RGB images of the same height and width. */
  predicate SameShape(a: Image, b: Image) {
    IsImage(a) && IsImage(b) && |a| == |b| && |a[0]| == |b[0]|
  }

  lemma FlattenSameShape(a: Image, b: Image)
    requires SameShape(a, b)
    ensures |Flatten(a)| == |Flatten(b)| == Times(|a|, |a[0]|) > 0
  {
    FlattenLength(a, |a|, |a[0]|);
    FlattenLength(b, |b|, |b[0]|);
    TimesMonotone(1, |a|, |a[0]|);
  }

  /** `np.mean((original - compressed) ** 2)`. */
  function Mse(o: Image, c: Image): real
    requires SameShape(o, c)
  {
    FlattenSameShape(o, c);
    ErrorSum(Flatten(o), Flatten(c)) as real / (3 * |Flatten(o)|) as real
  }

  /** The PSNR half of the result: the literal sentinel, or the logarithmic
      formula `10 * log10(255**2 / mse)` (floating point, not computed here). */
  datatype Psnr = Decibels(db: int) | LogRatio

  /** The pair `(mse, psnr)`. */
  datatype Report = Report(mse: real, psnr: Psnr)

  const SentinelPsnr: int := 100

  /** Every channel difference is a multiple of 16, which is exactly when its
      wrapped square vanishes modulo 256. */
  predicate CongruentPixels(p: Pixel, q: Pixel) {
    (p.r - q.r) % 16 == 0 && (p.g - q.g) % 16 == 0 && (p.b - q.b) % 16 == 0
  }

  predicate CongruentImages(o: Image, c: Image)
    requires SameShape(o, c)
  {
    forall i, j :: 0 <= i < |o| && 0 <= j < |o[0]| ==> CongruentPixels(o[i][j], c[i][j])
  }

  /** `calculate_mse_psnr`: the sentinel `(0, 100)` when the mean is 0, else
      the mean with the logarithmic PSNR. */
  function CalculateMsePsnr(o: Image, c: Image): (r: Report)
    requires SameShape(o, c)
    ensures 0.0 <= r.mse <= 255.0
    ensures r.psnr == Decibels(SentinelPsnr) <==> r.mse == 0.0
    ensures r.psnr == LogRatio <==> r.mse > 0.0
    ensures r.mse == 0.0 <==> CongruentImages(o, c)
    ensures o == c ==> r == Report(0.0, Decibels(SentinelPsnr))
  {
    MseBounds(o, c);
    MseZero(o, c);
    var mse := Mse(o, c);
    if mse == 0.0 then Report(0.0, Decibels(SentinelPsnr)) else Report(mse, LogRatio)
  }

  // ---------------------------------------------------------------------------
  // Proofs

  lemma SquareParity(x: int)
    ensures (x * x) % 2 == x % 2
  {
    var q := x / 2;
    if x % 2 == 0 {
      assert x == 2 * q;
      assert x * x == 2 * (2 * q * q);
    } else {
      assert x == 2 * q + 1;
      assert x * x == 2 * (2 * q * q + 2 * q) + 1;
    }
  }

  /** A square that is four times something is the square of an even number. */
  lemma HalveSquare(x: int, kt: int)
    requires x * x == 4 * kt
    ensures x % 2 == 0 && (x / 2) * (x / 2) == kt
  {
    SquareParity(x);
    var e := x / 2;
    assert x == 2 * e;
    assert x * x == 4 * (e * e);
  }

  /** A square wraps to 0 modulo 256 exactly when its root is a multiple of 16. */
  lemma SquareWrapsToZero(d: int)
    ensures WrapSquare(d) == 0 <==> d % 16 == 0
  {
    if (d * d) % 256 == 0 {
      var t := (d * d) / 256;
      assert d * d == 4 * (64 * t);
      HalveSquare(d, 64 * t);
      var e := d / 2;
      HalveSquare(e, 16 * t);
      var f := e / 2;
      HalveSquare(f, 4 * t);
      var g := f / 2;
      HalveSquare(g, t);
      assert d == 16 * (g / 2);
    }
    if d % 16 == 0 {
      var q := d / 16;
      assert d * d == 256 * (q * q);
    }
  }

  /** One element of the squared error vanishes exactly when the two
      intensities agree modulo 16. */
  lemma SquaredErrorZero(o: int, c: int)
    ensures SquaredError(o, c) == 0 <==> (o - c) % 16 == 0
  {
    var d := WrapSub(o, c);
    SquareWrapsToZero(d);
    assert d % 16 == (o - c) % 16;
  }

  lemma {:induction false} ErrorSumBounds(o: seq<Pixel>, c: seq<Pixel>)
    requires |o| == |c|
    ensures ErrorSum(o, c) <= 765 * |o|
  {
    if |o| > 0 {
      ErrorSumBounds(o[1..], c[1..]);
    }
  }

  lemma {:induction false} ErrorSumZero(o: seq<Pixel>, c: seq<Pixel>)
    requires |o| == |c|
    ensures ErrorSum(o, c) == 0 <==> forall k :: 0 <= k < |o| ==> CongruentPixels(o[k], c[k])
  {
    if |o| > 0 {
      ErrorSumZero(o[1..], c[1..]);
      SquaredErrorZero(o[0].r, c[0].r);
      SquaredErrorZero(o[0].g, c[0].g);
      SquaredErrorZero(o[0].b, c[0].b);
      if ErrorSum(o, c) == 0 {
        forall k | 0 <= k < |o| ensures CongruentPixels(o[k], c[k]) {
          if k > 0 {
            assert CongruentPixels(o[1..][k - 1], c[1..][k - 1]);
          }
        }
      }
      if forall k :: 0 <= k < |o| ==> CongruentPixels(o[k], c[k]) {
        assert forall k :: 0 <= k < |o| - 1 ==> CongruentPixels(o[1..][k], c[1..][k]);
      }
    }
  }

  /** Each element lies in [0, 255], so their mean does too. */
  lemma MseBounds(o: Image, c: Image)
    requires SameShape(o, c)
    ensures 0.0 <= Mse(o, c) <= 255.0
  {
    FlattenSameShape(o, c);
    var n := |Flatten(o)|;
    ErrorSumBounds(Flatten(o), Flatten(c));
    var sum := ErrorSum(Flatten(o), Flatten(c));
    RealQuotientBound(sum as real, (3 * n) as real);
  }

  lemma RealQuotientBound(x: real, y: real)
    requires 0.0 <= x <= 255.0 * y && y > 0.0
    ensures 0.0 <= x / y <= 255.0
  {
    assert x / y * y == x;
  }

  /** A mean over a positive count vanishes exactly when its sum does. */
  lemma MeanZero(sum: nat, count: nat)
    requires count > 0
    ensures sum as real / count as real == 0.0 <==> sum == 0
  {
    if sum > 0 {
      assert sum as real / count as real * count as real == sum as real;
    }
  }

  /** Images agree modulo 16 everywhere exactly when their flattened pixel
      sequences agree modulo 16 position by position. */
  lemma CongruentFlat(o: Image, c: Image)
    requires SameShape(o, c)
    ensures |Flatten(o)| == |Flatten(c)|
    ensures CongruentImages(o, c) <==>
      forall k :: 0 <= k < |Flatten(o)| ==> CongruentPixels(Flatten(o)[k], Flatten(c)[k])
  {
    var h, w := |o|, |o[0]|;
    FlattenSameShape(o, c);
    FlattenLength(o, h, w);
    var fo, fc := Flatten(o), Flatten(c);
    if CongruentImages(o, c) {
      forall k | 0 <= k < |fo| ensures CongruentPixels(fo[k], fc[k]) {
        var i, j := TimesSplit(k, h, w);
        FlattenEntry(o, h, w, i, j);
        FlattenEntry(c, h, w, i, j);
      }
    }
    if forall k :: 0 <= k < |fo| ==> CongruentPixels(fo[k], fc[k]) {
      forall i, j | 0 <= i < h && 0 <= j < w ensures CongruentPixels(o[i][j], c[i][j]) {
        FlattenEntry(o, h, w, i, j);
        FlattenEntry(c, h, w, i, j);
      }
    }
  }

  /** The mean vanishes exactly when every pixel pair agrees modulo 16 in
      every channel. */
  lemma MseZero(o: Image, c: Image)
    requires SameShape(o, c)
    ensures Mse(o, c) == 0.0 <==> CongruentImages(o, c)
  {
    FlattenSameShape(o, c);
    var fo, fc := Flatten(o), Flatten(c);
    assert Mse(o, c) == 0.0 <==> ErrorSum(fo, fc) == 0 by {
      MeanZero(ErrorSum(fo, fc), 3 * |fo|);
    }
    ErrorSumZero(fo, fc);
    CongruentFlat(o, c);
  }

  // ---------------------------------------------------------------------------
  // The wrap-around, and the mean of true squared differences

  /** One element of the squared error taken on integers, without wrapping. */
  function TrueSquaredError(o: int, c: int): nat {
    (o - c) * (o - c)
  }

  function TruePixelError(p: Pixel, q: Pixel): nat {
    TrueSquaredError(p.r, q.r) + TrueSquaredError(p.g, q.g) + TrueSquaredError(p.b, q.b)
  }

  function TrueErrorSum(o: seq<Pixel>, c: seq<Pixel>): nat
    requires |o| == |c|
  {
    if |o| == 0 then 0 else TruePixelError(o[0], c[0]) + TrueErrorSum(o[1..], c[1..])
  }

  /** The mean squared error the docstring's formula describes, on true
      differences: `np.mean((original.astype(int) - compressed) ** 2)`. */
  function TrueMse(o: Image, c: Image): real
    requires SameShape(o, c)
  {
    FlattenSameShape(o, c);
    TrueErrorSum(Flatten(o), Flatten(c)) as real / (3 * |Flatten(o)|) as real
  }

  /** `calculate_mse_psnr` on true differences: the sentinel PSNR is reported
      exactly for identical images. */
  function TrueMsePsnr(o: Image, c: Image): (r: Report)
    requires SameShape(o, c)
    ensures r.psnr == Decibels(SentinelPsnr) <==> r.mse == 0.0
    ensures r.mse == 0.0 <==> o == c
  {
    TrueMseZero(o, c);
    var mse := TrueMse(o, c);
    if mse == 0.0 then Report(0.0, Decibels(SentinelPsnr)) else Report(mse, LogRatio)
  }

  lemma {:induction false} TrueErrorSumZero(o: seq<Pixel>, c: seq<Pixel>)
    requires |o| == |c|
    ensures TrueErrorSum(o, c) == 0 <==> o == c
  {
    if |o| > 0 {
      TrueErrorSumZero(o[1..], c[1..]);
      var p, q := o[0], c[0];
      if TruePixelError(p, q) == 0 {
        assert p.r == q.r && p.g == q.g && p.b == q.b;
      }
      if o == c {
        assert o[1..] == c[1..];
      }
      if TrueErrorSum(o, c) == 0 {
        assert o == [o[0]] + o[1..] && c == [c[0]] + c[1..];
      }
    }
  }

  lemma TrueMseZero(o: Image, c: Image)
    requires SameShape(o, c)
    ensures TrueMse(o, c) == 0.0 <==> o == c
  {
    var h, w := |o|, |o[0]|;
    FlattenSameShape(o, c);
    var fo, fc := Flatten(o), Flatten(c);
    assert TrueMse(o, c) == 0.0 <==> TrueErrorSum(fo, fc) == 0 by {
      MeanZero(TrueErrorSum(fo, fc), 3 * |fo|);
    }
    TrueErrorSumZero(fo, fc);
    ReshapeFlatten(o, h, w);
    ReshapeFlatten(c, h, w);
  }

  /** The wrap-around hides real differences: a red channel off by 16 reads as
      a perfect copy (the sentinel PSNR 100), and a channel off by 255 adds 1
      to the sum instead of 65025. */
  lemma WrapAroundHidesDifference()
    ensures CalculateMsePsnr([[Pixel(16, 0, 0)]], [[Pixel(0, 0, 0)]]) == Report(0.0, Decibels(SentinelPsnr))
    ensures TrueMsePsnr([[Pixel(16, 0, 0)]], [[Pixel(0, 0, 0)]]).psnr == LogRatio
    ensures SquaredError(0, 255) == 1 && TrueSquaredError(0, 255) == 65025
  {
    var o, c := [[Pixel(16, 0, 0)]], [[Pixel(0, 0, 0)]];
    assert SameShape(o, c);
    assert CongruentPixels(o[0][0], c[0][0]);
    assert CongruentImages(o, c);
    assert o[0][0] != c[0][0];
  }
}
