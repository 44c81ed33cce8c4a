/** The standalone script app.py: `quantize_channel_histogram_based`, which
    labels a channel with `pd.qcut` and casts the labels to uint8 in the
    channel's shape, and `process_image`, which quantizes R, G and B and
    stretches the labels back to 0..255. `calculate_mse_psnr` is
    Metrics.CalculateMsePsnr. */
module App {
  import opened Arith
  import opened Grids
  import opened Levels
  import opened EqualFrequency

  /** The qcut labels of a sample qcut labels in full (no NaN). */
  function DefinedLabels(x: seq<int>, g: nat): (labels: seq<nat>)
    requires |x| > 0 && g > 0 && (Varied(x) || g == 1)
    ensures |labels| == |x|
    ensures forall k :: 0 <= k < |x| ==> QCut(x, g)[k] == Some(labels[k]) && labels[k] < g
  {
    QCutLabelsInRange(x, g);
    var q := QCut(x, g);
    seq(|x|, k requires 0 <= k < |x| => q[k].value)
  }

  /** `.astype(np.uint8)`: each label taken modulo 256. */
  function ByteLabels(labels: seq<nat>): (f: seq<int>)
    ensures |f| == |labels|
    ensures forall k :: 0 <= k < |labels| ==> IsByte(f[k]) && f[k] <= labels[k]
    ensures forall k :: 0 <= k < |labels| ==> labels[k] < 256 ==> f[k] == labels[k]
  {
    seq(|labels|, k requires 0 <= k < |labels| => labels[k] % 256)
  }

  /** `quantize_channel_histogram_based(channel_array, bits)`: qcut labels of
      the flattened channel, cast to uint8 and reshaped to the channel's shape.
      A constant channel with bits >= 1 gets NaN labels, whose uint8 cast is
      unspecified, so the channel must vary unless bits is 0 (G = 1). */
  function QuantizeChannelHistogramBased(channel: Matrix, bits: nat): (m: Matrix)
    requires IsChannel(channel) && (Varied(Flatten(channel)) || bits == 0)
    ensures IsChannel(m) && IsGrid(m, |channel|, |channel[0]|)
    ensures forall i, j :: 0 <= i < |m| && 0 <= j < |m[i]| ==> m[i][j] < LevelCount(bits)
  {
    var h, w, g := |channel|, |channel[0]|, LevelCount(bits);
    FlattenLength(channel, h, w);
    TimesMonotone(1, h, w);
    assert bits == 0 ==> g == 1;
    var f := ByteLabels(DefinedLabels(Flatten(channel), g));
    ReshapeBounds(f, h, w, g);
    Reshape(f, h, w)
  }

  lemma ReshapeBounds(f: seq<int>, h: nat, w: nat, g: nat)
    requires |f| == Times(h, w)
    requires forall k :: 0 <= k < |f| ==> IsByte(f[k]) && f[k] < g
    ensures forall i, j :: 0 <= i < h && 0 <= j < w ==> IsByte(Reshape(f, h, w)[i][j]) && Reshape(f, h, w)[i][j] < g
  {
    var m := Reshape(f, h, w);
    forall i, j | 0 <= i < h && 0 <= j < w ensures IsByte(m[i][j]) && m[i][j] < g {
      TimesMonotone(i, h, w);
      assert m[i][j] == f[Times(i, w) + j];
    }
  }

  /** Pixel (i, j) of a quantized channel carries the qcut label of its own
      intensity; below 9 bits the uint8 cast leaves the label unchanged. */
  lemma PixelLabel(channel: Matrix, bits: nat, i: nat, j: nat) returns (k: nat)
    requires IsChannel(channel) && (Varied(Flatten(channel)) || bits == 0)
    requires bits <= 8 && i < |channel| && j < |channel[0]|
    ensures k == Times(i, |channel[0]|) + j
    ensures k < |Flatten(channel)| && Flatten(channel)[k] == channel[i][j]
    ensures QCut(Flatten(channel), LevelCount(bits))[k]
      == Some(QuantizeChannelHistogramBased(channel, bits)[i][j])
  {
    var h, w := |channel|, |channel[0]|;
    var flat, g := Flatten(channel), LevelCount(bits);
    k := Times(i, w) + j;
    FlattenEntry(channel, h, w, i, j);
    FlattenLength(channel, h, w);
    TimesMonotone(1, h, w);
    LevelCountFitsByte(bits);
    var labels := DefinedLabels(flat, g);
    assert QuantizeChannelHistogramBased(channel, bits) == Reshape(ByteLabels(labels), h, w);
  }

  /** Each label is the index of the qcut edge interval holding the pixel's
      intensity: `(e[l], e[l+1]]`, or `[e[0], e[1]]` for the first. */
  lemma QuantizedLabelIsBin(channel: Matrix, bits: nat, i: nat, j: nat)
    requires IsChannel(channel) && Varied(Flatten(channel))
    requires bits <= 8 && i < |channel| && j < |channel[0]|
    ensures InBin(CutEdges(Flatten(channel), LevelCount(bits)),
                  QuantizeChannelHistogramBased(channel, bits)[i][j], channel[i][j] as real)
  {
    var k := PixelLabel(channel, bits, i, j);
    QCutBins(Flatten(channel), LevelCount(bits), k);
  }

  /** Binning is by value: a brighter pixel never gets a lower label, and equal
      intensities share a label. */
  lemma QuantizedMonotone(channel: Matrix, bits: nat, i1: nat, j1: nat, i2: nat, j2: nat)
    requires IsChannel(channel) && (Varied(Flatten(channel)) || bits == 0) && bits <= 8
    requires i1 < |channel| && j1 < |channel[0]| && i2 < |channel| && j2 < |channel[0]|
    requires channel[i1][j1] <= channel[i2][j2]
    ensures var m := QuantizeChannelHistogramBased(channel, bits);
      m[i1][j1] <= m[i2][j2] && (channel[i1][j1] == channel[i2][j2] ==> m[i1][j1] == m[i2][j2])
  {
    var k1 := PixelLabel(channel, bits, i1, j1);
    var k2 := PixelLabel(channel, bits, i2, j2);
    QCutMonotone(Flatten(channel), LevelCount(bits), k1, k2);
  }

  /** The darkest pixels of the channel get label 0. */
  lemma QuantizedMinimum(channel: Matrix, bits: nat, i: nat, j: nat)
    requires IsChannel(channel) && (Varied(Flatten(channel)) || bits == 0) && bits <= 8
    requires i < |channel| && j < |channel[0]|
    requires forall i', j' :: 0 <= i' < |channel| && 0 <= j' < |channel[0]| ==> channel[i][j] <= channel[i'][j']
    ensures QuantizeChannelHistogramBased(channel, bits)[i][j] == 0
  {
    var h, w := |channel|, |channel[0]|;
    var flat := Flatten(channel);
    var k := PixelLabel(channel, bits, i, j);
    FlattenLength(channel, h, w);
    forall k' | 0 <= k' < |flat| ensures flat[k] <= flat[k'] {
      var i', j' := TimesSplit(k', h, w);
      FlattenEntry(channel, h, w, i', j');
    }
    QCutMinimum(flat, LevelCount(bits), k);
  }

  /** `(new * factor).astype(np.uint8)` for one channel of labels, factor
      `255 / (2**bits - 1)`: every label below G becomes its display level. */
  function Reconstruct(m: Matrix, bits: nat): (d: Matrix)
    requires bits >= 1 && IsChannel(m)
    requires forall i, j :: 0 <= i < |m| && 0 <= j < |m[i]| ==> m[i][j] < LevelCount(bits)
    ensures IsChannel(d) && IsGrid(d, |m|, |m[0]|)
    ensures forall i, j :: 0 <= i < |m| && 0 <= j < |m[i]| ==> d[i][j] == ScaleLabel(m[i][j], bits)
  {
    forall i, j | 0 <= i < |m| && 0 <= j < |m[i]| ensures ScaleLabel(m[i][j], bits) <= 255 {
      ScaleLabelRange(m[i][j], bits);
    }
    seq(|m|, i requires 0 <= i < |m| => seq(|m[i]|, j requires 0 <= j < |m[i]| => ScaleLabel(m[i][j], bits)))
  }

  /** One channel of `process_image`: `img[:, :, c]` quantized and stretched. */
  function ChannelOut(img: Image, bits: nat, c: nat): (d: Matrix)
    requires IsImage(img) && bits >= 1 && c < 3 && Varied(Flatten(Plane(img, c)))
    ensures IsChannel(d) && IsGrid(d, |img|, |img[0]|)
  {
    PlaneIsChannel(img, c);
    Reconstruct(QuantizeChannelHistogramBased(Plane(img, c), bits), bits)
  }

  /** `process_image(image, bits)`: the three channels quantized separately,
      stretched to 0..255 and stacked back in the order R, G, B. `255 / 0`
      raises for bits = 0, and a constant channel has no defined labels, so
      both are excluded. */
  function ProcessImage(img: Image, bits: nat): (out: Image)
    requires IsImage(img) && bits >= 1
    requires forall c :: 0 <= c < 3 ==> Varied(Flatten(Plane(img, c)))
    ensures IsImage(out) && IsGrid(out, |img|, |img[0]|)
    ensures Plane(out, 0) == ChannelOut(img, bits, 0)
    ensures Plane(out, 1) == ChannelOut(img, bits, 1)
    ensures Plane(out, 2) == ChannelOut(img, bits, 2)
  {
    var r, g, b := ChannelOut(img, bits, 0), ChannelOut(img, bits, 1), ChannelOut(img, bits, 2);
    PlanesOfStack(r, g, b, |img|, |img[0]|);
    Stack(r, g, b, |img|, |img[0]|)
  }

  lemma OutputPlane(img: Image, bits: nat, c: nat)
    requires IsImage(img) && bits >= 1 && c < 3
    requires forall c' :: 0 <= c' < 3 ==> Varied(Flatten(Plane(img, c')))
    ensures Plane(ProcessImage(img, bits), c) == ChannelOut(img, bits, c)
  {
    if c == 0 {
      RedOut(img, bits, c);
    } else if c == 1 {
      GreenOut(img, bits, c);
    } else {
      BlueOut(img, bits, c);
    }
  }

  // OutputPlane for each channel on its own. With the channel fixed by an
  // equation the solver substitutes it, which keeps these proofs small.

  lemma RedOut(img: Image, bits: nat, c: nat)
    requires IsImage(img) && bits >= 1 && c == 0
    requires forall c' :: 0 <= c' < 3 ==> Varied(Flatten(Plane(img, c')))
    ensures Plane(ProcessImage(img, bits), c) == ChannelOut(img, bits, c)
  {
  }

  lemma GreenOut(img: Image, bits: nat, c: nat)
    requires IsImage(img) && bits >= 1 && c == 1
    requires forall c' :: 0 <= c' < 3 ==> Varied(Flatten(Plane(img, c')))
    ensures Plane(ProcessImage(img, bits), c) == ChannelOut(img, bits, c)
  {
  }

  lemma BlueOut(img: Image, bits: nat, c: nat)
    requires IsImage(img) && bits >= 1 && c == 2
    requires forall c' :: 0 <= c' < 3 ==> Varied(Flatten(Plane(img, c')))
    ensures Plane(ProcessImage(img, bits), c) == ChannelOut(img, bits, c)
  {
  }

  /** Channel c of output pixel (i, j) is the display level of the label
      that pixel's channel-c intensity received. */
  lemma OutputPixel(img: Image, bits: nat, c: nat, i: nat, j: nat)
    requires IsImage(img) && bits >= 1 && c < 3
    requires forall c' :: 0 <= c' < 3 ==> Varied(Flatten(Plane(img, c')))
    requires i < |img| && j < |img[0]|
    ensures var m := QuantizeChannelHistogramBased(Plane(img, c), bits);
      m[i][j] < LevelCount(bits) && Component(ProcessImage(img, bits)[i][j], c) == ScaleLabel(m[i][j], bits)
  {
    PlaneIsChannel(img, c);
    var out := ProcessImage(img, bits);
    var m := QuantizeChannelHistogramBased(Plane(img, c), bits);
    var d := ChannelOut(img, bits, c);
    assert d[i][j] == ScaleLabel(m[i][j], bits) by {
      assert d == Reconstruct(m, bits);
    }
    assert Component(out[i][j], c) == d[i][j] by {
      OutputPlane(img, bits, c);
      assert Component(out[i][j], c) == Plane(out, c)[i][j];
    }
  }

  /** Reconstruction keeps the order of intensities within each channel. */
  lemma ProcessImageMonotone(img: Image, bits: nat, c: nat, i1: nat, j1: nat, i2: nat, j2: nat)
    requires IsImage(img) && 1 <= bits <= 8 && c < 3
    requires forall c' :: 0 <= c' < 3 ==> Varied(Flatten(Plane(img, c')))
    requires i1 < |img| && j1 < |img[0]| && i2 < |img| && j2 < |img[0]|
    requires Component(img[i1][j1], c) <= Component(img[i2][j2], c)
    ensures var out := ProcessImage(img, bits);
      Component(out[i1][j1], c) <= Component(out[i2][j2], c)
  {
    PlaneIsChannel(img, c);
    var m := QuantizeChannelHistogramBased(Plane(img, c), bits);
    OutputPixel(img, bits, c, i1, j1);
    OutputPixel(img, bits, c, i2, j2);
    QuantizedMonotone(Plane(img, c), bits, i1, j1, i2, j2);
    ScaleLabelMonotone(m[i1][j1], m[i2][j2], bits);
  }

  /** The darkest pixels of each channel come out as 0 in that channel. */
  lemma ProcessImageDarkest(img: Image, bits: nat, c: nat, i: nat, j: nat)
    requires IsImage(img) && 1 <= bits <= 8 && c < 3
    requires forall c' :: 0 <= c' < 3 ==> Varied(Flatten(Plane(img, c')))
    requires i < |img| && j < |img[0]|
    requires forall i', j' :: 0 <= i' < |img| && 0 <= j' < |img[0]| ==>
      Component(img[i][j], c) <= Component(img[i'][j'], c)
    ensures Component(ProcessImage(img, bits)[i][j], c) == 0
  {
    PlaneIsChannel(img, c);
    OutputPixel(img, bits, c, i, j);
    QuantizedMinimum(Plane(img, c), bits, i, j);
    ScaleLabelRange(0, bits);
  }

  /** Every output intensity is one of the G display levels
      ScaleLabel(0, bits) .. ScaleLabel(G - 1, bits). */
  lemma ProcessImageLevels(img: Image, bits: nat, c: nat, i: nat, j: nat)
    requires IsImage(img) && bits >= 1 && c < 3
    requires forall c' :: 0 <= c' < 3 ==> Varied(Flatten(Plane(img, c')))
    requires i < |img| && j < |img[0]|
    ensures exists l :: 0 <= l < LevelCount(bits) && Component(ProcessImage(img, bits)[i][j], c) == ScaleLabel(l, bits)
  {
    PlaneIsChannel(img, c);
    OutputPixel(img, bits, c, i, j);
  }
}
