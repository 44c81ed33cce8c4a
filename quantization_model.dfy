/** The `QuantizationModel` class of models/model.py. It has no fields, so its
    methods are functions: `_quantize_channel` (flat qcut labels, NaN kept),
    `process_image` (the reconstruction and the dictionary it returns) and
    `extract_palette`. `calculate_mse_psnr` is Metrics.CalculateMsePsnr. */
module QuantizationModel {
  import opened Arith
  import opened Grids
  import opened Levels
  import opened EqualFrequency
  import opened Palette

  /** `_quantize_channel(channel_array, bits)`: qcut labels of the flattened
      channel, still flat. None stands for NaN. */
  function QuantizeChannel(channel: Matrix, bits: nat): (labels: seq<Option<nat>>)
    requires IsChannel(channel)
    ensures |labels| == Times(|channel|, |channel[0]|)
    ensures Varied(Flatten(channel)) || bits == 0 ==>
      forall k :: 0 <= k < |labels| ==> labels[k].Some? && labels[k].value < LevelCount(bits)
    ensures !Varied(Flatten(channel)) && bits >= 1 ==>
      forall k :: 0 <= k < |labels| ==> labels[k] == None
  {
    var flat, g := Flatten(channel), LevelCount(bits);
    FlattenLength(channel, |channel|, |channel[0]|);
    TimesMonotone(1, |channel|, |channel[0]|);
    if Varied(flat) then
      QCutLabelsInRange(flat, g);
      QCut(flat, g)
    else
      QCutOfConstant(flat, g);
      QCut(flat, g)
  }

  /** Labels follow intensities: a brighter pixel never gets a lower label,
      and equal intensities share one. */
  lemma QuantizeChannelMonotone(channel: Matrix, bits: nat, i1: nat, j1: nat, i2: nat, j2: nat)
    requires IsChannel(channel) && (Varied(Flatten(channel)) || bits == 0)
    requires i1 < |channel| && j1 < |channel[0]| && i2 < |channel| && j2 < |channel[0]|
    requires channel[i1][j1] <= channel[i2][j2]
    ensures var labels, w := QuantizeChannel(channel, bits), |channel[0]|;
      && Times(i1, w) + j1 < |labels| && Times(i2, w) + j2 < |labels|
      && labels[Times(i1, w) + j1].Some? && labels[Times(i2, w) + j2].Some?
      && labels[Times(i1, w) + j1].value <= labels[Times(i2, w) + j2].value
      && (channel[i1][j1] == channel[i2][j2] ==> labels[Times(i1, w) + j1] == labels[Times(i2, w) + j2])
  {
    var h, w := |channel|, |channel[0]|;
    FlattenEntry(channel, h, w, i1, j1);
    FlattenEntry(channel, h, w, i2, j2);
    QCutMonotone(Flatten(channel), LevelCount(bits), Times(i1, w) + j1, Times(i2, w) + j2);
  }

  /** `(label * factor).astype(np.uint8)` with `factor = 255 / (2**bits - 1)`
      when bits > 0 and 1 otherwise. */
  function DisplayValue(level: nat, bits: nat): nat {
    if bits > 0 then ScaleLabel(level, bits) else level
  }

  /** Every label below G displays within [0, 255], label 0 as black, and
      the display keeps the order of labels. */
  lemma DisplayValueRange(l1: nat, l2: nat, bits: nat)
    requires l1 <= l2 < LevelCount(bits)
    ensures DisplayValue(l1, bits) <= DisplayValue(l2, bits) <= 255
    ensures l1 == 0 ==> DisplayValue(l1, bits) == 0
    ensures bits >= 1 && l2 == LevelCount(bits) - 1 ==> DisplayValue(l2, bits) == 255
  {
    if bits > 0 {
      ScaleLabelMonotone(l1, l2, bits);
      ScaleLabelRange(l1, bits);
      ScaleLabelRange(l2, bits);
    }
  }

  /** `r_labels.reshape(r.shape)` then `(r_new * factor).astype(np.uint8)`. */
  function DisplayChannel(labels: seq<Option<nat>>, bits: nat, h: nat, w: nat): (d: Matrix)
    requires |labels| == Times(h, w)
    requires forall k :: 0 <= k < |labels| ==> labels[k].Some? && labels[k].value < LevelCount(bits)
    ensures IsGrid(d, h, w)
    ensures forall i, j {:trigger d[i][j]} :: 0 <= i < h && 0 <= j < w ==>
      Times(i, w) + j < |labels| && d[i][j] == DisplayValue(labels[Times(i, w) + j].value, bits)
    ensures forall i, j :: 0 <= i < h && 0 <= j < w ==> IsByte(d[i][j])
  {
    forall k | 0 <= k < |labels| ensures DisplayValue(labels[k].value, bits) <= 255 {
      DisplayValueRange(labels[k].value, labels[k].value, bits);
    }
    TimesRows(h, w);
    seq(h, i requires 0 <= i < h =>
      seq(w, j requires 0 <= j < w => DisplayValue(labels[Times(i, w) + j].value, bits)))
  }

  /** One entry of `channels_display`: channel c quantized and displayed. */
  function ChannelDisplay(img: Image, bits: nat, c: nat): (d: Matrix)
    requires IsImage(img) && c < 3 && (bits == 0 || Varied(Flatten(Plane(img, c))))
    ensures IsChannel(d) && IsGrid(d, |img|, |img[0]|)
  {
    PlaneIsChannel(img, c);
    DisplayChannel(QuantizeChannel(Plane(img, c), bits), bits, |img|, |img[0]|)
  }

  /** Every colour channel of the image holds at least two intensities. */
  predicate ChannelsVaried(img: Image) {
    forall c :: 0 <= c < 3 ==> Varied(Flatten(Plane(img, c)))
  }

  /** The dictionary `process_image` returns; `reconstructed_img` is the same
      array wrapped by PIL and is not repeated. */
  datatype Processed = Processed(
    reconstructedArray: Image,
    originalArray: Image,
    channelsDisplay: (Matrix, Matrix, Matrix),
    rawLabelsR: seq<Option<nat>>)

  /** `process_image(image, bits)`. A constant channel with bits >= 1 has NaN
      labels, whose uint8 cast is unspecified, so each channel must vary
      unless bits is 0. */
  function ProcessImage(img: Image, bits: nat): (p: Processed)
    requires IsImage(img) && (bits == 0 || ChannelsVaried(img))
    ensures p.originalArray == img
    ensures IsImage(p.reconstructedArray) && IsGrid(p.reconstructedArray, |img|, |img[0]|)
    ensures p.channelsDisplay.0 == Plane(p.reconstructedArray, 0) == ChannelDisplay(img, bits, 0)
    ensures p.channelsDisplay.1 == Plane(p.reconstructedArray, 1) == ChannelDisplay(img, bits, 1)
    ensures p.channelsDisplay.2 == Plane(p.reconstructedArray, 2) == ChannelDisplay(img, bits, 2)
    ensures p.rawLabelsR == QuantizeChannel(Plane(img, 0), bits)
  {
    var h, w := |img|, |img[0]|;
    var r, g, b := ChannelDisplay(img, bits, 0), ChannelDisplay(img, bits, 1), ChannelDisplay(img, bits, 2);
    PlanesOfStack(r, g, b, h, w);
    PlaneIsChannel(img, 0);
    Processed(Stack(r, g, b, h, w), img, (r, g, b), QuantizeChannel(Plane(img, 0), bits))
  }

  /** Plane c of `reconstructed_array` is `channels_display[c]`. */
  lemma ReconstructedPlane(img: Image, bits: nat, c: nat)
    requires IsImage(img) && (bits == 0 || ChannelsVaried(img))
    requires c < 3
    ensures Plane(ProcessImage(img, bits).reconstructedArray, c) == ChannelDisplay(img, bits, c)
  {
    if c == 0 {
      RedPlane(img, bits, c);
    } else if c == 1 {
      GreenPlane(img, bits, c);
    } else {
      BluePlane(img, bits, c);
    }
  }

  // ReconstructedPlane for each channel on its own. With the channel fixed by
  // an equation the solver substitutes it, which keeps these proofs small.

  lemma RedPlane(img: Image, bits: nat, c: nat)
    requires IsImage(img) && (bits == 0 || ChannelsVaried(img)) && c == 0
    ensures Plane(ProcessImage(img, bits).reconstructedArray, c) == ChannelDisplay(img, bits, c)
  {
  }

  lemma GreenPlane(img: Image, bits: nat, c: nat)
    requires IsImage(img) && (bits == 0 || ChannelsVaried(img)) && c == 1
    ensures Plane(ProcessImage(img, bits).reconstructedArray, c) == ChannelDisplay(img, bits, c)
  {
  }

  lemma BluePlane(img: Image, bits: nat, c: nat)
    requires IsImage(img) && (bits == 0 || ChannelsVaried(img)) && c == 2
    ensures Plane(ProcessImage(img, bits).reconstructedArray, c) == ChannelDisplay(img, bits, c)
  {
  }

  /** Channel c of reconstructed pixel (i, j) is the display value of the
      label of that pixel's channel-c intensity. */
  lemma ReconstructedPixel(img: Image, bits: nat, c: nat, i: nat, j: nat)
    requires IsImage(img) && (bits == 0 || ChannelsVaried(img))
    requires c < 3 && i < |img| && j < |img[0]|
    ensures var labels, k := QuantizeChannel(Plane(img, c), bits), Times(i, |img[0]|) + j;
      && k < |labels| && labels[k].Some? && labels[k].value < LevelCount(bits)
      && Component(ProcessImage(img, bits).reconstructedArray[i][j], c) == DisplayValue(labels[k].value, bits)
  {
    var out := ProcessImage(img, bits).reconstructedArray;
    ChannelDisplayEntry(img, bits, c, i, j);
    assert Component(out[i][j], c) == ChannelDisplay(img, bits, c)[i][j] by {
      ReconstructedPlane(img, bits, c);
      assert Component(out[i][j], c) == Plane(out, c)[i][j];
    }
  }

  /** Entry (i, j) of `channels_display[c]` is the display value of the label
      of pixel (i, j) in channel c. */
  lemma ChannelDisplayEntry(img: Image, bits: nat, c: nat, i: nat, j: nat)
    requires IsImage(img) && c < 3 && (bits == 0 || Varied(Flatten(Plane(img, c))))
    requires i < |img| && j < |img[0]|
    ensures var labels, k := QuantizeChannel(Plane(img, c), bits), Times(i, |img[0]|) + j;
      && k < |labels| && labels[k].Some? && labels[k].value < LevelCount(bits)
      && ChannelDisplay(img, bits, c)[i][j] == DisplayValue(labels[k].value, bits)
  {
    var h, w := |img|, |img[0]|;
    PlaneIsChannel(img, c);
    var labels := QuantizeChannel(Plane(img, c), bits);
    var k := Times(i, w) + j;
    assert |labels| == Times(h, w) && k < |labels| by {
      TimesMonotone(i, h, w);
    }
    assert labels[k].Some? && labels[k].value < LevelCount(bits);
    assert ChannelDisplay(img, bits, c)[i][j] == DisplayValue(labels[k].value, bits) by {
      var d := DisplayChannel(labels, bits, h, w);
      assert ChannelDisplay(img, bits, c) == d;
    }
  }

  /** With bits = 0 there is a single level and factor 1: the reconstruction
      is black, whatever the image. */
  lemma ZeroBitsIsBlack(img: Image, i: nat, j: nat)
    requires IsImage(img) && i < |img| && j < |img[0]|
    ensures ProcessImage(img, 0).reconstructedArray[i][j] == Pixel(0, 0, 0)
  {
    var out := ProcessImage(img, 0).reconstructedArray;
    forall c | 0 <= c < 3 ensures Component(out[i][j], c) == 0 {
      ReconstructedPixel(img, 0, c, i, j);
    }
  }

  /** Reconstruction keeps the order of intensities within each channel, and
      the darkest pixels of a channel come out as 0 in it. */
  lemma ReconstructedMonotone(img: Image, bits: nat, c: nat, i1: nat, j1: nat, i2: nat, j2: nat)
    requires IsImage(img) && (bits == 0 || ChannelsVaried(img))
    requires c < 3 && i1 < |img| && j1 < |img[0]| && i2 < |img| && j2 < |img[0]|
    requires Component(img[i1][j1], c) <= Component(img[i2][j2], c)
    ensures var out := ProcessImage(img, bits).reconstructedArray;
      Component(out[i1][j1], c) <= Component(out[i2][j2], c)
  {
    var out := ProcessImage(img, bits).reconstructedArray;
    ChannelDisplayMonotone(img, bits, c, i1, j1, i2, j2);
    ReconstructedPlane(img, bits, c);
    assert Component(out[i1][j1], c) == Plane(out, c)[i1][j1];
    assert Component(out[i2][j2], c) == Plane(out, c)[i2][j2];
  }

  /** Within one displayed channel, a brighter input pixel never displays
      darker. */
  lemma ChannelDisplayMonotone(img: Image, bits: nat, c: nat, i1: nat, j1: nat, i2: nat, j2: nat)
    requires IsImage(img) && c < 3 && (bits == 0 || Varied(Flatten(Plane(img, c))))
    requires i1 < |img| && j1 < |img[0]| && i2 < |img| && j2 < |img[0]|
    requires Component(img[i1][j1], c) <= Component(img[i2][j2], c)
    ensures ChannelDisplay(img, bits, c)[i1][j1] <= ChannelDisplay(img, bits, c)[i2][j2]
  {
    var ch := Plane(img, c);
    PlaneIsChannel(img, c);
    assert ch[i1][j1] <= ch[i2][j2];
    DisplayMonotone(ch, bits, i1, j1, i2, j2);
    assert ChannelDisplay(img, bits, c) == DisplayChannel(QuantizeChannel(ch, bits), bits, |ch|, |ch[0]|);
  }

  /** The display of one quantized channel keeps the order of intensities. */
  lemma DisplayMonotone(ch: Matrix, bits: nat, i1: nat, j1: nat, i2: nat, j2: nat)
    requires IsChannel(ch) && (bits == 0 || Varied(Flatten(ch)))
    requires i1 < |ch| && j1 < |ch[0]| && i2 < |ch| && j2 < |ch[0]|
    requires ch[i1][j1] <= ch[i2][j2]
    ensures var labels := QuantizeChannel(ch, bits);
      var d := DisplayChannel(labels, bits, |ch|, |ch[0]|);
      d[i1][j1] <= d[i2][j2]
  {
    var h, w := |ch|, |ch[0]|;
    var labels := QuantizeChannel(ch, bits);
    var k1, k2 := Times(i1, w) + j1, Times(i2, w) + j2;
    assert k1 < |labels| && k2 < |labels| && labels[k1].value <= labels[k2].value by {
      QuantizeChannelMonotone(ch, bits, i1, j1, i2, j2);
    }
    DisplayFollowsLabels(labels, bits, h, w, i1, j1, i2, j2);
  }
  /** Entry (i, j) of the displayed channel shows the label at flat position
      Times(i, w) + j, the row-major position `reshape` reads it from. */
  lemma DisplayChannelEntry(labels: seq<Option<nat>>, bits: nat, h: nat, w: nat, i: nat, j: nat)
    requires |labels| == Times(h, w)
    requires forall k :: 0 <= k < |labels| ==> labels[k].Some? && labels[k].value < LevelCount(bits)
    requires i < h && j < w
    ensures Times(i, w) + j < |labels|
    ensures DisplayChannel(labels, bits, h, w)[i][j] == DisplayValue(labels[Times(i, w) + j].value, bits)
  {
    TimesMonotone(i, h, w);
  }

  /** Display entries follow the order of their labels. */
  lemma DisplayFollowsLabels(labels: seq<Option<nat>>, bits: nat, h: nat, w: nat, i1: nat, j1: nat, i2: nat, j2: nat)
    requires |labels| == Times(h, w)
    requires forall k :: 0 <= k < |labels| ==> labels[k].Some? && labels[k].value < LevelCount(bits)
    requires i1 < h && j1 < w && i2 < h && j2 < w
    requires Times(i1, w) + j1 < |labels| && Times(i2, w) + j2 < |labels|
    requires labels[Times(i1, w) + j1].value <= labels[Times(i2, w) + j2].value
    ensures var d := DisplayChannel(labels, bits, h, w); d[i1][j1] <= d[i2][j2]
  {
    var k1, k2 := Times(i1, w) + j1, Times(i2, w) + j2;
    assert labels[k2].value < LevelCount(bits);
    DisplayValueRange(labels[k1].value, labels[k2].value, bits);
    DisplayOrdered(labels, bits, h, w, i1, j1, i2, j2);
  }

  /** Display entries follow the order of the display values of their labels. */
  lemma DisplayOrdered(labels: seq<Option<nat>>, bits: nat, h: nat, w: nat, i1: nat, j1: nat, i2: nat, j2: nat)
    requires |labels| == Times(h, w)
    requires forall k :: 0 <= k < |labels| ==> labels[k].Some? && labels[k].value < LevelCount(bits)
    requires i1 < h && j1 < w && i2 < h && j2 < w
    requires Times(i1, w) + j1 < |labels| && Times(i2, w) + j2 < |labels|
    requires DisplayValue(labels[Times(i1, w) + j1].value, bits) <= DisplayValue(labels[Times(i2, w) + j2].value, bits)
    ensures var d := DisplayChannel(labels, bits, h, w); d[i1][j1] <= d[i2][j2]
  {
    DisplayChannelEntry(labels, bits, h, w, i1, j1);
    DisplayChannelEntry(labels, bits, h, w, i2, j2);
  }

  /** `extract_palette(image_array, num)`: the distinct RGB rows, ascending;
      when there are more than num of them, num rows sampled at
      `np.linspace(0, len - 1, num, dtype=int)`. */
  function ExtractPalette(imageArray: Image, num: nat): (palette: seq<Pixel>)
    ensures var u := UniqueRows(Flatten(imageArray));
      |palette| == (if |u| > num then num else |u|)
    ensures Ascending(palette)
    ensures forall k :: 0 <= k < |palette| ==> palette[k] in Flatten(imageArray)
    ensures |UniqueRows(Flatten(imageArray))| <= num ==>
      forall q :: q in palette <==> q in Flatten(imageArray)
  {
    var u := UniqueRows(Flatten(imageArray));
    if |u| > num then
      forall i | 0 <= i < num ensures LinspaceIndex(i, |u|, num) < |u| {
        LinspaceBounds(i, |u|, num);
      }
      var palette := seq(num, i requires 0 <= i < num => u[LinspaceIndex(i, |u|, num)]);
      forall i, j | 0 <= i < j < num ensures Below(palette[i], palette[j]) {
        LinspaceIncreasing(i, j, |u|, num);
      }
      palette
    else
      u
  }

  /** From two rows on, the sampled palette starts with the smallest and ends
      with the largest distinct row of the image. */
  lemma PaletteEnds(imageArray: Image, num: nat)
    requires num >= 2 && |UniqueRows(Flatten(imageArray))| > num
    ensures var palette := ExtractPalette(imageArray, num);
      forall q :: q in Flatten(imageArray) ==>
        (q == palette[0] || Below(palette[0], q)) && (q == palette[num - 1] || Below(q, palette[num - 1]))
  {
    var u := UniqueRows(Flatten(imageArray));
    var palette := ExtractPalette(imageArray, num);
    LinspaceBounds(0, |u|, num);
    LinspaceBounds(num - 1, |u|, num);
    assert palette[0] == u[0] && palette[num - 1] == u[|u| - 1];
    forall q | q in Flatten(imageArray)
      ensures (q == u[0] || Below(u[0], q)) && (q == u[|u| - 1] || Below(q, u[|u| - 1]))
    {
      var k :| 0 <= k < |u| && u[k] == q;
    }
  }

  /** The palette rows are pixels of the image. */
  lemma PaletteFromImage(imageArray: Image, num: nat, k: nat)
    requires k < |ExtractPalette(imageArray, num)|
    ensures exists i, j ::
      0 <= i < |imageArray| && 0 <= j < |imageArray[i]| && imageArray[i][j] == ExtractPalette(imageArray, num)[k]
  {
    FlattenMember(imageArray, ExtractPalette(imageArray, num)[k]);
  }
}
