/** The two copies of the pipeline side by side: app.py's `process_image` and
    the `reconstructed_array` of models/model.py's `process_image` agree on
    every image they both accept, up to 8 bits. app.py casts the labels to
    uint8 before rescaling, which changes no label below 256. */
module Pipelines {
  import opened Arith
  import opened Grids
  import opened Levels
  import opened EqualFrequency
  import App
  import QuantizationModel

  /** Pixel (i, j) of channel c is displayed alike by both copies. */
  lemma EntriesAgree(img: Image, bits: nat, c: nat, i: nat, j: nat)
    requires IsImage(img) && 1 <= bits <= 8 && c < 3 && Varied(Flatten(Plane(img, c)))
    requires i < |img| && j < |img[0]|
    ensures App.ChannelOut(img, bits, c)[i][j] == QuantizationModel.ChannelDisplay(img, bits, c)[i][j]
  {
    AppEntry(img, bits, c, i, j);
    ModelEntry(img, bits, c, i, j);
  }

  /** app.py displays pixel (i, j) of channel c as the rescaled qcut label at
      its flat position. */
  lemma AppEntry(img: Image, bits: nat, c: nat, i: nat, j: nat)
    requires IsImage(img) && 1 <= bits <= 8 && c < 3 && Varied(Flatten(Plane(img, c)))
    requires i < |img| && j < |img[0]|
    ensures var q, k := QCut(Flatten(Plane(img, c)), LevelCount(bits)), Times(i, |img[0]|) + j;
      && k < |q| && q[k].Some?
      && App.ChannelOut(img, bits, c)[i][j] == ScaleLabel(q[k].value, bits)
  {
    PlaneIsChannel(img, c);
    var ch := Plane(img, c);
    var m := App.QuantizeChannelHistogramBased(ch, bits);
    assert App.ChannelOut(img, bits, c)[i][j] == ScaleLabel(m[i][j], bits) by {
      assert App.ChannelOut(img, bits, c) == App.Reconstruct(m, bits);
    }
    var q, k := QCut(Flatten(ch), LevelCount(bits)), Times(i, |img[0]|) + j;
    assert k < |q| && q[k] == Some(m[i][j]) by {
      var k' := App.PixelLabel(ch, bits, i, j);
    }
  }

  /** models/model.py displays pixel (i, j) of channel c as the rescaled qcut
      label at its flat position. */
  lemma ModelEntry(img: Image, bits: nat, c: nat, i: nat, j: nat)
    requires IsImage(img) && 1 <= bits <= 8 && c < 3 && Varied(Flatten(Plane(img, c)))
    requires i < |img| && j < |img[0]|
    ensures var q, k := QCut(Flatten(Plane(img, c)), LevelCount(bits)), Times(i, |img[0]|) + j;
      && k < |q| && q[k].Some?
      && QuantizationModel.ChannelDisplay(img, bits, c)[i][j] == ScaleLabel(q[k].value, bits)
  {
    PlaneIsChannel(img, c);
    var ch := Plane(img, c);
    assert QuantizationModel.QuantizeChannel(ch, bits) == QCut(Flatten(ch), LevelCount(bits));
    QuantizationModel.ChannelDisplayEntry(img, bits, c, i, j);
  }

  /** Channel c is displayed alike by both copies. */
  lemma ChannelsAgree(img: Image, bits: nat, c: nat)
    requires IsImage(img) && 1 <= bits <= 8 && c < 3 && Varied(Flatten(Plane(img, c)))
    ensures App.ChannelOut(img, bits, c) == QuantizationModel.ChannelDisplay(img, bits, c)
  {
    var a, b := App.ChannelOut(img, bits, c), QuantizationModel.ChannelDisplay(img, bits, c);
    forall i, j | 0 <= i < |img| && 0 <= j < |img[0]| ensures a[i][j] == b[i][j] {
      EntriesAgree(img, bits, c, i, j);
    }
    GridsEqual(a, b, |img|, |img[0]|);
  }

  /** app.py's reconstruction is models/model.py's `reconstructed_array`. */
  lemma ReconstructionsAgree(img: Image, bits: nat)
    requires IsImage(img) && 1 <= bits <= 8
    requires forall c :: 0 <= c < 3 ==> Varied(Flatten(Plane(img, c)))
    ensures App.ProcessImage(img, bits) == QuantizationModel.ProcessImage(img, bits).reconstructedArray
  {
    ChannelsAgree(img, bits, 0);
    ChannelsAgree(img, bits, 1);
    ChannelsAgree(img, bits, 2);
  }
}
