# Histogram-based image quantization, modelled in Dafny

The repository is a small image-compression app. It quantizes each colour
channel of an RGB image to G = 2^bits grey levels. It uses equal-frequency
("histogram") binning, `pd.qcut(flat, q=G, labels=False, duplicates='drop')`:
bin edges are the quantiles of the channel's intensities, so edge k splits
off about k/G of the pixels and each level receives roughly the same number
of them, up to ties. The labels 0..G-1 are then
stretched back to 0..255 by the factor 255 / (G - 1) and the three channels
are stacked again. The app also reports the MSE/PSNR between the original
and the reconstruction, and can extract a small colour palette. The logic
exists twice: once in the standalone script `app.py` and once in the class
`QuantizationModel` of `models/model.py`.

The model is pure: every operation is a Dafny function over sequences, and
the properties are lemmas or function postconditions.

- `Arith`: multiplication written as repeated addition (`Times`) and
  truncating division (`Quot`), with the facts about them that index
  arithmetic needs.
- `Grids`: pixels, channels (`seq<seq<int>>`), images, and numpy's
  `flatten`, `reshape`, `img[:, :, c]` and `np.stack(..., axis=2)`.
- `Sorting`: the ascending sort that quantile computation starts from.
- `EqualFrequency`: the documented semantics of `pd.qcut`, worked out from
  first principles:
  - quantile edges at k/G, linearly interpolated, as exact rationals;
  - duplicate edges dropped as pandas' `_bins_to_cuts` does;
  - labelling through `searchsorted(side='left')` with the lowest edge
    included;
  - NaN for a sample outside every bin, modelled as `None`.
- `Levels`: G = 2^bits and the rescaling of a label to its display
  intensity.
- `App`: `quantize_channel_histogram_based` and `process_image` of
  `app.py`.
- `QuantizationModel`: `_quantize_channel`, `process_image` and
  `extract_palette` of `models/model.py`.
- `Palette`: `np.unique(..., axis=0)` on RGB rows and
  `np.linspace(0, n - 1, num, dtype=int)`.
- `Pipelines`: the two copies of the pipeline proved to agree.
- `Metrics`: `calculate_mse_psnr`, which is identical in both files. Its
  arguments are uint8 arrays, so it works with uint8 wrap-around.

The two quantizers differ in ways the model keeps apart:

- `app.py`:
  - casts the labels to uint8 (`% 256`);
  - reshapes them to the channel's shape;
  - computes `255 / (2**bits - 1)`, which raises for bits = 0, so its
    `ProcessImage` requires bits >= 1.
- `models/model.py`:
  - returns the labels still flat, NaN included;
  - uses factor 1 when bits = 0.

A channel holding a single intensity gets NaN labels from `pd.qcut` when
G >= 2. Casting NaN to uint8 is unspecified, so the reconstructions require
every channel to hold at least two distinct intensities (`Varied`), except
when bits = 0 in `models/model.py`.

## Model

| member | source | states |
|---|---|---|
| Sorting.Sort | app.py:38 | The samples qcut works on, rearranged ascending: sorted, and a permutation of the input (same multiset, same length). |
| Sorting.SortEnds | app.py:38 | The first and last sorted samples are the smallest and the largest sample, and both occur in the input. |
| EqualFrequency.Edges | app.py:38 | There are exactly G + 1 quantile edges, one per fraction k/G for k = 0..G. |
| EqualFrequency.QuantileBetween | app.py:38 | Each quantile lies between the two order statistics it interpolates. |
| EqualFrequency.QuantileMonotone | app.py:38 | Quantiles never decrease as the fraction k/G grows. |
| EqualFrequency.EdgesShape | app.py:38 | The edges are non-decreasing, from the smallest sample (k = 0) to the largest (k = G). |
| EqualFrequency.Unique | app.py:38 | Dropping duplicate edges keeps exactly the same set of values, pairwise distinct and never more of them. |
| EqualFrequency.UniqueOfNonDecreasing | app.py:38 | Of ascending edges, the de-duplicated ones ascend strictly and keep the first and last edge. |
| EqualFrequency.UniqueFull | app.py:38 | When no edge repeats, de-duplication returns the edges unchanged. |
| EqualFrequency.CutEdges | app.py:38 | After `duplicates='drop'` between 1 and G + 1 edges remain. |
| EqualFrequency.CutEdgesOfVaried | app.py:38 | With two distinct intensities the edges ascend strictly from the smallest to the largest intensity, and there are 2..G + 1 of them, so at most G bins. |
| EqualFrequency.CountBelowSplit | app.py:38 | Over ascending edges, the left search position splits the edges into those below v and those at or above v. |
| EqualFrequency.BinLabelIsBin | app.py:38 | Over strictly ascending edges, a sample gets label l if and only if it lies in bin l: `(e[l], e[l+1]]`, or `[e[0], e[1]]` for l = 0. |
| EqualFrequency.BinLabelDefined | app.py:38 | A sample between the lowest and highest edge always gets a label, and that label names its bin. |
| EqualFrequency.BinLabelMonotone | app.py:38 | A larger sample never gets a smaller label. |
| Grids.Flatten | app.py:28 | `channel.flatten()`: the rows one after another, characterised by FlattenLength, FlattenEntry and FlattenMember. |
| Grids.FlattenLength | app.py:28 | An H×W grid flattens to H·W entries. |
| Grids.FlattenEntry | app.py:28 | Entry (i, j) of the grid sits at flat position i·W + j (row-major order). |
| Grids.FlattenMember | models/model.py:55 | The flattened rows hold exactly the entries of the grid. |
| Grids.Reshape | app.py:55 | `flat.reshape(h, w)` gives an h×w grid whose entry (i, j) is flat element i·w + j. |
| Grids.ReshapeFlatten | app.py:28-55 | Reshaping a flattened grid to its own shape gives the grid back. |
| Grids.FlattenReshape | models/model.py:34-36 | Flattening a reshaped sequence gives the sequence back. |
| Grids.Plane | app.py:61-63 | `img[:, :, c]` has the image's shape, and entry (i, j) is component c of pixel (i, j). |
| Grids.PlaneIsChannel | app.py:61-63 | Each plane of a uint8 image is a non-empty uint8 channel of the image's height and width. |
| Grids.Stack | app.py:79 | `np.stack((r, g, b), axis=2)` of three h×w channels is an h×w image. |
| Grids.PlanesOfStack | app.py:79 | The three planes of the stacked image are r, g and b, in that order. |
| Sorting.Insert | app.py:38 | Insertion into an ascending sequence keeps it ascending and adds exactly the new sample. |
| Sorting.SortOfSorted | app.py:38 | Sorting samples that are already ascending changes nothing. |
| EqualFrequency.PositionBounds | app.py:38 | The virtual position (n - 1)·k/G of quantile k/G has its integer part in [0, n - 1], strictly below n - 1 when it has a fractional part. |
| EqualFrequency.LowerIndex | app.py:38 | The lower order statistic of quantile k/G is a valid index. |
| EqualFrequency.Quantile | app.py:38 | Linear interpolation between the two order statistics around position (n - 1)·k/G, characterised by QuantileBetween and QuantileMonotone. |
| EqualFrequency.IncreasingDetermined | app.py:38 | Two strictly ascending edge sequences with the same values are equal, so the cut edges are determined by their values. |
| EqualFrequency.DropDuplicates | app.py:38 | `_bins_to_cuts`' rule never adds edges. Which edges remain is stated by CutEdgesOfVaried and QCutOfConstant. |
| EqualFrequency.CountBelow | app.py:38 | `searchsorted(side='left')`, characterised by CountBelowSplit. |
| EqualFrequency.BinLabel | app.py:38 | The label of one sample, characterised by BinLabelIsBin: label l exactly when the sample lies in bin l. |
| EqualFrequency.TiedSamplesExample | app.py:36-41 | With fewer distinct values than bins, the samples 5, 5, 5, 9 in four bins keep the edges 5, 6, 9 and get the labels 0, 0, 0, 1, without raising. |
| EqualFrequency.QCut | app.py:38 | qcut returns one label (or NaN) per sample. |
| EqualFrequency.QCutOfConstant | app.py:36-41 | A single-valued channel gets NaN everywhere when G >= 2, and label 0 everywhere when G = 1. |
| EqualFrequency.QCutLabelsInRange | app.py:31-38 | With two distinct values, or with G = 1, every sample gets a label in [0, G - 1]. No NaN appears and nothing raises, even when there are fewer distinct values than G. |
| EqualFrequency.QCutMonotone | app.py:36-38 | Labels are monotone in intensity, and equal intensities share a label. |
| EqualFrequency.QCutMinimum | app.py:36-41 | The smallest intensity gets label 0. |
| EqualFrequency.QCutBins | app.py:36-38 | Each label is the index of the cut-edge interval holding the sample. |
| EqualFrequency.EdgeSplitsSamples | app.py:25-38 | The equal-frequency property: with p = (n - 1)·k for n samples, at least floor(p / G) + 1 samples are at most quantile edge k, and at most ceil(p / G) lie strictly below it. |
| Levels.LevelCount | app.py:31 | G = 2^bits is at least 1, and at least 2 from one bit on. |
| Levels.LevelCountUpToSeven | app.py:101 | Over the slider's bit depths 1..7, G is at most 128. |
| Levels.LevelCountFitsByte | app.py:55 | Up to 8 bits every label 0..G-1 fits in a uint8. |
| Levels.ScaleLabel | app.py:75-77 | `(label * factor).astype(np.uint8)` for bits >= 1, characterised by ScaleLabelRange, ScaleLabelMonotone and TwoBitScale. |
| Levels.ScaleLabelRange | app.py:73-77 | A label in [0, G - 1] displays within [0, 255]. Label 0 displays as 0. The top label, and only it, displays as 255. Up to 8 bits no other label displays as 0. |
| Levels.ScaleLabelMonotone | app.py:73-77 | Rescaling keeps the order of labels. |
| Levels.TwoBitScale | app.py:73-77 | With bits = 2 the labels 0, 1, 2, 3 display as 0, 85, 170, 255. |
| App.DefinedLabels | app.py:36-41 | On a varied channel (or one level) every qcut label is defined and below G. |
| App.ByteLabels | app.py:55 | The uint8 cast gives a value in [0, 255], never above the label, and leaves labels below 256 unchanged. |
| App.QuantizeChannelHistogramBased | app.py:22-55 | The label grid has the channel's height and width, and every label is below G. |
| App.PixelLabel | app.py:28-55 | Pixel (i, j) of the quantized channel holds the qcut label of its own intensity, taken at its row-major position in the flattened channel. |
| App.QuantizedLabelIsBin | app.py:36-55 | Each pixel's label is the index of the cut-edge interval holding its intensity. |
| App.QuantizedMonotone | app.py:36-55 | A brighter pixel never gets a lower label, and equal intensities get equal labels. |
| App.QuantizedMinimum | app.py:36-55 | The darkest pixels of the channel get label 0. |
| App.Reconstruct | app.py:73-77 | The displayed channel has the label grid's shape, and each entry is the rescaled display value of its label. |
| App.ChannelOut | app.py:66-77 | One channel of `process_image`: `img[:, :, c]` quantized, then rescaled. It has the image's height and width. |
| App.ProcessImage | app.py:57-81 | The output has the input's height and width and three channels, and plane c (R, G, B in order) is channel c quantized and rescaled. |
| App.OutputPixel | app.py:61-79 | Channel c of output pixel (i, j) is the display value of the label of that pixel's channel-c intensity. |
| App.ProcessImageMonotone | app.py:57-81 | Within each channel, a brighter input pixel never comes out darker. |
| App.ProcessImageDarkest | app.py:57-81 | The darkest pixels of each channel come out as 0 in that channel. |
| App.ProcessImageLevels | app.py:73-79 | Every output intensity is one of the G display levels. |
| QuantizationModel.QuantizeChannel | models/model.py:13-21 | The labels stay flat, with length H·W. A varied channel (or bits = 0) gets every label defined and below G. A single-valued channel with bits >= 1 gets NaN everywhere. |
| QuantizationModel.QuantizeChannelMonotone | models/model.py:15-20 | Labels of the flattened channel follow intensities, and equal intensities share a label. |
| QuantizationModel.DisplayValue | models/model.py:38-42 | The display intensity of one label with factor 255/(G - 1), or 1 when bits = 0, characterised by DisplayValueRange. |
| QuantizationModel.DisplayValueRange | models/model.py:38-42 | With factor 255/(G-1), or 1 when bits = 0, a label below G displays within [0, 255]. Label 0 displays as 0, the top label as 255 (bits >= 1), and the order of labels is kept. |
| QuantizationModel.DisplayChannel | models/model.py:34-42 | The reshaped, rescaled channel is H×W of bytes. Entry (i, j) is the display value of the label at flat position i·W + j. |
| QuantizationModel.ChannelDisplay | models/model.py:29-42 | One displayed channel has the image's height and width. |
| QuantizationModel.ProcessImage | models/model.py:23-52 | `original_array` is the input, unchanged. `reconstructed_array` has the input's height and width. Each element of `channels_display` is the corresponding plane of `reconstructed_array`. `raw_labels_r` is the red channel's flat labels. |
| QuantizationModel.ReconstructedPlane | models/model.py:40-50 | Plane c of `reconstructed_array` is the displayed channel c. |
| QuantizationModel.ChannelDisplayEntry | models/model.py:29-42 | Entry (i, j) of displayed channel c is the display value of that pixel's defined label, which is below G. |
| QuantizationModel.ReconstructedPixel | models/model.py:29-44 | Channel c of reconstructed pixel (i, j) is the display value of the label of that pixel's channel-c intensity. |
| QuantizationModel.ZeroBitsIsBlack | models/model.py:38-44 | With bits = 0 (one level, factor 1) every reconstructed pixel is black, whatever the image. |
| QuantizationModel.DisplayMonotone | models/model.py:34-42 | In a displayed channel, a brighter pixel never displays darker. |
| QuantizationModel.ChannelDisplayMonotone | models/model.py:29-42 | In each element of `channels_display`, a brighter input pixel never displays darker. |
| QuantizationModel.ReconstructedMonotone | models/model.py:23-44 | Within each channel of `reconstructed_array`, a brighter input pixel never comes out darker. |
| QuantizationModel.ExtractPalette | models/model.py:54-60 | The palette has min(#distinct rows, num) rows. They ascend lexicographically, so they are pairwise distinct, and each is a pixel of the image. With at most num distinct rows it holds exactly the image's distinct rows. |
| QuantizationModel.PaletteEnds | models/model.py:57-59 | With more than num >= 2 distinct rows, the palette starts with the smallest distinct row and ends with the largest. |
| QuantizationModel.PaletteFromImage | models/model.py:55-56 | Every palette row occurs at some position (i, j) of the image. |
| Palette.InsertRow | models/model.py:56 | Inserting a row into ascending distinct rows keeps them ascending, and adds exactly that row. |
| Palette.UniqueRows | models/model.py:56 | `np.unique(axis=0)` gives ascending (so distinct) rows holding exactly the input's rows. |
| Palette.AscendingDetermined | models/model.py:56 | Two strictly ascending row sequences with the same members are equal, so `np.unique`'s result is determined. |
| Palette.LinspaceIndex | models/model.py:58 | One sampled index, characterised by LinspaceBounds and LinspaceIncreasing. |
| Palette.LinspaceBounds | models/model.py:58 | Every linspace index lies in [0, n - 1]. The first is 0, and with two samples or more the last is n - 1. |
| Palette.LinspaceIncreasing | models/model.py:57-59 | With more distinct rows than samples, the indices strictly increase, so no row is picked twice. |
| Metrics.WrapSub | app.py:15 | uint8 `original - compressed`, taken modulo 256. Its effect is stated by SquaredErrorZero. |
| Metrics.WrapSquare | app.py:15 | uint8 `** 2`, taken modulo 256, characterised by SquareWrapsToZero. |
| Metrics.ErrorSum | app.py:15 | The sum of all squared-error elements, characterised by ErrorSumBounds and ErrorSumZero. |
| Metrics.Mse | app.py:15 | One mean over every element of all three channels, characterised by MseBounds and MseZero. |
| Metrics.SquaredError | app.py:15 | One uint8 element of `(original - compressed) ** 2` lies in [0, 255]. |
| Metrics.SquareWrapsToZero | app.py:15 | A uint8 square wraps to 0 exactly when its root is a multiple of 16. |
| Metrics.SquaredErrorZero | app.py:15 | One squared-error element vanishes exactly when the two intensities agree modulo 16. |
| Metrics.ErrorSumBounds | app.py:15 | The sum of squared-error elements is at most 765 per pixel. |
| Metrics.ErrorSumZero | app.py:15 | The sum vanishes exactly when every pixel pair agrees modulo 16 in every channel. |
| Metrics.MseBounds | app.py:15 | The mean lies in [0, 255]. |
| Metrics.MseZero | app.py:15-17 | The mean is 0 exactly when every pixel pair agrees modulo 16 in every channel. |
| Metrics.CalculateMsePsnr | app.py:9-20 | The mse is in [0, 255]. The sentinel `(0, 100)` is returned exactly when mse == 0, which is exactly when all differences are multiples of 16. Otherwise the logarithmic branch is taken. Identical images give `(0, 100)`. models/model.py:6-11 is the same method. |
| Metrics.WrapAroundHidesDifference | app.py:15-17 | Images differing by 16 in one channel get the sentinel PSNR 100, although the true computation takes the logarithmic branch. A difference of 255 contributes 1 instead of 65025. |
| Metrics.TrueSquaredError | app.py:12 | The docstring's (I - I')² on integers, without wrapping. |
| Metrics.TrueErrorSum | app.py:12 | The sum of true squared differences, characterised by TrueErrorSumZero. |
| Metrics.TrueMse | app.py:12-15 | The mean of true squared differences, characterised by TrueMseZero. |
| Metrics.TrueErrorSumZero | app.py:12-15 | The sum of true squared differences vanishes exactly when the pixel sequences are equal. |
| Metrics.TrueMseZero | app.py:12-17 | The true mean vanishes exactly when the images are equal. |
| Metrics.TrueMsePsnr | app.py:9-20 | On true differences, the sentinel `(0, 100)` is returned exactly when the images are identical. |
| Pipelines.EntriesAgree | app.py:66-77 | Pixel (i, j) of channel c displays the same in app.py and in models/model.py, up to 8 bits. |
| Pipelines.ChannelsAgree | app.py:66-77 | Channel c of app.py's reconstruction equals `channels_display[c]` of models/model.py, up to 8 bits. |
| Pipelines.ReconstructionsAgree | app.py:57-81 | For 1..8 bits and varied channels, app.py's `process_image` equals the `reconstructed_array` of models/model.py's `process_image`. |

## Left out

- Image I/O and the user interface are not modelled: PIL decode/encode (`Image.open`, `convert`, `fromarray`, PNG save), the Streamlit script at app.py:85-143, `views/view.py` and `controllers/controller.py`. They are I/O and layout, with no computation of their own. The controller also calls a `process_image_cached` that `models/model.py` does not define.
- The `reconstructed_img` entry of `process_image`'s dictionary is omitted, because it is `reconstructed_array` wrapped by PIL.
- Metrics.CalculateMsePsnr: PSNR's `10 * log10(255**2 / mse)` is floating point. The model records only which branch is taken (`LogRatio`), not the decibel value.
- Levels.ScaleLabel: `(label * (255 / (G - 1))).astype(np.uint8)` is taken as the exact quotient (label·255) div (G - 1), with no double-precision rounding. For every label at bits 1..12 the truncated double product equals that quotient. This includes bits 3, 5, 6 and 7, where 255 / (G - 1) has no exact binary form: even at label G - 1 the product rounds to 255.0 and does not truncate to 254. The proofs do not cover this agreement about doubles.
- QuantizationModel.DisplayValue: uses the same exact quotient when bits >= 1, so the note on Levels.ScaleLabel applies.
- EqualFrequency.Quantile: edges are exact rationals rather than doubles, so float rounding of interpolated quantiles is not modelled.
- Palette.LinspaceIndex: takes `np.linspace(0, n - 1, num, dtype=int)[i]` as the exact quotient i·(n - 1) div (num - 1). numpy floors the double product i·fl((n - 1)/(num - 1)), and can land one lower. For example, with num = 15 and n = 123, index 7 is 60 in numpy but 61 here, so ExtractPalette picks a different row. For num = 8 (the controller's call) and num = 10 (the default) the two are expected to agree. That is an argument about double rounding and is not proved here.
- A channel holding a single intensity gets NaN labels from `pd.qcut` (for G >= 2), and the uint8 cast of NaN is unspecified. The reconstructions (App.ProcessImage, QuantizationModel.ProcessImage) therefore require every channel to vary, unless bits = 0 in `models/model.py`. `QuantizationModel.QuantizeChannel` itself models the NaN labels.
- App.ProcessImage: bits = 0 raises `ZeroDivisionError` in `255 / (2**bits - 1)`, so the function requires bits >= 1 instead of modelling the exception. The UI slider offers 1..7.
- App.QuantizedMonotone: states the order of labels only up to 8 bits. Above that the uint8 cast wraps labels modulo 256 and the order is lost, and the UI never goes there. The same bound applies to App.PixelLabel, App.QuantizedLabelIsBin, App.QuantizedMinimum, App.ProcessImageMonotone and App.ProcessImageDarkest.
- EqualFrequency.QCut: group sizes are stated cumulatively, at the quantile edges, by EqualFrequency.EdgeSplitsSamples. There is no separate lemma for the size of each label's group. Per-label sizes also depend on which edges `duplicates='drop'` removes. Tied intensities always share a label, so a group can hold more pixels than its share, and a bin can be empty.
- The hand-worked table in `views/view.py`, which splits tied intensities across groups, is an illustration that `pd.qcut` never reproduces.
- The codebook (label to mean intensity) and per-label decode statistics are not modelled. No shown file constructs them.
- pandas internals beyond the documented `qcut` semantics are not modelled: categorical output and bin precision. The `except ValueError` branch repeats the same call, so it is not modelled separately.

## Findings

| source | as written | input that shows it | evidently intended | confidence | as-written member | corrected member |
|---|---|---|---|---|---|---|
| app.py:15 (and models/model.py:7) | `np.mean((original - compressed) ** 2)` on uint8 arrays: the difference and the square both wrap modulo 256, so any difference that is a multiple of 16 counts as 0 | one pixel (16, 0, 0) against (0, 0, 0): mse 0, PSNR sentinel 100 ("identical"); a difference of 255 counts 1 instead of 65025 | the docstring's MSE = (1/MN)·Σ(I - I')² on true differences, with `(0, 100)` only for identical images | not executed | Metrics.WrapAroundHidesDifference | Metrics.TrueMsePsnr |
