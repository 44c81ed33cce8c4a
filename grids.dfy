/** Shapes of the arrays the pipeline works on: an H x W channel of intensities,
    an H x W x 3 RGB image, and numpy's row-major flatten / reshape between a
    grid and a flat sequence. */
module Grids {
  import opened Arith

  /** One RGB row of an H x W x 3 image array. */
  datatype Pixel = Pixel(r: int, g: int, b: int)

  /** A 2D channel (`img[:, :, c]`, or a label matrix). */
  type Matrix = seq<seq<int>>

  /** A 3D RGB image array; the third axis is the Pixel. */
  type Image = seq<seq<Pixel>>

  /** A value numpy can hold in a `uint8`. */
  predicate IsByte(x: int) { 0 <= x < 256 }

  predicate IsBytePixel(p: Pixel) { IsByte(p.r) && IsByte(p.g) && IsByte(p.b) }

  /** `m` has shape (h, w). */
  predicate IsGrid<T>(m: seq<seq<T>>, h: nat, w: nat) {
    |m| == h && forall i :: 0 <= i < h ==> |m[i]| == w
  }

  /** A non-empty rectangular uint8 channel. */
  predicate IsChannel(m: Matrix) {
    && |m| > 0 && |m[0]| > 0
    && IsGrid(m, |m|, |m[0]|)
    && forall i, j :: 0 <= i < |m| && 0 <= j < |m[i]| ==> IsByte(m[i][j])
  }

  /** A non-empty rectangular uint8 RGB image (`np.array(image)` of an RGB picture). */
  predicate IsImage(img: Image) {
    && |img| > 0 && |img[0]| > 0
    && IsGrid(img, |img|, |img[0]|)
    && forall i, j :: 0 <= i < |img| && 0 <= j < |img[i]| ==> IsBytePixel(img[i][j])
  }

  /** `a.flatten()`: the rows one after another. */
  function Flatten<T>(m: seq<seq<T>>): seq<T> {
    if |m| == 0 then [] else m[0] + Flatten(m[1..])
  }

  lemma {:induction false} FlattenLength<T>(m: seq<seq<T>>, h: nat, w: nat)
    requires IsGrid(m, h, w)
    ensures |Flatten(m)| == Times(h, w)
  {
    if h > 0 {
      FlattenLength(m[1..], h - 1, w);
    }
  }

  /** Row-major layout of `Flatten`: entry (i, j) sits at position Times(i, w) + j. */
  lemma {:induction false} FlattenEntry<T>(m: seq<seq<T>>, h: nat, w: nat, i: nat, j: nat)
    requires IsGrid(m, h, w) && i < h && j < w
    ensures |Flatten(m)| == Times(h, w) && Times(i, w) + j < Times(h, w)
    ensures Flatten(m)[Times(i, w) + j] == m[i][j]
  {
    FlattenLength(m, h, w);
    TimesMonotone(i, h, w);
    if i > 0 {
      FlattenEntry(m[1..], h - 1, w, i - 1, j);
      assert Flatten(m) == m[0] + Flatten(m[1..]);
    }
  }

  /** The flattened rows hold exactly the entries of the grid. */
  lemma {:induction false} FlattenMember<T>(m: seq<seq<T>>, x: T)
    ensures x in Flatten(m) <==> exists i, j :: 0 <= i < |m| && 0 <= j < |m[i]| && m[i][j] == x
  {
    if |m| > 0 {
      FlattenMember(m[1..], x);
      assert Flatten(m) == m[0] + Flatten(m[1..]);
      if x in Flatten(m) {
        if x in m[0] {
          var j :| 0 <= j < |m[0]| && m[0][j] == x;
          assert m[0][j] == x;
        } else {
          var i, j :| 0 <= i < |m[1..]| && 0 <= j < |m[1..][i]| && m[1..][i][j] == x;
          assert m[i + 1][j] == x;
        }
      }
      if exists i, j :: 0 <= i < |m| && 0 <= j < |m[i]| && m[i][j] == x {
        var i, j :| 0 <= i < |m| && 0 <= j < |m[i]| && m[i][j] == x;
        if i > 0 {
          assert m[1..][i - 1][j] == x;
        } else {
          assert m[0][j] == x;
        }
      }
    }
  }

  /** `flat.reshape(h, w)`. */
  function Reshape<T>(f: seq<T>, h: nat, w: nat): (m: seq<seq<T>>)
    requires |f| == Times(h, w)
    ensures IsGrid(m, h, w)
    ensures forall i, j {:trigger m[i][j]} :: 0 <= i < h && 0 <= j < w ==>
      Times(i, w) + j < |f| && m[i][j] == f[Times(i, w) + j]
  {
    TimesRows(h, w);
    seq(h, i requires 0 <= i < h => f[Times(i, w) .. Times(i, w) + w])
  }

  /** Reshaping a flattened grid gives the grid back. */
  lemma ReshapeFlatten<T>(m: seq<seq<T>>, h: nat, w: nat)
    requires IsGrid(m, h, w)
    ensures |Flatten(m)| == Times(h, w) && Reshape(Flatten(m), h, w) == m
  {
    FlattenLength(m, h, w);
    var r := Reshape(Flatten(m), h, w);
    forall i | 0 <= i < h ensures r[i] == m[i] {
      forall j | 0 <= j < w ensures r[i][j] == m[i][j] {
        FlattenEntry(m, h, w, i, j);
      }
    }
  }

  /** Flattening a reshaped sequence gives the sequence back. */
  lemma FlattenReshape<T>(f: seq<T>, h: nat, w: nat)
    requires |f| == Times(h, w)
    ensures Flatten(Reshape(f, h, w)) == f
  {
    var m := Reshape(f, h, w);
    FlattenLength(m, h, w);
    forall k | 0 <= k < |f| ensures Flatten(m)[k] == f[k] {
      var i, j := TimesSplit(k, h, w);
      FlattenEntry(m, h, w, i, j);
    }
  }

  /** Two grids of one shape with the same entries are equal. */
  lemma GridsEqual<T>(a: seq<seq<T>>, b: seq<seq<T>>, h: nat, w: nat)
    requires IsGrid(a, h, w) && IsGrid(b, h, w)
    requires forall i, j :: 0 <= i < h && 0 <= j < w ==> a[i][j] == b[i][j]
    ensures a == b
  {
    forall i | 0 <= i < h ensures a[i] == b[i] {
      assert forall j :: 0 <= j < w ==> a[i][j] == b[i][j];
    }
  }

  /** Intensity of channel c (0 = R, 1 = G, 2 = B) of a pixel. */
  function Component(p: Pixel, c: nat): int
    requires c < 3
  {
    if c == 0 then p.r else if c == 1 then p.g else p.b
  }

  /** `img[:, :, c]`. */
  function Plane(img: Image, c: nat): (m: Matrix)
    requires c < 3
    ensures |m| == |img|
    ensures forall i :: 0 <= i < |img| ==> |m[i]| == |img[i]|
    ensures forall i, j :: 0 <= i < |img| && 0 <= j < |img[i]| ==> m[i][j] == Component(img[i][j], c)
  {
    seq(|img|, i requires 0 <= i < |img| =>
      seq(|img[i]|, j requires 0 <= j < |img[i]| => Component(img[i][j], c)))
  }

  /** Each plane of a uint8 image is a uint8 channel of the same shape. */
  lemma PlaneIsChannel(img: Image, c: nat)
    requires IsImage(img) && c < 3
    ensures IsChannel(Plane(img, c))
    ensures IsGrid(Plane(img, c), |img|, |img[0]|)
  {}

  /** `np.stack((r, g, b), axis=2)`. */
  function Stack(r: Matrix, g: Matrix, b: Matrix, h: nat, w: nat): (img: Image)
    requires IsGrid(r, h, w) && IsGrid(g, h, w) && IsGrid(b, h, w)
    ensures IsGrid(img, h, w)
  {
    seq(h, i requires 0 <= i < h => seq(w, j requires 0 <= j < w => Pixel(r[i][j], g[i][j], b[i][j])))
  }

  /** The three planes of a stacked image are the stacked matrices, in the order R, G, B. */
  lemma {:induction false} PlanesOfStack(r: Matrix, g: Matrix, b: Matrix, h: nat, w: nat)
    requires IsGrid(r, h, w) && IsGrid(g, h, w) && IsGrid(b, h, w)
    ensures Plane(Stack(r, g, b, h, w), 0) == r
    ensures Plane(Stack(r, g, b, h, w), 1) == g
    ensures Plane(Stack(r, g, b, h, w), 2) == b
  {
    var img := Stack(r, g, b, h, w);
    forall i | 0 <= i < h
      ensures Plane(img, 0)[i] == r[i] && Plane(img, 1)[i] == g[i] && Plane(img, 2)[i] == b[i]
    {
      assert forall j :: 0 <= j < w ==> img[i][j] == Pixel(r[i][j], g[i][j], b[i][j]);
    }
  }
}
