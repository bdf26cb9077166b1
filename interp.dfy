/** The per-point sample of the residual kernel: the 2x2 gather from the
    target image, the 4-term dot product with the point's interpolation
    coefficients, and the validity gate in front of both. */
module Interp {
  import opened PixelGrid

  /** Four single-precision lanes: an Eigen `Vector4f` of coefficients or
      gathered intensities, or one `__m128` register. */
  datatype Vec4 = Vec4(x0: real, x1: real, x2: real, x3: real)

  /** `dot_`: the 4-term dot product (summation order is immaterial over
      the reals). */
  function Dot(u: Vec4, v: Vec4): real
  {
    u.x0 * v.x0 + u.x1 * v.x1 + u.x2 * v.x2 + u.x3 * v.x3
  }

  /** `load_data`: the intensities at `ind`, `ind+1`, `ind+stride` and
      `ind+stride+1` of the flat target image. */
  function LoadData(image: seq<real>, ind: int, stride: int): Vec4
    requires FootprintWithin(ind, stride, |image|)
  {
    Vec4(image[ind], image[ind + 1], image[ind + stride], image[ind + stride + 1])
  }

  /** `operator()` for one point: an invalid point yields 0 and needs no
      in-bounds footprint, since the image is never read for it. */
  function SamplePoint(valid: bool, w: Vec4, ind: int, stride: int, image: seq<real>): (s: real)
    requires valid ==> FootprintWithin(ind, stride, |image|)
    ensures !valid ==> s == 0.0
  {
    if valid then Dot(w, LoadData(image, ind, stride)) else 0.0
  }

  /** Intensity of pixel (x, y) of a row-major image with `cols` columns. */
  function Pixel(image: seq<real>, cols: int, x: int, y: int): real
    requires InRange(Offset(x, y, cols), |image|)
  {
    image[Offset(x, y, cols)]
  }

  /** A valid point's sample is the blend of the four pixels of its 2x2
      neighbourhood, each weighted by its own coefficient. */
  lemma SampleIsBlend(xi: int, yi: int, rows: int, cols: int, w: Vec4, image: seq<real>)
    requires IsValidPixel(xi, yi, rows, cols) && |image| == rows * cols
    ensures FootprintWithin(Offset(xi, yi, cols), cols, |image|)
    ensures InRange(Offset(xi + 1, yi + 1, cols), |image|)
    ensures SamplePoint(true, w, Offset(xi, yi, cols), cols, image) ==
      w.x0 * Pixel(image, cols, xi, yi) + w.x1 * Pixel(image, cols, xi + 1, yi) +
      w.x2 * Pixel(image, cols, xi, yi + 1) + w.x3 * Pixel(image, cols, xi + 1, yi + 1)
  {
    FootprintInBounds(xi, yi, rows, cols);
    assert Offset(xi, yi, cols) + 1 == Offset(xi + 1, yi, cols);
    assert Offset(xi, yi, cols) + cols == Offset(xi, yi + 1, cols);
    assert Offset(xi, yi, cols) + cols + 1 == Offset(xi + 1, yi + 1, cols);
  }

  /** Bilinear weights: each in [0, 1] and together summing to 1. */
  predicate IsConvex(w: Vec4)
  {
    0.0 <= w.x0 && 0.0 <= w.x1 && 0.0 <= w.x2 && 0.0 <= w.x3 &&
    w.x0 + w.x1 + w.x2 + w.x3 == 1.0
  }

  function Min4(v: Vec4): real
  {
    var a := if v.x0 <= v.x1 then v.x0 else v.x1;
    var b := if v.x2 <= v.x3 then v.x2 else v.x3;
    if a <= b then a else b
  }

  function Max4(v: Vec4): real
  {
    var a := if v.x0 >= v.x1 then v.x0 else v.x1;
    var b := if v.x2 >= v.x3 then v.x2 else v.x3;
    if a >= b then a else b
  }

  lemma ScaleAtLeast(w: real, lo: real, x: real) returns (q: real, p: real)
    requires 0.0 <= w && lo <= x
    ensures q == w * lo && p == w * x && q <= p
  {
    q, p := w * lo, w * x;
    assert p - q == w * (x - lo);
  }

  lemma ConvexScale(a: real, b: real, c: real, d: real, x: real)
    requires a + b + c + d == 1.0
    ensures a * x + b * x + c * x + d * x == x
  {
    assert a * x + b * x + c * x + d * x == (a + b + c + d) * x;
  }

  /** Weighted sum of four values, each at least `lo`, with convex weights. */
  lemma WeightedSumAtLeast(w: Vec4, v: Vec4, lo: real)
    requires IsConvex(w)
    requires lo <= v.x0 && lo <= v.x1 && lo <= v.x2 && lo <= v.x3
    ensures lo <= Dot(w, v)
  {
    var q0, p0 := ScaleAtLeast(w.x0, lo, v.x0);
    var q1, p1 := ScaleAtLeast(w.x1, lo, v.x1);
    var q2, p2 := ScaleAtLeast(w.x2, lo, v.x2);
    var q3, p3 := ScaleAtLeast(w.x3, lo, v.x3);
    ConvexScale(w.x0, w.x1, w.x2, w.x3, lo);
    assert q0 + q1 + q2 + q3 == lo;
    assert Dot(w, v) == p0 + p1 + p2 + p3;
  }

  function Negate(v: Vec4): Vec4
  {
    Vec4(-v.x0, -v.x1, -v.x2, -v.x3)
  }

  /** With convex weights the dot product never leaves the range spanned by
      the gathered intensities. */
  lemma DotWithinRange(w: Vec4, v: Vec4)
    requires IsConvex(w)
    ensures Min4(v) <= Dot(w, v) <= Max4(v)
  {
    WeightedSumAtLeast(w, v, Min4(v));
    WeightedSumAtLeast(w, Negate(v), -Max4(v));
    assert Dot(w, Negate(v)) == -Dot(w, v);
  }

  /** A point that lands exactly on a pixel (one-hot weights) samples that
      pixel's intensity. */
  lemma SampleOnPixel(xi: int, yi: int, rows: int, cols: int, image: seq<real>)
    requires IsValidPixel(xi, yi, rows, cols) && |image| == rows * cols
    ensures FootprintWithin(Offset(xi, yi, cols), cols, |image|)
    ensures SamplePoint(true, Vec4(1.0, 0.0, 0.0, 0.0), Offset(xi, yi, cols), cols, image) ==
      Pixel(image, cols, xi, yi)
  {
    FootprintInBounds(xi, yi, rows, cols);
  }

  /** The last index `load_data_simd` touches: its second unaligned load
      reads four floats from `ind + stride`, two more than the footprint. */
  function SimdLoadLastRead(ind: int, stride: int): int
  {
    ind + stride + 3
  }

  /** The SIMD gather of the bottom-right valid pixel (cols-2, rows-2) of any
      image reads past its last element, while the scalar gather `LoadData`
      of the same pixel stays inside (FootprintInBounds). */
  lemma SimdLoadOverrun(rows: int, cols: int)
    requires 2 <= rows && 2 <= cols
    ensures IsValidPixel(cols - 2, rows - 2, rows, cols)
    ensures SimdLoadLastRead(Offset(cols - 2, rows - 2, cols), cols) == rows * cols + 1
    ensures !InRange(SimdLoadLastRead(Offset(cols - 2, rows - 2, cols), cols), rows * cols)
  {
    assert (rows - 2) * cols + 2 * cols == rows * cols;
  }

  /** A 4x4 image holding 0..15 in row-major order. */
  function Ramp4x4(): seq<real>
  {
    [0.0, 1.0, 2.0, 3.0, 4.0, 5.0, 6.0, 7.0, 8.0, 9.0, 10.0, 11.0, 12.0, 13.0, 14.0, 15.0]
  }

  /** A point projected to (1.5, 1.5) in the 4x4 ramp is valid, gathers
      pixels 5, 6, 9 and 10, and with equal weights samples their mean 7.5;
      a point at (3.5, 0.0) lies in the excluded last column. */
  lemma RampExample()
    ensures IsValidPixel(Trunc(1.5), Trunc(1.5), 4, 4)
    ensures Offset(Trunc(1.5), Trunc(1.5), 4) == 5
    ensures SamplePoint(true, Vec4(0.25, 0.25, 0.25, 0.25), 5, 4, Ramp4x4()) - 7.0 == 0.5
    ensures !IsValidPixel(Trunc(3.5), Trunc(0.0), 4, 4)
  {
    assert LoadData(Ramp4x4(), 5, 4) == Vec4(5.0, 6.0, 9.0, 10.0);
  }
}
