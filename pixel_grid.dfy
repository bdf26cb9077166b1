/** Pixel addressing for the residual kernel: how a projected coordinate is
    turned into an integer pixel, which pixels pass the validity gate, and
    where the 2x2 interpolation footprint of a valid pixel lies in the flat
    row-major image buffer. */
module PixelGrid {

  /** `static_cast<int>` of a projected coordinate: truncation toward zero
      (not floor). */
  function Trunc(x: real): (t: int)
    ensures 0.0 <= x ==> t as real <= x < t as real + 1.0
    ensures x < 0.0 ==> t as real - 1.0 < x <= t as real
  {
    if x >= 0.0 then x.Floor else -((-x).Floor)
  }

  /** The validity gate: the pixel and its right, lower and lower-right
      neighbours all lie inside a rows x cols image. */
  predicate IsValidPixel(xi: int, yi: int, rows: int, cols: int)
  {
    0 <= xi < cols - 1 && 0 <= yi < rows - 1
  }

  /** Flat offset of pixel (x, y) in a row-major buffer whose rows are
      `stride` elements apart. */
  function Offset(x: int, y: int, stride: int): int
  {
    y * stride + x
  }

  predicate InRange(k: int, len: int)
  {
    0 <= k < len
  }

  /** The four reads of the gather from base offset `ind` stay in [0, len). */
  predicate FootprintWithin(ind: int, stride: int, len: int)
  {
    InRange(ind, len) && InRange(ind + 1, len) &&
    InRange(ind + stride, len) && InRange(ind + stride + 1, len)
  }

  lemma TruncAxis(x: real, c: int)
    ensures 0 <= Trunc(x) < c <==> 1 <= c && -1.0 < x < c as real
  {
    var t := Trunc(x);
    if x >= 0.0 {
      assert t >= 0;
    } else if x > -1.0 {
      assert t == 0;
    } else {
      assert t < 0;
    }
  }

  /** The gate applied to truncated coordinates accepts exactly the real
      coordinates in the open box (-1, cols-1) x (-1, rows-1), and only when
      the image has at least two rows and two columns. */
  lemma TruncGate(x: real, y: real, rows: int, cols: int)
    ensures IsValidPixel(Trunc(x), Trunc(y), rows, cols) <==>
      2 <= cols && 2 <= rows &&
      -1.0 < x < (cols - 1) as real && -1.0 < y < (rows - 1) as real
  {
    TruncAxis(x, cols - 1);
    TruncAxis(y, rows - 1);
  }

  /** Truncation lets through the strip (-1, 0) that a floor-based gate
      rejects; everywhere else the two gates agree. */
  lemma TruncGateVersusFloorGate(x: real, y: real, rows: int, cols: int)
    ensures IsValidPixel(x.Floor, y.Floor, rows, cols) ==>
      IsValidPixel(Trunc(x), Trunc(y), rows, cols)
    ensures (IsValidPixel(Trunc(x), Trunc(y), rows, cols) &&
             !IsValidPixel(x.Floor, y.Floor, rows, cols)) ==>
            (-1.0 < x < 0.0) || (-1.0 < y < 0.0)
  {
    TruncGate(x, y, rows, cols);
    if 0.0 <= x {
      assert Trunc(x) == x.Floor;
    }
    if 0.0 <= y {
      assert Trunc(y) == y.Floor;
    }
  }

  lemma MulMonotone(a: int, b: int, c: int)
    requires a <= b && 0 <= c
    ensures a * c <= b * c
  {
    assert b * c - a * c == (b - a) * c;
  }

  /** For a valid pixel with stride == cols, all four gathered indices lie in
      [0, rows*cols). */
  lemma FootprintInBounds(xi: int, yi: int, rows: int, cols: int)
    requires IsValidPixel(xi, yi, rows, cols)
    ensures FootprintWithin(Offset(xi, yi, cols), cols, rows * cols)
  {
    MulMonotone(0, yi, cols);
    MulMonotone(yi, rows - 2, cols);
    assert (rows - 2) * cols + 2 * cols == rows * cols;
  }

  lemma DivModUnique(n: int, d: int, q: int, m: int)
    requires 0 < d && 0 <= m < d && n == q * d + m
    ensures n / d == q && n % d == m
  {
    var q', m' := n / d, n % d;
    assert n == q' * d + m';
    if q' < q {
      MulMonotone(q' + 1, q, d);
    } else if q < q' {
      MulMonotone(q + 1, q', d);
    }
  }

  /** Decoding a flat offset recovers the pixel it came from. */
  lemma OffsetDecodes(x: int, y: int, stride: int)
    requires 0 <= x < stride
    ensures Offset(x, y, stride) / stride == y
    ensures Offset(x, y, stride) % stride == x
  {
    DivModUnique(Offset(x, y, stride), stride, y, x);
  }

  /** The four reads of a valid pixel's gather are exactly the pixels
      (xi, yi), (xi+1, yi), (xi, yi+1) and (xi+1, yi+1): the margin keeps
      `ind+1` from wrapping onto the next row. */
  lemma FootprintDecodes(xi: int, yi: int, rows: int, cols: int)
    requires IsValidPixel(xi, yi, rows, cols)
    ensures Offset(xi, yi, cols) / cols == yi
    ensures Offset(xi, yi, cols) % cols == xi
    ensures (Offset(xi, yi, cols) + 1) / cols == yi
    ensures (Offset(xi, yi, cols) + 1) % cols == xi + 1
    ensures (Offset(xi, yi, cols) + cols) / cols == yi + 1
    ensures (Offset(xi, yi, cols) + cols) % cols == xi
    ensures (Offset(xi, yi, cols) + cols + 1) / cols == yi + 1
    ensures (Offset(xi, yi, cols) + cols + 1) % cols == xi + 1
  {
    OffsetDecodes(xi, yi, cols);
    assert Offset(xi, yi, cols) + 1 == Offset(xi + 1, yi, cols);
    OffsetDecodes(xi + 1, yi, cols);
    assert Offset(xi, yi, cols) + cols == Offset(xi, yi + 1, cols);
    OffsetDecodes(xi, yi + 1, cols);
    assert Offset(xi, yi, cols) + cols + 1 == Offset(xi + 1, yi + 1, cols);
    OffsetDecodes(xi + 1, yi + 1, cols);
  }
}
