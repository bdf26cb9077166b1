/** `PhotoError::Impl`: the per-point state cached by `init` (interpolation
    coefficients, base offsets, the stride and a pointer to the caller's
    valid mask) and the batched residual loop `run` that reads it. */
module PhotoError {
  import opened PixelGrid
  import opened Interp

  /** `std::vector::resize`: keeps the first `n` elements and pads with
      `fill`. */
  function Resized<T>(s: seq<T>, n: nat, fill: T): (r: seq<T>)
    ensures |r| == n
    ensures forall k :: 0 <= k < n && k < |s| ==> r[k] == s[k]
    ensures forall k :: |s| <= k < n ==> r[k] == fill
  {
    if n <= |s| then s[..n] else s + seq(n - |s|, _ => fill)
  }

  /** What `projectPoints` writes: one validity flag, one base offset and
      one coefficient vector per point. */
  datatype Projection = Projection(valid: seq<bool>, inds: seq<int>, coeffs: seq<Vec4>)

  /** The rule `projectPoints` follows: point i, projected to the real pixel
      coordinate (x[i], y[i]), is valid exactly when its truncated pixel
      passes the gate, and a valid point's offset is `yi*cols + xi`. */
  predicate ProjectedFrom(valid: seq<bool>, inds: seq<int>, x: seq<real>, y: seq<real>,
                          rows: int, cols: int)
  {
    |valid| == |inds| == |x| == |y| &&
    forall i :: 0 <= i < |valid| ==>
      (valid[i] <==> IsValidPixel(Trunc(x[i]), Trunc(y[i]), rows, cols)) &&
      (valid[i] ==> inds[i] == Offset(Trunc(x[i]), Trunc(y[i]), cols))
  }

  /** The validity gate is what keeps the gather in bounds: every valid
      point's four reads lie inside a rows x cols image. */
  lemma ProjectedFootprint(valid: seq<bool>, inds: seq<int>, x: seq<real>, y: seq<real>,
                           rows: int, cols: int, i: int)
    requires ProjectedFrom(valid, inds, x, y, rows, cols)
    requires 0 <= i < |valid| && valid[i]
    ensures FootprintWithin(inds[i], cols, rows * cols)
  {
    FootprintInBounds(Trunc(x[i]), Trunc(y[i]), rows, cols);
  }

  /** `_mm_sub_ps`, lane by lane. */
  function Sub4(a: Vec4, b: Vec4): Vec4
  {
    Vec4(a.x0 - b.x0, a.x1 - b.x1, a.x2 - b.x2, a.x3 - b.x3)
  }

  /** `_mm_load_ps` (aligned) or `_mm_loadu_ps`: four consecutive floats.
      With a 16-byte aligned base, an aligned load needs a lane offset that
      is a multiple of 4. */
  function Load4(s: seq<real>, at: int, aligned: bool): Vec4
    requires 0 <= at && at + 4 <= |s|
    requires aligned ==> at % 4 == 0
  {
    Vec4(s[at], s[at + 1], s[at + 2], s[at + 3])
  }

  /** `_mm_store_ps` (aligned) or `_mm_storeu_ps`: writes the four lanes at
      `at`. The ghost result lists the indices assigned, in order; every
      other slot of r keeps its value. */
  method Store4(r: array<real>, at: int, v: Vec4, aligned: bool) returns (ghost stored: seq<int>)
    requires 0 <= at && at + 4 <= r.Length
    requires aligned ==> at % 4 == 0
    modifies r
    ensures stored == [at, at + 1, at + 2, at + 3]
    ensures r[at] == v.x0 && r[at + 1] == v.x1 && r[at + 2] == v.x2 && r[at + 3] == v.x3
    ensures forall k :: 0 <= k < r.Length && k !in stored ==> r[k] == old(r[k])
  {
    r[at] := v.x0;
    r[at + 1] := v.x1;
    r[at + 2] := v.x2;
    r[at + 3] := v.x3;
    stored := [at, at + 1, at + 2, at + 3];
  }

  /** The caller's `ValidVector`, which `init` resizes and fills and whose
      storage `_valid_ptr` keeps pointing at afterwards. */
  class ValidVector {
    var data: seq<bool>

    /** An empty mask, as a default-constructed vector. */
    constructor ()
      ensures data == []
    {
      data := [];
    }
  }

  class Impl {
    var stride: int
    var interpCoeffs: seq<Vec4>
    var inds: seq<int>
    var validPtr: ValidVector?
    // the image height and the projected coordinates of the last init,
    // which the validity gate was applied to
    ghost var rows: int
    ghost var px: seq<real>
    ghost var py: seq<real>

    /** The stored state is what projectPoints produced for the points of
        the last init; `run` reads `num_points = |interpCoeffs|` entries. */
    ghost predicate Valid()
      reads this, validPtr
    {
      |inds| == |interpCoeffs| &&
      (|interpCoeffs| > 0 ==>
         validPtr != null && |validPtr.data| == |interpCoeffs| &&
         ProjectedFrom(validPtr.data, inds, px, py, rows, stride))
    }

    constructor ()
      ensures Valid()
      ensures interpCoeffs == [] && inds == [] && validPtr == null
    {
      stride := 0;
      interpCoeffs := [];
      inds := [];
      validPtr := null;
      rows := 0;
      px := [];
      py := [];
    }

    /** `resize`: sizes the coefficient and offset vectors to n. */
    method Resize(n: nat)
      modifies this
      ensures interpCoeffs == Resized(old(interpCoeffs), n, Vec4(0.0, 0.0, 0.0, 0.0))
      ensures inds == Resized(old(inds), n, 0)
      ensures stride == old(stride) && validPtr == old(validPtr)
      ensures rows == old(rows) && px == old(px) && py == old(py)
    {
      interpCoeffs := Resized(interpCoeffs, n, Vec4(0.0, 0.0, 0.0, 0.0));
      inds := Resized(inds, n, 0);
    }

    /** `init` for n points whose projections are (x[i], y[i]): sizes all
        per-point vectors and the caller's mask to n, records the stride and
        the mask pointer, and, when n > 0, stores what projectPoints wrote. */
    method Init(n: nat, projected: Projection, ghost x: seq<real>, ghost y: seq<real>,
                valid: ValidVector, rows: int, cols: int)
      requires n > 0 ==>
        |projected.valid| == n && |projected.coeffs| == n &&
        ProjectedFrom(projected.valid, projected.inds, x, y, rows, cols)
      modifies this, valid
      ensures Valid()
      ensures stride == cols && validPtr == valid && this.rows == rows
      ensures |interpCoeffs| == n && |inds| == n && |valid.data| == n
      ensures n > 0 ==>
        valid.data == projected.valid && inds == projected.inds &&
        interpCoeffs == projected.coeffs
    {
      Resize(n);
      valid.data := Resized(valid.data, n, false);
      validPtr := valid;
      stride := cols;
      this.rows := rows;
      if n == 0 {
        px, py := [], [];
        return;
      }
      // projectPoints
      valid.data := projected.valid;
      inds := projected.inds;
      interpCoeffs := projected.coeffs;
      px, py := x, y;
    }

    /** `operator()`: the interpolated intensity of point i in `image`, or 0
        for an invalid point. */
    function Sample(image: seq<real>, i: int): (s: real)
      reads this, validPtr
      requires Valid() && 0 <= i < |interpCoeffs| && |image| == rows * stride
      ensures !validPtr.data[i] ==> s == 0.0
    {
      var valid := validPtr.data[i];
      assert valid ==> FootprintWithin(inds[i], stride, |image|) by {
        if valid {
          ProjectedFootprint(validPtr.data, inds, px, py, rows, stride, i);
        }
      }
      SamplePoint(valid, interpCoeffs[i], inds[i], stride, image)
    }

    /** For a valid point, the stored sample blends the four pixels around
        its truncated projected coordinate (xi, yi), each with its own
        coefficient. */
    lemma ValidSample(image: seq<real>, i: int)
      requires Valid() && 0 <= i < |interpCoeffs| && |image| == rows * stride
      requires validPtr.data[i]
      ensures var xi, yi, w := Trunc(px[i]), Trunc(py[i]), interpCoeffs[i];
        IsValidPixel(xi, yi, rows, stride) &&
        InRange(Offset(xi, yi, stride), |image|) && InRange(Offset(xi + 1, yi, stride), |image|) &&
        InRange(Offset(xi, yi + 1, stride), |image|) && InRange(Offset(xi + 1, yi + 1, stride), |image|) &&
        Sample(image, i) ==
          w.x0 * Pixel(image, stride, xi, yi) + w.x1 * Pixel(image, stride, xi + 1, yi) +
          w.x2 * Pixel(image, stride, xi, yi + 1) + w.x3 * Pixel(image, stride, xi + 1, yi + 1)
    {
      SampleIsBlend(Trunc(px[i]), Trunc(py[i]), rows, stride, interpCoeffs[i], image);
    }

    /** One 4-lane half of an 8-wide step:
        `store(r+at, setr(sample(at), ..., sample(at+3)) - load(I0+at))`. */
    method Lanes4(I0: seq<real>, image: seq<real>, r: array<real>, at: int, aligned: bool)
      returns (ghost stored: seq<int>)
      requires Valid() && |image| == rows * stride
      requires 0 <= at && at + 4 <= |interpCoeffs| && |interpCoeffs| <= |I0| && |interpCoeffs| <= r.Length
      requires aligned ==> at % 4 == 0
      modifies r
      ensures stored == [at, at + 1, at + 2, at + 3]
      ensures forall k :: at <= k < at + 4 ==> r[k] == Sample(image, k) - I0[k]
      ensures forall k :: 0 <= k < r.Length && k !in stored ==> r[k] == old(r[k])
    {
      var samples := Vec4(Sample(image, at), Sample(image, at + 1), Sample(image, at + 2), Sample(image, at + 3));
      stored := Store4(r, at, Sub4(samples, Load4(I0, at, aligned)), aligned);
    }

    /** The body of either 8-wide loop: the lower half at i, the upper half
        at i + 4. */
    method Block8(I0: seq<real>, image: seq<real>, r: array<real>, i: int, aligned: bool)
      returns (ghost stored: seq<int>)
      requires Valid() && |image| == rows * stride
      requires 0 <= i && i + 8 <= |interpCoeffs| && |interpCoeffs| <= |I0| && |interpCoeffs| <= r.Length
      requires aligned ==> i % 8 == 0
      modifies r
      ensures |stored| == 8 && forall k :: 0 <= k < 8 ==> stored[k] == i + k
      ensures forall k :: i <= k < i + 8 ==> r[k] == Sample(image, k) - I0[k]
      ensures forall k :: 0 <= k < r.Length && k !in stored ==> r[k] == old(r[k])
    {
      var lower := Lanes4(I0, image, r, i, aligned);
      var upper := Lanes4(I0, image, r, i + 4, aligned);
      stored := lower + upper;
    }

    /** `run`: writes r[i] = sample(i) - I0[i] for every point, eight at a
        time while eight remain and then one at a time. `aligned` stands for
        both r and I0 being 16-byte aligned. The ghost result lists the
        indices of r in the order they are written. */
    method Run(I0: seq<real>, image: seq<real>, r: array<real>, aligned: bool)
      returns (ghost writes: seq<int>)
      requires Valid()
      requires |interpCoeffs| > 0 ==> |image| == rows * stride
      requires |interpCoeffs| <= |I0| && |interpCoeffs| <= r.Length
      modifies r
      ensures |writes| == |interpCoeffs|
      ensures forall k :: 0 <= k < |writes| ==> writes[k] == k
      ensures forall k :: 0 <= k < |interpCoeffs| ==> r[k] == Sample(image, k) - I0[k]
      ensures forall k :: 0 <= k < |interpCoeffs| && !validPtr.data[k] ==> r[k] == -I0[k]
      ensures forall k :: |interpCoeffs| <= k < r.Length ==> r[k] == old(r[k])
    {
      writes := [];
      var numPoints := |interpCoeffs|;
      if numPoints == 0 {
        return;
      }
      var i := 0;
      if aligned {
        while i <= numPoints - 8
          invariant 0 <= i <= numPoints && i % 8 == 0
          invariant |writes| == i && forall k :: 0 <= k < i ==> writes[k] == k
          invariant forall k :: 0 <= k < i ==> r[k] == Sample(image, k) - I0[k]
          invariant forall k :: i <= k < r.Length ==> r[k] == old(r[k])
        {
          ghost var stored := Block8(I0, image, r, i, true);
          writes := writes + stored;
          i := i + 8;
        }
      } else {
        while i <= numPoints - 8
          invariant 0 <= i <= numPoints
          invariant |writes| == i && forall k :: 0 <= k < i ==> writes[k] == k
          invariant forall k :: 0 <= k < i ==> r[k] == Sample(image, k) - I0[k]
          invariant forall k :: i <= k < r.Length ==> r[k] == old(r[k])
        {
          ghost var stored := Block8(I0, image, r, i, false);
          writes := writes + stored;
          i := i + 8;
        }
      }
      while i < numPoints
        invariant 0 <= i <= numPoints
        invariant |writes| == i && forall k :: 0 <= k < i ==> writes[k] == k
        invariant forall k :: 0 <= k < i ==> r[k] == Sample(image, k) - I0[k]
        invariant forall k :: i <= k < r.Length ==> r[k] == old(r[k])
      {
        r[i] := Sample(image, i) - I0[i];
        writes := writes + [i];
        i := i + 1;
      }
      forall k | 0 <= k < numPoints && !validPtr.data[k]
        ensures r[k] == -I0[k]
      {
        assert r[k] == Sample(image, k) - I0[k];
      }
    }
  }
}
