# Photometric residual kernel of bpvo (`PhotoError::Impl`)

This project models the residual kernel of bpvo's direct visual odometry, the
active (non-OpenCV) `PhotoError::Impl` in `bpvo/photo_error.cc`. `init` caches
per-point data. For each point it stores a validity flag, a base offset into
the flat row-major target image and four interpolation coefficients.
`run` then writes, for every point `i`,
`r[i] = sample(i) - I0[i]` into a caller-owned buffer. It handles eight points
per step (two 4-lane SSE halves) while eight remain, then one at a time.

Layout:

- `pixel_grid.dfy` (module `PixelGrid`) covers the truncation `static_cast<int>`,
  the validity gate `0 <= xi < cols-1 && 0 <= yi < rows-1`, the row-major
  offset `yi*cols + xi` and the 2x2 gather footprint. It proves that the
  footprint of a valid pixel lies in the image and decodes back to the four
  neighbouring pixels.
- `interp.dfy` (module `Interp`) covers the 4-lane vector, `dot_`, `load_data`
  and the per-point `operator()`. It proves what a sample means: a blend of
  the four neighbours, bounded by them under convex weights, and the pixel
  itself for one-hot weights.
- `photo_error.dfy` (module `PhotoError`) holds `std::vector::resize`, the
  lane-wise SSE load/subtract/store, the caller's valid mask (a class, since
  `_valid_ptr` aliases it) and the class `Impl`. `Impl` has the fields
  `_stride`, `_interp_coeffs`, `_inds` and `_valid_ptr` and the methods
  `resize`, `init`, `operator()` and `run`.

`projectPoints` is not part of this model. `Init` receives its outputs as a
`Projection` value. It also receives the real projected coordinates as ghost
parameters. The precondition `ProjectedFrom` states the rule those outputs
follow: `valid[i]` holds exactly when the truncated pixel passes the gate, and
a valid point's offset is `yi*cols + xi`. The class invariant `Valid()` keeps
this fact, so every gather `Run` performs is proved in bounds from the gate
alone. The kernel itself checks no bounds.

Reals stand for single-precision floats. Intensities and coefficients are
`real`, so the SSE4.1 `_mm_dp_ps` and the `hadd` variants of `dot_` coincide.
Whether `r` and `I0` are 16-byte aligned is the parameter `aligned` of `Run`.
The aligned loads and stores require a lane offset that is a multiple of 4,
and the loop's `i % 8 == 0` invariant discharges that requirement.

Two consequences of the code worth knowing:

- `static_cast<int>` truncates toward zero rather than flooring, so every
  coordinate in (-1, 0) maps to pixel 0 and the gate accepts the open box
  (-1, cols-1) x (-1, rows-1) (`PixelGrid.TruncGate`,
  `PixelGrid.TruncGateVersusFloorGate`).
- An invalid point's residual is `-I0[i]`, not 0, because the code computes
  `0.0f - I0[i]` (the fourth ensures of `Impl.Run`).

The gate is written out at `bpvo/photo_error.cc:41`, inside the compiled-out
OpenCV variant of `init`. The active `init` delegates to `projectPoints`. The
model assumes `projectPoints` applies the same gate, through `ProjectedFrom`.

## Model

| member | source | states |
|---|---|---|
| PixelGrid.Trunc | bpvo/photo_error.cc:38-39 | the integer pixel is the coordinate truncated toward zero: within 1 below a non-negative coordinate, within 1 above a negative one |
| PixelGrid.IsValidPixel | bpvo/photo_error.cc:41 | the validity gate `0 <= xi < cols-1 && 0 <= yi < rows-1`; a definition with no ensures of its own, characterised on real coordinates in `TruncGate` and shown to keep the gather in bounds in `FootprintInBounds` |
| PixelGrid.TruncGate | bpvo/photo_error.cc:38-41 | the gate on truncated coordinates holds iff the image has at least 2 rows and 2 columns and the real coordinate lies in (-1, cols-1) x (-1, rows-1), both directions |
| PixelGrid.TruncGateVersusFloorGate | bpvo/photo_error.cc:38-41 | every point a floor-based gate accepts is accepted; points accepted only by truncation have a coordinate in (-1, 0) |
| PixelGrid.FootprintInBounds | bpvo/photo_error.cc:149-153 | for a valid pixel and stride == cols, `ind`, `ind+1`, `ind+stride` and `ind+stride+1` all lie in [0, rows*cols) |
| PixelGrid.OffsetDecodes | bpvo/photo_error.cc:151-152 | dividing a row-major offset by the stride and taking the remainder recover the pixel's row and column |
| PixelGrid.FootprintDecodes | bpvo/photo_error.cc:149-153 | the four gathered offsets of a valid pixel decode to exactly (xi,yi), (xi+1,yi), (xi,yi+1), (xi+1,yi+1); the gather never wraps to another row |
| Interp.Dot | bpvo/photo_error.cc:192-202 | `dot_` as the 4-term sum of lane products; a definition with no ensures of its own, bounded by the least and greatest intensity under convex weights in `DotWithinRange` |
| Interp.LoadData | bpvo/photo_error.cc:149-153 | `load_data`: the intensities at `ind`, `ind+1`, `ind+stride`, `ind+stride+1`, requiring that footprint in bounds; a definition with no ensures of its own, shown to be the 2x2 neighbourhood in `SampleIsBlend` and `FootprintDecodes` |
| Interp.SamplePoint | bpvo/photo_error.cc:155-163 | an invalid point samples 0 and its gather needs no in-bounds footprint (the image is not read); a valid one needs its 2x2 footprint in bounds |
| Interp.SampleIsBlend | bpvo/photo_error.cc:149-161 | a valid point's sample is c0*I(xi,yi) + c1*I(xi+1,yi) + c2*I(xi,yi+1) + c3*I(xi+1,yi+1) over the 2D image |
| Interp.DotWithinRange | bpvo/photo_error.cc:192-202 | with non-negative coefficients summing to 1, the dot product lies between the least and greatest gathered intensity |
| Interp.SampleOnPixel | bpvo/photo_error.cc:155-163 | with one-hot coefficients (1,0,0,0) the sample is the intensity of the pixel itself |
| Interp.SimdLoadLastRead | bpvo/photo_error.cc:172 | the last index the second `_mm_loadu_ps(p + _stride)` reads, `ind + stride + 3`; a definition with no ensures of its own, shown past the image end in `SimdLoadOverrun` |
| Interp.SimdLoadOverrun | bpvo/photo_error.cc:166-174 | the `WITH_SIMD` gather of the bottom-right valid pixel of any image reads index rows*cols+1, outside the image |
| Interp.RampExample | bpvo/photo_error.cc:155-163 | in a 4x4 image holding 0..15, a point at (1.5,1.5) is valid with offset 5 and with equal weights samples 7.5 (residual 0.5 against 7.0); a point at (3.5,0) is invalid |
| PhotoError.Resized | bpvo/photo_error.cc:143-147 | resizing to n gives length n, keeps the first min(n, old length) elements and pads with the fill value |
| PhotoError.ProjectedFrom | bpvo/photo_error.cc:89-90 | the rule assumed of `projectPoints`' outputs: `valid[i]` exactly when the truncated pixel passes the gate, and a valid offset is `yi*cols + xi`; a predicate with no ensures of its own, required by `Impl.Init`, kept by `Impl.Valid` and turned into in-bounds gathers by `ProjectedFootprint` |
| PhotoError.ProjectedFootprint | bpvo/photo_error.cc:89-90 | for outputs that follow the projection rule, every valid point's four reads lie in [0, rows*cols) |
| PhotoError.Sub4 | bpvo/photo_error.cc:108-130 | `_mm_sub_ps` as lane-wise subtraction; a definition with no ensures of its own, whose effect on `r` is stated by `Impl.Lanes4` (`r[k] == sample(k) - I0[k]`) |
| PhotoError.Load4 | bpvo/photo_error.cc:112-134 | `_mm_load_ps` / `_mm_loadu_ps` of four consecutive floats, requiring a lane offset that is a multiple of 4 for the aligned form; a definition with no ensures of its own, used by `Impl.Lanes4` |
| PhotoError.Store4 | bpvo/photo_error.cc:107-134 | an aligned or unaligned 4-lane store writes the lanes to r[at..at+4), reports those four indices as the ones it assigned, and leaves every slot outside them unchanged |
| PhotoError.Impl.constructor | bpvo/photo_error.cc:204-207 | a new object has empty coefficient and offset vectors and a null mask pointer, and satisfies the invariant |
| PhotoError.Impl.Resize | bpvo/photo_error.cc:143-147 | the coefficient and offset vectors become `Resized` to n; stride, mask pointer and everything else are unchanged |
| PhotoError.Impl.Init | bpvo/photo_error.cc:79-92 | coefficients, offsets and the caller's mask all have n entries, stride == cols, the mask pointer is the caller's mask; for n > 0 they hold what projectPoints wrote, for n == 0 they are empty; the invariant holds |
| PhotoError.Impl.Sample | bpvo/photo_error.cc:155-163 | the stored sample of an invalid point is 0; for a valid one the gather is in bounds because the stored outputs follow the gate |
| PhotoError.Impl.ValidSample | bpvo/photo_error.cc:149-163 | a valid stored point's truncated pixel passes the gate, and its sample blends the four pixels around it with its stored coefficients |
| PhotoError.Impl.Lanes4 | bpvo/photo_error.cc:107-112 | one 4-lane half writes r[k] = sample(k) - I0[k] for its four k, returns the indices its store assigned, and changes no other slot |
| PhotoError.Impl.Block8 | bpvo/photo_error.cc:105-135 | one 8-wide step writes r[k] = sample(k) - I0[k] for k in [i, i+8), returns the indices its two stores assigned (i, ..., i+7), and changes no other slot, in either alignment |
| PhotoError.Impl.Run | bpvo/photo_error.cc:94-141 | for any N, including 0 and N < 8, and either branch: the indices the stores and the tail assignment report, concatenated, are 0, 1, ..., N-1 in that order, so each is written once; r[k] == sample(k) - I0[k] for k < N; r[k] == -I0[k] for invalid k; r beyond N is unchanged; only r is modified |

## Findings

| source | as written | input that shows it | evidently intended | confidence | as-written member | corrected member |
|---|---|---|---|---|---|---|
| bpvo/photo_error.cc:166-174 | under `WITH_SIMD`, `operator()` gathers with two unaligned 4-float loads at `p` and `p + stride`, reading up to `ind + stride + 3` | any rows, cols >= 2, point at the valid pixel (cols-2, rows-2): the last read is rows*cols+1 (17 in a 4x4 image) | read only the 2x2 footprint, last index `ind + stride + 1` < rows*cols | not executed; the comment at lines 168-170 anticipates it | Interp.SimdLoadOverrun | PixelGrid.FootprintInBounds |

The rest of the model uses the scalar gather `Interp.LoadData` (lines
149-153), whose footprint `PixelGrid.FootprintInBounds` proves in bounds.

## Left out

- The compiled-out OpenCV variant (lines 11-70) is not modelled. It wraps `cv::convertMaps` and `cv::remap`. Only its validity rule at line 41 is used.
- `projectPoints` is not part of this model: the 3x4 projection, the division by the homogeneous scale and the bilinear weights. `Init` takes its outputs and the projected coordinates as parameters. The matrix `P` and the points `X` are represented only by the point count `n`.
- The interpolation coefficients are not constrained: `projectPoints` computes them, and it is outside the model. `Interp.DotWithinRange` and `Interp.SampleOnPixel` therefore take their weight assumptions as preconditions.
- The SSE intrinsics are modelled as lane-wise real arithmetic on `Vec4`. `load_data_simd` is modelled only by the index it reaches (see Findings), not as a gather.
- Single-precision rounding and summation order are not modelled, because intensities are reals.
- 32-bit overflow is not modelled: of `yi*cols + xi`, of `num_points = _interp_coeffs.size()` narrowed to `int`, and of `static_cast<int>` on coordinates outside the `int` range. Integers are unbounded.
- Pointer alignment is not modelled: `simd::isAligned<16>` becomes the parameter `aligned` of `Run`.
- `r` and `I0` are modelled as distinct buffers (`I0` is a sequence). The case where the caller passes the same buffer for both is not modelled.
- The pimpl wrappers and the `cv::InputArray` conversion (lines 212-226) are not modelled. The image is a flat sequence of `rows * stride` intensities.
- PhotoError.Impl.Resize: pads new coefficient vectors with zeros, whereas Eigen leaves a new `Vector4f` uninitialised. `operator()` reads `_interp_coeffs[i]` only when `_valid_ptr[i]` is set (bpvo/photo_error.cc:161), so the coefficients of an invalid point, padding included, are never observed.
- PhotoError.Impl.constructor: sets `stride` to 0, whereas `_stride` is left uninitialised in the source. It is never read before `init`.
