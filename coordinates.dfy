/** The logical window of a figure (its `corners_units` matrix) and the two
    mappings between logical coordinates and pixel indices. The scalar type
    of the logical coordinates is modelled by `real`, pixel indices and
    buffer sizes (`usize`) by `nat`. */
module Coordinates {

  /** An axis index: 0 is the first canvas axis (x), 1 the second (y). */
  type Axis = k: nat | k < 2

  /** A 2-vector with components 0 and 1. */
  datatype Vec2<T> = Vec2(c0: T, c1: T) {
    function At(k: Axis): T {
      if k == 0 then c0 else c1
    }

    /** The vector with component `k` replaced by `v`. */
    function With(k: Axis, v: T): (r: Vec2<T>)
      ensures r.At(k) == v && r.At(1 - k) == At(1 - k)
    {
      if k == 0 then Vec2(v, c1) else Vec2(c0, v)
    }
  }

  /** The 2x2 matrix `corners_units`: row 0 is the minimum corner, row 1 the
      maximum corner, so column k holds the limits of axis k. */
  datatype Window = Window(minCorner: Vec2<real>, maxCorner: Vec2<real>)

  /** The window of a new figure: [0,1] x [0,1]. */
  const DefaultWindow: Window := Window(Vec2(0.0, 0.0), Vec2(1.0, 1.0))

  /** `set_column(k, lims)`: the limits of axis k become `lims`, the other
      column of the matrix is kept. */
  function SetColumn(w: Window, k: Axis, lims: Vec2<real>): (r: Window)
    ensures r.minCorner.At(k) == lims.c0 && r.maxCorner.At(k) == lims.c1
    ensures r.minCorner.At(1 - k) == w.minCorner.At(1 - k)
    ensures r.maxCorner.At(1 - k) == w.maxCorner.At(1 - k)
  {
    Window(w.minCorner.With(k, lims.c0), w.maxCorner.With(k, lims.c1))
  }

  /** `get_dx`: row 1 minus row 0, the extent of the window on each axis. */
  function Extent(w: Window): (dx: Vec2<real>)
    ensures w.minCorner.c0 + dx.c0 == w.maxCorner.c0 && w.minCorner.c1 + dx.c1 == w.maxCorner.c1
  {
    Vec2(w.maxCorner.c0 - w.minCorner.c0, w.maxCorner.c1 - w.minCorner.c1)
  }

  /** Both extents are nonzero, so that dividing by them is defined. */
  predicate NonDegenerate(w: Window) {
    Extent(w).c0 != 0.0 && Extent(w).c1 != 0.0
  }

  /** Setting the limits of axis k changes the extent on axis k only. */
  lemma {:induction false} ExtentAfterSetColumn(w: Window, k: Axis, lims: Vec2<real>)
    ensures Extent(SetColumn(w, k, lims)).At(k) == lims.c1 - lims.c0
    ensures Extent(SetColumn(w, k, lims)).At(1 - k) == Extent(w).At(1 - k)
  {
    var r := SetColumn(w, k, lims);
    assert Extent(r).At(k) == r.maxCorner.At(k) - r.minCorner.At(k);
    assert Extent(r).At(1 - k) == r.maxCorner.At(1 - k) - r.minCorner.At(1 - k);
    assert Extent(w).At(1 - k) == w.maxCorner.At(1 - k) - w.minCorner.At(1 - k);
  }

  /** Setting the limits of one axis twice keeps only the second limits. */
  lemma SetColumnOverwrites(w: Window, k: Axis, a: Vec2<real>, b: Vec2<real>)
    ensures SetColumn(SetColumn(w, k, a), k, b) == SetColumn(w, k, b)
  {
  }

  /** Setting the limits of the two axes commutes. */
  lemma SetColumnsCommute(w: Window, a: Vec2<real>, b: Vec2<real>)
    ensures SetColumn(SetColumn(w, 0, a), 1, b) == SetColumn(SetColumn(w, 1, b), 0, a)
  {
  }

  /** The default window has extent 1 on both axes. */
  lemma DefaultExtent()
    ensures Extent(DefaultWindow) == Vec2(1.0, 1.0) && NonDegenerate(DefaultWindow)
  {
  }

  /** A float-to-usize `as` cast: truncation toward zero, saturating at 0
      for negative values. */
  function AsUsize(x: real): (n: nat)
    ensures x < 0.0 ==> n == 0
    ensures 0.0 <= x ==> n as real <= x < n as real + 1.0
  {
    if x < 0.0 then 0 else x.Floor
  }

  /** `x.round().as_()`: rounding half away from zero, then the saturating
      usize cast; for x >= 0 this is the integer nearest to x, ties upward. */
  function RoundToUsize(x: real): (n: nat)
    ensures x < 0.0 ==> n == 0
    ensures 0.0 <= x ==> x - 0.5 < n as real <= x + 0.5
  {
    if x < 0.0 then 0 else (x + 0.5).Floor
  }

  /** One component of `coordinate_to_pixel`: `round(offset / extent * n)`,
      the pixel nearest to the offset's fraction of the extent scaled to n
      pixels, or 0 when that is negative. */
  function PixelComponent(offset: real, extent: real, n: nat): (p: nat)
    requires extent != 0.0
    ensures offset / extent * n as real < 0.0 ==> p == 0
    ensures 0.0 <= offset / extent * n as real ==>
      offset / extent * n as real - 0.5 < p as real <= offset / extent * n as real + 0.5
  {
    RoundToUsize(offset / extent * n as real)
  }

  /** The integer n is its own rounding. */
  lemma RoundOfNat(n: nat)
    ensures RoundToUsize(n as real) == n
  {
  }

  /** A full extent scaled to n pixels is exactly n pixels. */
  lemma {:induction false} FullExtentComponent(extent: real, n: nat)
    requires extent != 0.0
    ensures PixelComponent(extent, extent, n) == n
  {
    assert extent / extent == 1.0;
    RoundOfNat(n);
  }

  /** `coordinate_to_pixel`: subtract the minimum corner, divide by the extent,
      scale by the buffer size, round and cast, component by component. The
      window's minimum corner maps to pixel (0, 0) and its maximum corner to
      the buffer size. */
  function CoordinateToPixel(w: Window, pos: Vec2<real>, size: Vec2<nat>): (p: Vec2<nat>)
    requires NonDegenerate(w)
    ensures pos == w.minCorner ==> p == Vec2(0, 0)
    ensures pos == w.maxCorner ==> p == size
  {
    var dx := Extent(w);
    FullExtentComponent(dx.c0, size.c0);
    FullExtentComponent(dx.c1, size.c1);
    Vec2(PixelComponent(pos.c0 - w.minCorner.c0, dx.c0, size.c0),
         PixelComponent(pos.c1 - w.minCorner.c1, dx.c1, size.c1))
  }

  /** The fraction p / n of an extent: scaled back by n it is `p * extent`;
      it is 0 for p = 0 and the whole extent for p = n. */
  lemma {:induction false} FractionOfExtent(p: real, n: real, extent: real)
    requires n != 0.0
    ensures p / n * extent * n == p * extent
    ensures p == 0.0 ==> p / n * extent == 0.0
    ensures p == n ==> p / n * extent == extent
  {
    assert p / n * n == p;
    calc {
      p / n * extent * n;
      (p / n * n) * extent;
      p * extent;
    }
    assert n / n == 1.0;
  }

  /** `pixel_to_coordinate`: pixel index divided by the buffer size, times the
      extent, so the index's fraction of the buffer becomes the same fraction
      of the extent. The minimum corner is NOT added back: pixel (0, 0) maps
      to the zero vector and the far corner `size` to the extent, not to the
      window's corners. */
  function PixelToCoordinate(w: Window, pix: Vec2<nat>, size: Vec2<nat>): (pos: Vec2<real>)
    requires size.c0 > 0 && size.c1 > 0
    ensures pos.c0 * size.c0 as real == pix.c0 as real * Extent(w).c0
    ensures pos.c1 * size.c1 as real == pix.c1 as real * Extent(w).c1
    ensures pix == Vec2(0, 0) ==> pos == Vec2(0.0, 0.0)
    ensures pix == size ==> pos == Extent(w)
  {
    var dx := Extent(w);
    FractionOfExtent(pix.c0 as real, size.c0 as real, dx.c0);
    FractionOfExtent(pix.c1 as real, size.c1 as real, dx.c1);
    Vec2(pix.c0 as real / size.c0 as real * dx.c0,
         pix.c1 as real / size.c1 as real * dx.c1)
  }

  /** A pixel index mapped to a coordinate and back, on one axis: the
      minimum `lo` of the window is subtracted on the way back but was never
      added, so the round trip is shifted by lo / extent * n pixels. */
  lemma {:induction false} RoundTripComponent(p: nat, x: real, lo: real, extent: real, n: nat)
    requires extent != 0.0 && n > 0
    requires x == p as real / n as real * extent
    ensures PixelComponent(x - lo, extent, n) == RoundToUsize(p as real - lo / extent * n as real)
  {
    calc {
      (x - lo) / extent * n as real;
      x / extent * n as real - lo / extent * n as real;
      { assert x / extent == p as real / n as real; }
      p as real / n as real * n as real - lo / extent * n as real;
      p as real - lo / extent * n as real;
    }
  }

  /** The round trip on axis 0. */
  lemma {:induction false} PixelRoundTripAxis0(w: Window, p: Vec2<nat>, size: Vec2<nat>)
    requires NonDegenerate(w) && size.c0 > 0 && size.c1 > 0
    ensures CoordinateToPixel(w, PixelToCoordinate(w, p, size), size).c0
         == RoundToUsize(p.c0 as real - w.minCorner.c0 / Extent(w).c0 * size.c0 as real)
  {
    var pos := PixelToCoordinate(w, p, size);
    RoundTripComponent(p.c0, pos.c0, w.minCorner.c0, Extent(w).c0, size.c0);
  }

  /** The round trip on axis 1. */
  lemma {:induction false} PixelRoundTripAxis1(w: Window, p: Vec2<nat>, size: Vec2<nat>)
    requires NonDegenerate(w) && size.c0 > 0 && size.c1 > 0
    ensures CoordinateToPixel(w, PixelToCoordinate(w, p, size), size).c1
         == RoundToUsize(p.c1 as real - w.minCorner.c1 / Extent(w).c1 * size.c1 as real)
  {
    var pos := PixelToCoordinate(w, p, size);
    RoundTripComponent(p.c1, pos.c1, w.minCorner.c1, Extent(w).c1, size.c1);
  }

  /** `coordinate_to_pixel` after `pixel_to_coordinate`, for any window: on
      each axis the result is the original index shifted by the window
      minimum expressed in pixels. */
  lemma {:induction false} PixelRoundTrip(w: Window, p: Vec2<nat>, size: Vec2<nat>)
    requires NonDegenerate(w) && size.c0 > 0 && size.c1 > 0
    ensures CoordinateToPixel(w, PixelToCoordinate(w, p, size), size)
         == Vec2(RoundToUsize(p.c0 as real - w.minCorner.c0 / Extent(w).c0 * size.c0 as real),
                 RoundToUsize(p.c1 as real - w.minCorner.c1 / Extent(w).c1 * size.c1 as real))
  {
    PixelRoundTripAxis0(w, p, size);
    PixelRoundTripAxis1(w, p, size);
  }

  /** When the window starts at the origin, the round trip from pixels to
      coordinates and back is the identity. */
  lemma {:induction false} PixelRoundTripAtOrigin(w: Window, p: Vec2<nat>, size: Vec2<nat>)
    requires NonDegenerate(w) && size.c0 > 0 && size.c1 > 0
    requires w.minCorner == Vec2(0.0, 0.0)
    ensures CoordinateToPixel(w, PixelToCoordinate(w, p, size), size) == p
  {
    PixelRoundTrip(w, p, size);
    RoundOfNat(p.c0);
    RoundOfNat(p.c1);
  }

  /** Rounding and the saturating cast preserve order. */
  lemma RoundMonotone(x: real, y: real)
    requires x <= y
    ensures RoundToUsize(x) <= RoundToUsize(y)
  {
  }

  /** Dividing by a positive extent and scaling by n preserve order. */
  lemma {:induction false} ScaledQuotientMonotone(x: real, y: real, extent: real, n: nat)
    requires extent > 0.0 && x <= y
    ensures x / extent * n as real <= y / extent * n as real
  {
    var u, v := x / extent, y / extent;
    assert u * extent == x && v * extent == y;
    assert u <= v;
  }

  /** So does one component of `coordinate_to_pixel`. */
  lemma {:induction false} PixelComponentMonotone(x: real, y: real, extent: real, n: nat)
    requires extent > 0.0 && x <= y
    ensures PixelComponent(x, extent, n) <= PixelComponent(y, extent, n)
  {
    var u, v := x / extent * n as real, y / extent * n as real;
    ScaledQuotientMonotone(x, y, extent, n);
    RoundMonotone(u, v);
    assert PixelComponent(x, extent, n) == RoundToUsize(u);
    assert PixelComponent(y, extent, n) == RoundToUsize(v);
  }

  /** On an axis of positive extent, `coordinate_to_pixel` preserves order. */
  lemma {:induction false} CoordinateToPixelMonotone(w: Window, a: Vec2<real>, b: Vec2<real>, size: Vec2<nat>, k: Axis)
    requires NonDegenerate(w)
    ensures Extent(w).At(k) > 0.0 && a.At(k) <= b.At(k) ==>
      CoordinateToPixel(w, a, size).At(k) <= CoordinateToPixel(w, b, size).At(k)
  {
    if Extent(w).At(k) > 0.0 && a.At(k) <= b.At(k) {
      var lo := w.minCorner.At(k);
      PixelComponentMonotone(a.At(k) - lo, b.At(k) - lo, Extent(w).At(k), size.At(k));
    }
  }
}
