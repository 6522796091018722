# vizzavi rasteriser, modelled in Dafny

vizzavi draws simple 2-D figures into an RGB bitmap. A `Figure` has:

- a logical window (`corners_units`, the minimum and maximum corner);
- a list of elements drawn in the order they were added: rectangles, circles, triangles, and `FuncEval` scalar fields coloured through a `ColorMap`;
- an `Origin` that says which corner of the finished image is the logical origin.

`save_image` works in four steps:

1. it allocates a zeroed H x W x 3 canvas of bytes;
2. it asks each element to `draw_to_axis` into it;
3. it inverts canvas axis 0 unless the origin is on the left, and inverts axis 1 when the origin is at the bottom;
4. it encodes the canvas as an image file.

This project models steps 1 to 3 and the pieces they use. `src/lib.rs` holds a second copy of `src/figure.rs`, `src/element.rs` and `src/backend/bitmap.rs`; the copies are identical. The table cites the split files.

Modules:

- `Coordinates` (coordinates.dfy) models the window, `get_dx`, `coordinate_to_pixel`, `pixel_to_coordinate`, `set_xlim`/`set_ylim` and the float-to-`usize` casts. The scalar type is `real` and `usize` is `nat`.
- `Elements` (elements.dfy) models colours, the `ColorMap` trait, `CmapGreys`, the element types and their `From` conversions. A colour map other than `CmapGreys` is given by its `get_color_normalized` and, if it overrides the provided `get_color`, by that method too.
- `Bitmap` (bitmap.dfy) models `draw_to_axis` as methods on an `array3<byte>` canvas.
  - The methods are proved against `Stroke`, a function that gives the colour an element writes at one pixel (or none).
  - `Paint` puts that colour over what was there before.
  - `Drawable` holds exactly when drawing cannot panic. That takes three conditions:
    - the window has a nonzero extent on each axis where `coordinate_to_pixel` divides by it (`Mappable`);
    - every ndarray slice and index the drawing uses is in range;
    - a circle that draws any column has `pix_min[1] <= pix_max[1]`, so the `usize` subtraction at src/backend/bitmap.rs:54 does not underflow.
- `Figures` (figure.dfy) models the `Origin` and `Figure` classes.
  - `Rendered` is the colour of each pixel after the elements are drawn in order.
  - `Render` is the drawing part of `save_image`, proved to produce `Rendered` read through the origin's mirroring.

## Model

| member | source | states |
|---|---|---|
| Coordinates.SetColumn | src/figure.rs:136-144 | the limits of axis k become `lims`; the other column of the window is kept |
| Coordinates.ExtentAfterSetColumn | src/figure.rs:109-111 | after setting axis k's limits, `get_dx` on axis k is `lims[1] - lims[0]`; the other axis's extent is unchanged |
| Coordinates.SetColumnOverwrites | src/figure.rs:136-144 | setting the same axis twice keeps only the second limits |
| Coordinates.SetColumnsCommute | src/figure.rs:136-144 | setting the x limits and the y limits commute |
| Coordinates.Extent | src/figure.rs:109-111 | `get_dx` is the extent on each axis: the minimum corner plus the extent is the maximum corner |
| Coordinates.DefaultExtent | src/figure.rs:51-60 | a new figure's window [0,1] x [0,1] has extent 1 on both axes, so both divisions are defined |
| Coordinates.AsUsize | src/backend/bitmap.rs:56-57 | the float-to-usize cast is 0 for negative inputs; otherwise it is the integer n with n <= x < n + 1 |
| Coordinates.RoundToUsize | src/figure.rs:113-123 | `round().as_()` is 0 for negative inputs; otherwise it is an integer within 1/2 of x |
| Coordinates.RoundOfNat | src/figure.rs:113-123 | rounding an integer gives that integer |
| Coordinates.PixelComponent | src/figure.rs:113-123 | one axis of `coordinate_to_pixel` is 0 when the scaled offset `offset / extent * n` is negative, and otherwise the integer within 1/2 of it |
| Coordinates.FullExtentComponent | src/figure.rs:113-123 | on one axis, an offset equal to the full extent maps to exactly n pixels |
| Coordinates.CoordinateToPixel | src/figure.rs:113-123 | the window's minimum corner maps to pixel (0, 0) and its maximum corner to the buffer size |
| Coordinates.PixelToCoordinate | src/figure.rs:125-134 | the coordinate is the index's fraction of the buffer times the extent (`pos * n == pix * extent` on each axis). Pixel (0, 0) maps to (0, 0) and pixel `size` to the extent, because the window minimum is never added back |
| Coordinates.RoundTripComponent | src/figure.rs:113-134 | one axis of coordinate_to_pixel after pixel_to_coordinate is the index minus `min / extent * n`, rounded |
| Coordinates.PixelRoundTripAxis0 | src/figure.rs:113-134 | the round trip on axis 0 is shifted by the window minimum expressed in pixels |
| Coordinates.PixelRoundTripAxis1 | src/figure.rs:113-134 | the round trip on axis 1 is shifted by the window minimum expressed in pixels |
| Coordinates.PixelRoundTrip | src/figure.rs:113-134 | for any window, pixel -> coordinate -> pixel is the index shifted by the window minimum in pixels, on both axes |
| Coordinates.PixelRoundTripAtOrigin | src/figure.rs:113-134 | when the window starts at (0, 0), pixel -> coordinate -> pixel is the identity |
| Coordinates.RoundMonotone | src/figure.rs:113-123 | rounding followed by the saturating cast preserves order |
| Coordinates.PixelComponentMonotone | src/figure.rs:113-123 | with a positive extent, the per-axis pixel mapping preserves order |
| Coordinates.CoordinateToPixelMonotone | src/figure.rs:113-123 | on an axis of positive extent, coordinate_to_pixel preserves order |
| Elements.AsU8 | src/element.rs:44 | the float-to-u8 cast is 0 below 0 and 255 from 255 on; in between it truncates |
| Elements.Clamp | src/element.rs:43 | `clamp(lo, hi)` gives lo below lo, hi above hi, and the value itself in between |
| Elements.CastAbsorbsClamp | src/element.rs:43-44 | casting `t * 255` to u8 gives the same as clamping t to [0, 1] first |
| Elements.GreysNormalized | src/element.rs:41-46 | three equal channels. For max <= min: white above min, black otherwise. For 0 < max - min <= 1: equal to the intended ramp. For a wider range: the ramp for [min, min + 1] |
| Elements.GreysNormalizedIntended | src/element.rs:41-46 | the ramp clamped on the normalised value: three equal channels, black at or below min, white at or above max, `255 * (h - min) / (max - min)` truncated in between |
| Elements.GreysClampOnDivisor | src/element.rs:43 | for h = 1 on [0, 2], the code as written gives white (255) where the ramp gives 127 |
| Elements.GetColorNormalized | src/element.rs:23-46 | each map's own `get_color_normalized`: the grey map gives three equal channels, and the intended ramp on a range no wider than 1 |
| Elements.GetColor | src/element.rs:28-30 | the provided `get_color(h)` is `get_color_normalized(h, 0, 1)` unless the map overrides it. For the grey map it is `h * 255` cast to u8 in all channels: black up to 0, white from 1 on, and equal to the intended ramp |
| Elements.GreysGetColorMonotone | src/element.rs:41-46 | the grey map's `get_color` is monotone in h |
| Elements.FromRectangle | src/element.rs:65-69 | the conversion gives the Rectangle variant holding the same rectangle |
| Elements.FromCircle | src/element.rs:71-75 | the conversion gives the Circle variant holding the same circle |
| Elements.FromTriangle | src/element.rs:59-63 | the conversion gives the Triangle variant holding the same triangle |
| Bitmap.RectangleBox | src/backend/bitmap.rs:26-27 | on an axis of positive extent, ordered corners map to an ordered pixel box; a rectangle spanning the window maps to the whole canvas |
| Bitmap.CircleBox | src/backend/bitmap.rs:42-45 | on an axis of positive extent, a non-negative radius gives an ordered pixel box |
| Bitmap.Middle | src/backend/bitmap.rs:47-49 | `pix_middle` is as far from the box's low corner as from its high corner on each axis |
| Bitmap.ColumnT | src/backend/bitmap.rs:51-52 | inside the box's columns, `t` lies in [0, 1] and is 1 at the first column, so the square root's argument is never negative |
| Bitmap.HalfChord | src/backend/bitmap.rs:53-54 | with a true square root and `pix_min[1] <= pix_max[1]`, `q` lies between 0 and half the box's height |
| Bitmap.ColumnSpan | src/backend/bitmap.rs:56-57 | with a true square root and `pix_min[1] <= pix_max[1]`, `pix_min1 <= pix_low <= pix_high <= pix_max1` |
| Bitmap.Stroke | src/backend/bitmap.rs:20-78 | a triangle writes nothing. A rectangle writes its colour exactly on its pixel box. A circle writes only its colour and, with a true square root, only inside its pixel box. A function writes exactly where it yields a value |
| Bitmap.Paint | src/backend/bitmap.rs:8-80 | drawing an element over a pixel gives the stroke colour where the element strokes it and the old colour elsewhere |
| Bitmap.AssignSegment | src/backend/bitmap.rs:58-60 | the slice `[i, lo..hi, ..]` gets the colour in all three channels; every other entry is unchanged; an end before the start writes nothing |
| Bitmap.FillRectangle | src/backend/bitmap.rs:24-35 | the pixel block [pix_min, pix_max) on both axes gets the colour; everything else is unchanged |
| Bitmap.FillCircle | src/backend/bitmap.rs:36-62 | each column m in [pix_min0, pix_max0) gets the colour on [pix_low, pix_high); everything else is unchanged |
| Bitmap.FillFunc | src/backend/bitmap.rs:63-77 | each pixel whose coordinate the function maps to `Some(v)` gets `get_color(v)`; pixels mapped to `None` keep their colour |
| Bitmap.DrawToAxis | src/backend/bitmap.rs:8-80 | fails exactly for a triangle, leaving the canvas as it was; otherwise every pixel becomes `Paint` of the element over its old colour |
| Bitmap.ScaledChordBounds | src/backend/bitmap.rs:53-54 | for t in [0, 1], a true square root and a non-negative height, `sqrt(1 - t^2) * height / 2` lies between 0 and half the height |
| Bitmap.ColumnSpanSymmetric | src/backend/bitmap.rs:50-61 | column m and its mirror column `pix_min0 + pix_max0 - m` get the same span |
| Bitmap.CircleFitsWhenBoxFits | src/backend/bitmap.rs:50-61 | a circle whose pixel bounding box fits the canvas draws without panicking |
| Bitmap.OrderedInsideWindow | src/figure.rs:113-123 | two ordered points inside a window of positive extents map to ordered pixels within the buffer |
| Bitmap.RectangleInsideWindowDrawable | src/backend/bitmap.rs:24-35 | an ordered rectangle inside a window of positive extents draws without panicking |
| Bitmap.CircleInsideWindowDrawable | src/backend/bitmap.rs:36-62 | a circle whose bounding square lies inside a window of positive extents draws without panicking |
| Bitmap.FullWindowRectangle | src/backend/bitmap.rs:24-35 | a rectangle from the window's minimum to its maximum corner is drawable and paints every pixel |
| Bitmap.FuncEvalGreysStroke | src/backend/bitmap.rs:63-77 | a field drawn with the grey map writes `v * 255` cast to u8 wherever it yields v |
| Figures.Origin.Default | src/figure.rs:11-18 | the default origin is left and bottom |
| Figures.Origin.SwitchX | src/figure.rs:21-23 | `switchx` flips `is_left` and keeps `is_bottom` |
| Figures.Origin.SwitchY | src/figure.rs:25-27 | `switchy` flips `is_bottom` and keeps `is_left` |
| Figures.SwitchTwiceRestores | src/figure.rs:20-28 | switching each axis twice restores the origin |
| Figures.SafeWithoutTriangle | src/figure.rs:83-85 | when no element is a triangle, every element the render reaches is drawable |
| Figures.Rendered | src/figure.rs:81-85 | the colour of a pixel after the elements are drawn in order onto the zeroed canvas is black or the stroke colour of one of the elements |
| Figures.RenderedAppend | src/figure.rs:62-64 | after `add_element`, each pixel of the render is the new element painted over the previous render |
| Figures.RenderedPrefixStep | src/figure.rs:83-85 | drawing one element further into the list paints it over every pixel of the picture drawn so far |
| Figures.UnstrokedStaysBlack | src/figure.rs:81-85 | a pixel no element strokes keeps the black of the zeroed canvas |
| Figures.LastWriteWins | src/figure.rs:83-85 | a pixel has the colour of the last element that strokes it, whatever the earlier elements did |
| Figures.FullRectangleCovers | src/figure.rs:83-85 | a full-window rectangle drawn last hides everything before it |
| Figures.Oriented | src/figure.rs:87-93 | the mirrored index of a pixel stays within the canvas |
| Figures.OrientedInvolution | src/figure.rs:87-93 | mirroring twice is the identity |
| Figures.DefaultOrientation | src/figure.rs:87-93 | with the default origin only axis 1 is mirrored: pixel (i, j) shows drawn pixel (i, W - 1 - j) |
| Figures.InvertAxis | src/figure.rs:88-93 | `invert_axis(k)` reads the canvas with axis k reversed; the shape is unchanged |
| Figures.DrawNext | src/figure.rs:83-85 | one turn of the draw loop fails exactly for a triangle; otherwise a canvas holding the first k elements then holds the first k + 1 |
| Figures.DrawElements | src/figure.rs:81-85 | fails exactly when some element is a triangle; otherwise gives a fresh H x W x 3 canvas holding `Rendered` at every pixel |
| Figures.Orient | src/figure.rs:87-93 | axis 0 is inverted unless the origin is on the left and axis 1 is inverted if it is at the bottom, as `Oriented` says |
| Figures.Figure.constructor | src/figure.rs:51-60 | a new figure has the unit window, no elements and the default origin |
| Figures.Figure.AddElement | src/figure.rs:62-64 | the element is appended after the others; the window is unchanged |
| Figures.Figure.ColorByFunc | src/figure.rs:66-72 | a `FuncEval` of the function and map is appended |
| Figures.Figure.SetXLim | src/figure.rs:136-139 | column 0 of the window becomes the limits; the x extent becomes `lims[1] - lims[0]`; the y extent and the elements are unchanged |
| Figures.Figure.SetYLim | src/figure.rs:141-144 | column 1 of the window becomes the limits; the y extent becomes `lims[1] - lims[0]`; the x extent and the elements are unchanged |
| Figures.Figure.Render | src/figure.rs:74-93 | fails exactly when some element is a triangle; otherwise gives an H x W x 3 canvas whose pixel (i, j) is `Rendered` at the origin-mirrored index |

## Left out

- Image encoding and file output in `save_image` (the `RgbImage` and `save_with_format` steps) are I/O and are not modelled. `Render` returns the canvas the image is built from.
- `ErrorTypes` (the image and cast errors) are not modelled. The only error a render produces in the model is the unimplemented triangle.
- The triangle's `todo!()` panics. The model reports it as `DrawError.Unsupported` and leaves the canvas untouched; the render stops there as `?` would stop it.
- IEEE infinities and NaN are not modelled. A zero window extent (division by zero in `coordinate_to_pixel`) is excluded by the `NonDegenerate` precondition. The one place where such values feed a cast is the grey map with `max <= min`, and its outcome is written out explicitly.
- The float scalar type `T` is modelled by exact `real` arithmetic; rounding errors are not modelled.
- `usize` is unbounded: casts saturate at 0 but not at `usize::MAX`.
- The underflow of `pix_max[1] - pix_min[1]` in the circle is a precondition, the debug-build panic. The release-build wrap-around is not modelled.
- Square roots come in as a function parameter. Lemmas that need its meaning require `IsSqrt`.
- Figures.InvertAxis: ndarray inverts an axis in place by flipping a stride. The model returns a fresh mirrored array, so the aliasing of the view is not captured. Only the values read from it are.
- Figure's `origin` field has no setter in the source. `Render` reads the flags of whatever `Origin` object the figure holds.
- The generic `From` conversion behind `add_element(impl Into<Element>)` is modelled by the three `From*` functions, with `AddElement` taking an `Element`.
- `src/main.rs` (an example program) is not part of this model.

## Findings

| source | as written | input that shows it | evidently intended | confidence | as-written member | corrected member |
|---|---|---|---|---|---|---|
| src/element.rs:43 (same code at src/lib.rs:79) | `(h - min) / (max - min).clamp(0, 1)`: the clamp applies to the divisor, so any range wider than 1 is shaded as [min, min + 1] | h = 1, min = 0, max = 2 gives grey level 255 | clamp the normalised value `(h - min) / (max - min)` to [0, 1], giving level 127 for this input | medium; not executed | Elements.GreysNormalized, Elements.GreysClampOnDivisor | Elements.GreysNormalizedIntended, Elements.GetColor |

On the range [0, 1] that `get_color` uses, the two definitions agree (`Elements.GetColor`). So every render goes through behaviour that is correct either way. The trait method `get_color_normalized` is dispatched to the code as written, since a caller can reach it directly.
