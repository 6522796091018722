/** The bitmap backend: `Element::draw_to_axis`, which paints one element
    into an H x W x 3 canvas of bytes in place. What an element does to each
    pixel is specified by `Stroke` (the colour it writes there, if any); the
    methods are proved against it. */
module Bitmap {
  import opened Coordinates
  import opened Elements

  /** The error a draw can report. */
  datatype DrawError = Unsupported

  datatype Outcome = Pass | Fail(error: DrawError)

  /** A pair of pixel corners `pix_min`, `pix_max`. */
  datatype Box = Box(lo: Vec2<nat>, hi: Vec2<nat>)

  /** The size `(H, W)` of a canvas, as `canvas.dim()` gives it. */
  function SizeOf(canvas: array3<byte>): Vec2<nat> {
    Vec2(canvas.Length0, canvas.Length1)
  }

  /** The colour stored at pixel (i, j). */
  function PixelAt(canvas: array3<byte>, i: nat, j: nat): Rgb
    requires canvas.Length2 == 3 && i < canvas.Length0 && j < canvas.Length1
    reads canvas
  {
    Rgb(canvas[i, j, 0], canvas[i, j, 1], canvas[i, j, 2])
  }

  /** The rectangle's corners mapped to pixels. On an axis of positive
      extent, ordered corners give an ordered box; a rectangle spanning the
      window gives the whole canvas. */
  function RectangleBox(w: Window, r: Rectangle, size: Vec2<nat>): (b: Box)
    requires NonDegenerate(w)
    ensures Extent(w).c0 > 0.0 && r.min.c0 <= r.max.c0 ==> b.lo.c0 <= b.hi.c0
    ensures Extent(w).c1 > 0.0 && r.min.c1 <= r.max.c1 ==> b.lo.c1 <= b.hi.c1
    ensures r.min == w.minCorner && r.max == w.maxCorner ==> b == Box(Vec2(0, 0), size)
  {
    CoordinateToPixelMonotone(w, r.min, r.max, size, 0);
    CoordinateToPixelMonotone(w, r.min, r.max, size, 1);
    Box(CoordinateToPixel(w, r.min, size), CoordinateToPixel(w, r.max, size))
  }

  /** The circle's bounding box (centre minus and plus the radius on both
      axes) mapped to pixels. On an axis of positive extent, a non-negative
      radius gives an ordered box. */
  function CircleBox(w: Window, c: Circle, size: Vec2<nat>): (b: Box)
    requires NonDegenerate(w)
    ensures Extent(w).c0 > 0.0 && 0.0 <= c.radius ==> b.lo.c0 <= b.hi.c0
    ensures Extent(w).c1 > 0.0 && 0.0 <= c.radius ==> b.lo.c1 <= b.hi.c1
  {
    var lo, hi := Vec2(c.middle.c0 - c.radius, c.middle.c1 - c.radius), Vec2(c.middle.c0 + c.radius, c.middle.c1 + c.radius);
    CoordinateToPixelMonotone(w, lo, hi, size, 0);
    CoordinateToPixelMonotone(w, lo, hi, size, 1);
    Box(CoordinateToPixel(w, lo, size), CoordinateToPixel(w, hi, size))
  }

  /** `pix_middle`: the midpoint of the pixel box, as far from each low
      corner as from the high one. */
  function Middle(b: Box): (m: Vec2<real>)
    ensures m.c0 - b.lo.c0 as real == b.hi.c0 as real - m.c0
    ensures m.c1 - b.lo.c1 as real == b.hi.c1 as real - m.c1
  {
    Vec2((b.hi.c0 + b.lo.c0) as real / 2.0, (b.hi.c1 + b.lo.c1) as real / 2.0)
  }

  function Abs(x: real): real {
    if x < 0.0 then -x else x
  }

  /** `t` for column m: the distance of m from the middle, relative to the
      half-width of the box. Within the box's columns it lies in [0, 1], and
      it is 1 at the first column, so the square root's argument `1 - t^2`
      is never negative. */
  function ColumnT(b: Box, m: nat): (t: real)
    requires b.lo.c0 <= m < b.hi.c0
    ensures 0.0 <= t <= 1.0
    ensures m == b.lo.c0 ==> t == 1.0
  {
    var mid := Middle(b).c0;
    var a, d := Abs(m as real - mid), b.hi.c0 as real - mid;
    QuotientBounds(a, d);
    assert a == d ==> a / d == 1.0;
    a / d
  }

  /** `sqrt` is the square root on the non-negative reals. */
  ghost predicate IsSqrt(sqrt: real -> real) {
    forall x :: 0.0 <= x ==> 0.0 <= sqrt(x) && sqrt(x) * sqrt(x) == x
  }

  /** The square root of a value in [0, 1] is in [0, 1]. */
  lemma {:induction false} SqrtOfUnit(sqrt: real -> real, y: real)
    requires IsSqrt(sqrt) && 0.0 <= y <= 1.0
    ensures 0.0 <= sqrt(y) <= 1.0
  {
    var s := sqrt(y);
    assert 0.0 <= s && s * s == y;
  }

  /** `1 - t^2` lies in [0, 1]. */
  lemma {:induction false} UnitSquareBounds(t: real)
    requires 0.0 <= t <= 1.0
    ensures 0.0 <= 1.0 - t * t <= 1.0
  {
    assert t * t <= t * 1.0;
  }

  /** `sqrt(1 - t^2)` times half of the given height. */
  function ScaledChord(t: real, height: int, sqrt: real -> real): real {
    sqrt(1.0 - t * t) * height as real / 2.0
  }

  /** A fraction s in [0, 1] of a non-negative h lies between 0 and h. */
  lemma {:induction false} FractionBounds(s: real, h: real)
    requires 0.0 <= s <= 1.0 && 0.0 <= h
    ensures 0.0 <= s * h <= h
  {
    assert (1.0 - s) * h >= 0.0;
  }

  /** For t in [0, 1] and a true square root, `sqrt(1 - t^2) * height / 2`
      lies between 0 and half the height. */
  lemma {:induction false} ScaledChordBounds(t: real, height: int, sqrt: real -> real)
    requires 0.0 <= t <= 1.0
    ensures IsSqrt(sqrt) && 0 <= height ==> 0.0 <= ScaledChord(t, height, sqrt) <= height as real / 2.0
  {
    if IsSqrt(sqrt) && 0 <= height {
      UnitSquareBounds(t);
      SqrtOfUnit(sqrt, 1.0 - t * t);
      var s, h := sqrt(1.0 - t * t), height as real;
      assert A: 0.0 <= s <= 1.0;
      assert B: 0.0 <= h;
      FractionBounds(s, h);
      assert C: 0.0 <= s * h <= h;
      assert D: ScaledChord(t, height, sqrt) == s * h / 2.0;
    }
  }

  /** `q` for column m: `sqrt(1 - t^2)` times half the height of the box;
      with a true square root it lies between 0 and half the height. */
  function HalfChord(b: Box, m: nat, sqrt: real -> real): (q: real)
    requires b.lo.c0 <= m < b.hi.c0
    ensures IsSqrt(sqrt) && b.lo.c1 <= b.hi.c1 ==> 0.0 <= q <= (b.hi.c1 - b.lo.c1) as real / 2.0
  {
    ScaledChordBounds(ColumnT(b, m), b.hi.c1 - b.lo.c1, sqrt);
    ScaledChord(ColumnT(b, m), b.hi.c1 - b.lo.c1, sqrt)
  }

  /** `(pix_low, pix_high)` for column m: the middle minus and plus `q`, each
      cast to usize. With a true square root the span is centred in the box
      and stays within its extent on axis 1:
      `pix_min1 <= pix_low <= pix_high <= pix_max1`. */
  function ColumnSpan(b: Box, m: nat, sqrt: real -> real): (span: (nat, nat))
    requires b.lo.c0 <= m < b.hi.c0
    ensures IsSqrt(sqrt) && b.lo.c1 <= b.hi.c1 ==> b.lo.c1 <= span.0 <= span.1 <= b.hi.c1
  {
    var q := HalfChord(b, m, sqrt);
    (AsUsize(Middle(b).c1 - q), AsUsize(Middle(b).c1 + q))
  }

  /** The element's corners can be mapped to pixels: the window has a nonzero
      extent wherever a shape needs `coordinate_to_pixel`. */
  predicate Mappable(w: Window, e: Element) {
    (e.Rectangle? || e.Circle?) ==> NonDegenerate(w)
  }

  /** The rectangle's slice `[pix_min0..pix_max0, pix_min1..pix_max1, ..]`
      lies within the canvas: ndarray demands that both ends of each range
      are at most the axis length (an end before the start is empty). */
  predicate RectangleFits(w: Window, r: Rectangle, size: Vec2<nat>)
    requires NonDegenerate(w)
  {
    var b := RectangleBox(w, r, size);
    b.lo.c0 <= size.c0 && b.hi.c0 <= size.c0 && b.lo.c1 <= size.c1 && b.hi.c1 <= size.c1
  }

  /** The circle's loop does not panic: when it runs at all, the height
      `pix_max1 - pix_min1` does not underflow, every column index m is
      within the canvas's width (axis 0), and every span `[pix_low, pix_high)` ends within it. */
  predicate CircleFits(w: Window, c: Circle, size: Vec2<nat>, sqrt: real -> real)
    requires NonDegenerate(w)
  {
    var b := CircleBox(w, c, size);
    b.lo.c0 < b.hi.c0 ==>
      b.lo.c1 <= b.hi.c1 && b.hi.c0 <= size.c0 &&
      forall m: nat :: b.lo.c0 <= m < b.hi.c0 ==>
        ColumnSpan(b, m, sqrt).0 <= size.c1 && ColumnSpan(b, m, sqrt).1 <= size.c1
  }

  /** Drawing the element into a canvas of the given size does not panic. */
  predicate Drawable(w: Window, e: Element, size: Vec2<nat>, sqrt: real -> real) {
    Mappable(w, e) &&
    match e
    case Rectangle(r) => RectangleFits(w, r, size)
    case Circle(c) => CircleFits(w, c, size, sqrt)
    case Triangle(_) => true
    case FuncEval(_, _) => true
  }

  /** The colour element e writes at pixel (i, j) of a canvas of the given
      size, or None when it leaves the pixel alone. A shape writes only its
      own colour, a rectangle exactly on its pixel box, a circle (with a true
      square root and a box ordered on axis 1) only inside its box, a
      triangle nowhere, and a function wherever it yields a value. */
  function Stroke(w: Window, e: Element, size: Vec2<nat>, sqrt: real -> real, i: nat, j: nat): (s: Option<Rgb>)
    requires Mappable(w, e) && i < size.c0 && j < size.c1
    ensures e.Triangle? ==> s.None?
    ensures e.Rectangle? ==> (s.Some? <==> var b := RectangleBox(w, e.rect, size);
      b.lo.c0 <= i < b.hi.c0 && b.lo.c1 <= j < b.hi.c1)
    ensures e.Rectangle? && s.Some? ==> s.value == e.rect.color
    ensures e.Circle? && s.Some? ==> s.value == e.circle.color
    ensures e.Circle? && s.Some? && IsSqrt(sqrt) && CircleBox(w, e.circle, size).lo.c1 <= CircleBox(w, e.circle, size).hi.c1 ==>
      var b := CircleBox(w, e.circle, size);
      b.lo.c0 <= i < b.hi.c0 && b.lo.c1 <= j < b.hi.c1
    ensures e.FuncEval? ==> (s.Some? <==> e.func(PixelToCoordinate(w, Vec2(i, j), size)).Some?)
  {
    match e
    case Rectangle(r) =>
      var b := RectangleBox(w, r, size);
      if b.lo.c0 <= i < b.hi.c0 && b.lo.c1 <= j < b.hi.c1 then Some(r.color) else None
    case Circle(c) =>
      var b := CircleBox(w, c, size);
      if b.lo.c0 <= i < b.hi.c0 && ColumnSpan(b, i, sqrt).0 <= j < ColumnSpan(b, i, sqrt).1
      then Some(c.color) else None
    case Triangle(_) => None
    case FuncEval(f, cmap) =>
      match f(PixelToCoordinate(w, Vec2(i, j), size))
      case Some(v) => Some(GetColor(cmap, v))
      case None => None
  }

  /** The colour at (i, j) after drawing e over a pixel that was `before`:
      the element's colour where it strokes the pixel, `before` elsewhere. */
  function Paint(w: Window, e: Element, size: Vec2<nat>, sqrt: real -> real, i: nat, j: nat, before: Rgb): (c: Rgb)
    requires Mappable(w, e) && i < size.c0 && j < size.c1
    ensures Stroke(w, e, size, sqrt, i, j).Some? ==> c == Stroke(w, e, size, sqrt, i, j).value
    ensures Stroke(w, e, size, sqrt, i, j).None? ==> c == before
  {
    match Stroke(w, e, size, sqrt, i, j)
    case Some(color) => color
    case None => before
  }

  /** The drawn columns are symmetric about the middle: column m and its
      mirror image `pix_min0 + pix_max0 - m` get the same span. */
  lemma {:induction false} ColumnSpanSymmetric(b: Box, m: nat, sqrt: real -> real)
    requires b.lo.c0 < m < b.hi.c0
    ensures ColumnSpan(b, m, sqrt) == ColumnSpan(b, b.lo.c0 + b.hi.c0 - m, sqrt)
  {
    var m': nat := b.lo.c0 + b.hi.c0 - m;
    assert Abs(m as real - Middle(b).c0) == Abs(m' as real - Middle(b).c0);
    assert ColumnT(b, m) == ColumnT(b, m');
  }

  /** A circle whose pixel bounding box lies within the canvas draws
      without panicking. */
  lemma {:induction false} CircleFitsWhenBoxFits(w: Window, c: Circle, size: Vec2<nat>, sqrt: real -> real)
    requires IsSqrt(sqrt) && NonDegenerate(w)
    requires var b := CircleBox(w, c, size);
      b.lo.c1 <= b.hi.c1 <= size.c1 && b.hi.c0 <= size.c0
    ensures CircleFits(w, c, size, sqrt)
  {
    var b := CircleBox(w, c, size);
    forall m: nat | b.lo.c0 <= m < b.hi.c0
      ensures ColumnSpan(b, m, sqrt).0 <= size.c1 && ColumnSpan(b, m, sqrt).1 <= size.c1
    {
    }
  }

  /** On a window with positive extents, two ordered points inside the
      window map to ordered pixels inside the canvas. */
  lemma {:induction false} OrderedInsideWindow(w: Window, lo: Vec2<real>, hi: Vec2<real>, size: Vec2<nat>)
    requires Extent(w).c0 > 0.0 && Extent(w).c1 > 0.0
    requires w.minCorner.c0 <= lo.c0 <= hi.c0 <= w.maxCorner.c0
    requires w.minCorner.c1 <= lo.c1 <= hi.c1 <= w.maxCorner.c1
    ensures var a, b := CoordinateToPixel(w, lo, size), CoordinateToPixel(w, hi, size);
      a.c0 <= b.c0 <= size.c0 && a.c1 <= b.c1 <= size.c1
  {
    CoordinateToPixelMonotone(w, lo, hi, size, 0);
    CoordinateToPixelMonotone(w, lo, hi, size, 1);
    CoordinateToPixelMonotone(w, hi, w.maxCorner, size, 0);
    CoordinateToPixelMonotone(w, hi, w.maxCorner, size, 1);
  }

  /** A rectangle inside a window of positive extents is drawable. */
  lemma {:induction false} RectangleInsideWindowDrawable(w: Window, r: Rectangle, size: Vec2<nat>, sqrt: real -> real)
    requires Extent(w).c0 > 0.0 && Extent(w).c1 > 0.0
    requires w.minCorner.c0 <= r.min.c0 <= r.max.c0 <= w.maxCorner.c0
    requires w.minCorner.c1 <= r.min.c1 <= r.max.c1 <= w.maxCorner.c1
    ensures Drawable(w, Element.Rectangle(r), size, sqrt)
  {
    OrderedInsideWindow(w, r.min, r.max, size);
  }

  /** A circle of non-negative radius whose bounding square lies inside a
      window of positive extents is drawable. */
  lemma {:induction false} CircleInsideWindowDrawable(w: Window, c: Circle, size: Vec2<nat>, sqrt: real -> real)
    requires IsSqrt(sqrt) && Extent(w).c0 > 0.0 && Extent(w).c1 > 0.0 && 0.0 <= c.radius
    requires w.minCorner.c0 <= c.middle.c0 - c.radius && c.middle.c0 + c.radius <= w.maxCorner.c0
    requires w.minCorner.c1 <= c.middle.c1 - c.radius && c.middle.c1 + c.radius <= w.maxCorner.c1
    ensures Drawable(w, Element.Circle(c), size, sqrt)
  {
    OrderedInsideWindow(w, Vec2(c.middle.c0 - c.radius, c.middle.c1 - c.radius),
                        Vec2(c.middle.c0 + c.radius, c.middle.c1 + c.radius), size);
    CircleFitsWhenBoxFits(w, c, size, sqrt);
  }

  /** A rectangle spanning the whole window is drawable and covers every
      pixel of the canvas. */
  lemma {:induction false} FullWindowRectangle(w: Window, color: Rgb, size: Vec2<nat>, sqrt: real -> real, i: nat, j: nat)
    requires NonDegenerate(w) && i < size.c0 && j < size.c1
    ensures Drawable(w, Element.Rectangle(Rectangle.Rectangle(w.minCorner, w.maxCorner, color)), size, sqrt)
    ensures Stroke(w, Element.Rectangle(Rectangle.Rectangle(w.minCorner, w.maxCorner, color)), size, sqrt, i, j) == Some(color)
  {
  }

  /** A function drawn with the grey map writes `v * 255`, cast to `u8`, in
      all three channels wherever it yields v. */
  lemma {:induction false} FuncEvalGreysStroke(w: Window, f: Vec2<real> -> Option<real>, size: Vec2<nat>, sqrt: real -> real, i: nat, j: nat, v: real)
    requires i < size.c0 && j < size.c1
    requires f(PixelToCoordinate(w, Vec2(i, j), size)) == Some(v)
    ensures Stroke(w, Element.FuncEval(f, Greys), size, sqrt, i, j) == Some(Grey(AsU8(v * 255.0)))
  {
  }

  /** `canvas.slice_mut(s![i, lo..hi, ..]).assign(&color)`: the segment
      [lo, hi) of column i gets the colour in all three channels; nothing else
      changes. ndarray panics unless i < H, lo <= W and hi <= W. */
  method AssignSegment(canvas: array3<byte>, i: nat, lo: nat, hi: nat, color: Rgb)
    requires canvas.Length2 == 3
    requires i < canvas.Length0 && lo <= canvas.Length1 && hi <= canvas.Length1
    modifies canvas
    ensures forall i', j, c | 0 <= i' < canvas.Length0 && 0 <= j < canvas.Length1 && 0 <= c < 3 ::
      canvas[i', j, c] == if i' == i && lo <= j < hi then color.Channel(c) else old(canvas[i', j, c])
  {
    var j := lo;
    while j < hi
      invariant lo <= j && (j <= hi || j == lo)
      invariant forall i', j', c | 0 <= i' < canvas.Length0 && 0 <= j' < canvas.Length1 && 0 <= c < 3 ::
        canvas[i', j', c] == if i' == i && lo <= j' < j then color.Channel(c) else old(canvas[i', j', c])
    {
      canvas[i, j, 0] := color.r;
      canvas[i, j, 1] := color.g;
      canvas[i, j, 2] := color.b;
      j := j + 1;
    }
  }

  /** The rectangle fill: the block [pix_min0, pix_max0) x [pix_min1, pix_max1)
      gets the colour, every other entry is unchanged. */
  method FillRectangle(w: Window, r: Rectangle, canvas: array3<byte>)
    requires canvas.Length2 == 3
    requires NonDegenerate(w) && RectangleFits(w, r, SizeOf(canvas))
    modifies canvas
    ensures var b := RectangleBox(w, r, SizeOf(canvas));
      forall i, j, c | 0 <= i < canvas.Length0 && 0 <= j < canvas.Length1 && 0 <= c < 3 ::
        canvas[i, j, c] == if b.lo.c0 <= i < b.hi.c0 && b.lo.c1 <= j < b.hi.c1
                           then r.color.Channel(c) else old(canvas[i, j, c])
  {
    var b := RectangleBox(w, r, SizeOf(canvas));
    var i := b.lo.c0;
    while i < b.hi.c0
      invariant b.lo.c0 <= i && (i <= b.hi.c0 || i == b.lo.c0)
      invariant forall i', j, c | 0 <= i' < canvas.Length0 && 0 <= j < canvas.Length1 && 0 <= c < 3 ::
        canvas[i', j, c] == if b.lo.c0 <= i' < i && b.lo.c1 <= j < b.hi.c1
                            then r.color.Channel(c) else old(canvas[i', j, c])
    {
      AssignSegment(canvas, i, b.lo.c1, b.hi.c1, r.color);
      i := i + 1;
    }
  }

  /** The circle fill: each column m of the box gets the colour on
      [pix_low, pix_high), every other entry is unchanged. */
  method FillCircle(w: Window, c: Circle, canvas: array3<byte>, sqrt: real -> real)
    requires canvas.Length2 == 3
    requires NonDegenerate(w) && CircleFits(w, c, SizeOf(canvas), sqrt)
    modifies canvas
    ensures var b := CircleBox(w, c, SizeOf(canvas));
      forall i, j, k | 0 <= i < canvas.Length0 && 0 <= j < canvas.Length1 && 0 <= k < 3 ::
        canvas[i, j, k] == if b.lo.c0 <= i < b.hi.c0 && ColumnSpan(b, i, sqrt).0 <= j < ColumnSpan(b, i, sqrt).1
                           then c.color.Channel(k) else old(canvas[i, j, k])
  {
    var b := CircleBox(w, c, SizeOf(canvas));
    var m := b.lo.c0;
    while m < b.hi.c0
      invariant b.lo.c0 <= m && (m <= b.hi.c0 || m == b.lo.c0)
      invariant forall i, j, k | 0 <= i < canvas.Length0 && 0 <= j < canvas.Length1 && 0 <= k < 3 ::
        canvas[i, j, k] == if b.lo.c0 <= i < m && ColumnSpan(b, i, sqrt).0 <= j < ColumnSpan(b, i, sqrt).1
                           then c.color.Channel(k) else old(canvas[i, j, k])
    {
      var span := ColumnSpan(b, m, sqrt);
      AssignSegment(canvas, m, span.0, span.1, c.color);
      m := m + 1;
    }
  }

  /** The func-eval fill: every pixel whose coordinate the function maps to
      `Some(v)` gets `cmap.get_color(v)`; a pixel mapped to `None` is left
      alone. */
  method FillFunc(w: Window, f: Vec2<real> -> Option<real>, cmap: ColorMap, canvas: array3<byte>)
    requires canvas.Length2 == 3
    modifies canvas
    ensures forall i, j, c | 0 <= i < canvas.Length0 && 0 <= j < canvas.Length1 && 0 <= c < 3 ::
      canvas[i, j, c] == match f(PixelToCoordinate(w, Vec2(i, j), SizeOf(canvas)))
                         case Some(v) => GetColor(cmap, v).Channel(c)
                         case None => old(canvas[i, j, c])
  {
    var size := SizeOf(canvas);
    var i := 0;
    while i < size.c0
      invariant i <= size.c0
      invariant forall i', j', c | 0 <= i' < canvas.Length0 && 0 <= j' < canvas.Length1 && 0 <= c < 3 ::
        canvas[i', j', c] == if i' < i && f(PixelToCoordinate(w, Vec2(i', j'), size)).Some?
                             then GetColor(cmap, f(PixelToCoordinate(w, Vec2(i', j'), size)).value).Channel(c)
                             else old(canvas[i', j', c])
    {
      var j := 0;
      while j < size.c1
        invariant j <= size.c1
        invariant forall i', j', c | 0 <= i' < canvas.Length0 && 0 <= j' < canvas.Length1 && 0 <= c < 3 ::
          canvas[i', j', c] == if (i' < i || (i' == i && j' < j)) && f(PixelToCoordinate(w, Vec2(i', j'), size)).Some?
                               then GetColor(cmap, f(PixelToCoordinate(w, Vec2(i', j'), size)).value).Channel(c)
                               else old(canvas[i', j', c])
      {
        var pos := PixelToCoordinate(w, Vec2(i, j), size);
        var value := f(pos);
        if value.Some? {
          var color := GetColor(cmap, value.value);
          canvas[i, j, 0] := color.r;
          canvas[i, j, 1] := color.g;
          canvas[i, j, 2] := color.b;
        }
        j := j + 1;
      }
      i := i + 1;
    }
  }

  /** `Element::draw_to_axis`: paints e into the canvas, pixel by pixel as
      `Paint` says. A triangle is not implemented: the draw reports
      `Unsupported` and leaves the canvas as it was. */
  method DrawToAxis(e: Element, w: Window, canvas: array3<byte>, sqrt: real -> real) returns (out: Outcome)
    requires canvas.Length2 == 3
    requires Drawable(w, e, SizeOf(canvas), sqrt)
    modifies canvas
    ensures out.Fail? <==> e.Triangle?
    ensures forall i, j, c | 0 <= i < canvas.Length0 && 0 <= j < canvas.Length1 && 0 <= c < 3 ::
      canvas[i, j, c] == Paint(w, e, SizeOf(canvas), sqrt, i, j, old(PixelAt(canvas, i, j))).Channel(c)
  {
    match e
    case Triangle(_) =>
      return Fail(Unsupported);
    case Rectangle(r) =>
      FillRectangle(w, r, canvas);
      return Pass;
    case Circle(c) =>
      FillCircle(w, c, canvas, sqrt);
      return Pass;
    case FuncEval(f, cmap) =>
      FillFunc(w, f, cmap, canvas);
      return Pass;
  }
}
