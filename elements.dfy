/** The drawable elements of a figure, colours, and the colour maps that turn
    a scalar into a colour. */
module Elements {
  import opened Coordinates

  /** A `u8`. */
  type byte = x: int | 0 <= x < 256

  /** A colour, `[u8; 3]`: channels 0, 1 and 2. */
  datatype Rgb = Rgb(r: byte, g: byte, b: byte) {
    function Channel(c: nat): byte
      requires c < 3
    {
      if c == 0 then r else if c == 1 then g else b
    }
  }

  /** The colour of a zeroed canvas. */
  const Black: Rgb := Rgb(0, 0, 0)

  /** The three channels equal to one grey level. */
  function Grey(level: byte): Rgb {
    Rgb(level, level, level)
  }

  datatype Option<T> = None | Some(value: T)

  /** A float-to-`u8` `as` cast: truncation toward zero, saturating at 0 and
      at 255. */
  function AsU8(x: real): (v: byte)
    ensures x < 0.0 ==> v == 0
    ensures 255.0 <= x ==> v == 255
    ensures 0.0 <= x < 255.0 ==> v as real <= x < v as real + 1.0
  {
    if x < 0.0 then 0 else if 255.0 <= x then 255 else x.Floor
  }

  /** `x.clamp(lo, hi)`. */
  function Clamp(x: real, lo: real, hi: real): (r: real)
    requires lo <= hi
    ensures lo <= r <= hi
    ensures lo <= x <= hi ==> r == x
    ensures x < lo ==> r == lo
    ensures hi < x ==> r == hi
  {
    if x < lo then lo else if hi < x then hi else x
  }

  /** Where a quotient by a positive divisor lies relative to 0 and 1. */
  lemma QuotientBounds(a: real, d: real)
    requires 0.0 < d
    ensures a <= 0.0 ==> a / d <= 0.0
    ensures d <= a ==> 1.0 <= a / d
    ensures 0.0 <= a < d ==> 0.0 <= a / d < 1.0
  {
    var t := a / d;
    assert t * d == a;
    if t > 0.0 {
      assert t * d > 0.0;
    }
    if t < 1.0 {
      assert t * d < 1.0 * d;
    }
    if t >= 1.0 {
      assert t * d >= 1.0 * d;
    }
  }

  /** The grey ramp with the clamp on the normalised value, as the colour
      map is evidently meant to work: `(h - min) / (max - min)` clamped to
      [0, 1], times 255, cast to `u8`. */
  function GreysNormalizedIntended(h: real, min: real, max: real): (c: Rgb)
    requires min < max
    ensures c.r == c.g == c.b
    ensures h <= min ==> c.r == 0
    ensures max <= h ==> c.r == 255
    ensures min <= h < max ==> c.r as real <= (h - min) / (max - min) * 255.0 < c.r as real + 1.0
  {
    var t := (h - min) / (max - min);
    QuotientBounds(h - min, max - min);
    Grey(AsU8(Clamp(t, 0.0, 1.0) * 255.0))
  }

  /** The saturating cast already does what a clamp to [0, 1] before the
      scaling would do. */
  lemma {:induction false} CastAbsorbsClamp(t: real)
    ensures AsU8(t * 255.0) == AsU8(Clamp(t, 0.0, 1.0) * 255.0)
  {
    if t < 0.0 {
      assert t * 255.0 < 0.0;
    } else if 1.0 < t {
      assert t * 255.0 > 255.0;
    }
  }

  /** `CmapGreys::get_color_normalized` as written: the grey level
      `(h - min) / (max - min).clamp(0, 1)`, times 255, cast to `u8`, in all
      three channels. The clamp applies to the divisor, so a range wider
      than 1 is shaded as if it were [min, min + 1]. When `max <= min` the
      divisor is clamped to 0 and the floating-point quotient is +infinity
      (cast to 255) when `h > min`, and -infinity or NaN (both cast to 0)
      otherwise. */
  function GreysNormalized(h: real, min: real, max: real): (c: Rgb)
    ensures c.r == c.g == c.b
    ensures max <= min ==> c == Grey(if min < h then 255 else 0)
    ensures min < max <= min + 1.0 ==> c == GreysNormalizedIntended(h, min, max)
    ensures min + 1.0 <= max ==> c == GreysNormalizedIntended(h, min, min + 1.0)
  {
    var d := Clamp(max - min, 0.0, 1.0);
    if d == 0.0 then Grey(if h - min > 0.0 then 255 else 0)
    else
      CastAbsorbsClamp((h - min) / d);
      Grey(AsU8((h - min) / d * 255.0))
  }

  /** The as-written colour map differs from the intended one as soon as the
      range is wider than 1: halfway through [0, 2] it is already white. */
  lemma GreysClampOnDivisor()
    ensures GreysNormalized(1.0, 0.0, 2.0) == Grey(255)
    ensures GreysNormalizedIntended(1.0, 0.0, 2.0) == Grey(127)
  {
  }

  /** A colour map (the `ColorMap` trait): the greyscale map `CmapGreys`, or
      any other implementation, given by its `get_color_normalized` and, when
      it overrides the provided method, by its own `get_color`. */
  datatype ColorMap =
    | Greys
    | Custom(normalized: (real, real, real) -> Rgb, color: Option<real -> Rgb>)

  /** `ColorMap::get_color_normalized`: the grey map gives three equal
      channels, and on a range no wider than 1 the intended ramp. */
  function GetColorNormalized(cmap: ColorMap, h: real, min: real, max: real): (c: Rgb)
    ensures cmap.Greys? ==> c.r == c.g == c.b
    ensures cmap.Greys? && min < max <= min + 1.0 ==> c == GreysNormalizedIntended(h, min, max)
    ensures cmap.Custom? ==> c == cmap.normalized(h, min, max)
  {
    match cmap
    case Greys => GreysNormalized(h, min, max)
    case Custom(f, _) => f(h, min, max)
  }

  /** `ColorMap::get_color`: the provided method normalises over [0, 1]. For
      the grey map the level is then `h * 255` cast to `u8`: black up to 0,
      white from 1 on, and the same colour as the intended ramp. */
  function GetColor(cmap: ColorMap, h: real): (c: Rgb)
    ensures cmap.Greys? ==> c == Grey(AsU8(h * 255.0)) && c == GreysNormalizedIntended(h, 0.0, 1.0)
    ensures cmap.Greys? && h <= 0.0 ==> c == Black
    ensures cmap.Greys? && 1.0 <= h ==> c == Grey(255)
    ensures cmap.Custom? && cmap.color.None? ==> c == cmap.normalized(h, 0.0, 1.0)
    ensures cmap.Custom? && cmap.color.Some? ==> c == cmap.color.value(h)
  {
    match cmap
    case Greys =>
      assert (h - 0.0) / (1.0 - 0.0) == h;
      CastAbsorbsClamp(h);
      GetColorNormalized(cmap, h, 0.0, 1.0)
    case Custom(_, None) => GetColorNormalized(cmap, h, 0.0, 1.0)
    case Custom(_, Some(g)) => g(h)
  }

  /** The grey map is monotone in the scalar on the unit range. */
  lemma {:induction false} GreysGetColorMonotone(h1: real, h2: real)
    requires h1 <= h2
    ensures GetColor(Greys, h1).r <= GetColor(Greys, h2).r
  {
    assert h1 * 255.0 <= h2 * 255.0;
  }

  /** An axis-aligned rectangle between two corners, filled with one colour. */
  datatype Rectangle = Rectangle(min: Vec2<real>, max: Vec2<real>, color: Rgb)

  /** A circle of the given radius around `middle`, filled with one colour. */
  datatype Circle = Circle(middle: Vec2<real>, radius: real, color: Rgb)

  /** A triangle given by its three corner points (a 3x2 matrix). */
  datatype Triangle = Triangle(p0: Vec2<real>, p1: Vec2<real>, p2: Vec2<real>, color: Rgb)

  /** The closed set of things a figure can draw. `FuncEval` colours every
      pixel where the function of the pixel's coordinate yields a value. */
  datatype Element =
    | Rectangle(rect: Rectangle)
    | Triangle(tri: Triangle)
    | Circle(circle: Circle)
    | FuncEval(func: Vec2<real> -> Option<real>, cmap: ColorMap)

  /** `From<Rectangle> for Element`. */
  function FromRectangle(r: Rectangle): (e: Element)
    ensures e.Rectangle? && e.rect == r
  {
    Element.Rectangle(r)
  }

  /** `From<Circle> for Element`. */
  function FromCircle(c: Circle): (e: Element)
    ensures e.Circle? && e.circle == c
  {
    Element.Circle(c)
  }

  /** `From<Triangle> for Element`. */
  function FromTriangle(t: Triangle): (e: Element)
    ensures e.Triangle? && e.tri == t
  {
    Element.Triangle(t)
  }
}
