/** A figure: a logical window, the list of elements drawn in order, and the
    origin that decides how the finished canvas is mirrored. Rendering
    (the drawing part of `save_image`) zeroes a canvas, draws every element
    into it in order, and inverts the axes the origin asks for. */
module Figures {
  import opened Coordinates
  import opened Elements
  import opened Bitmap

  datatype Result<T> = Ok(value: T) | Err(error: DrawError)

  /** Where the logical origin sits on the finished image. */
  class Origin {
    var isLeft: bool
    var isBottom: bool

    /** `Origin::default()`: left and bottom. */
    constructor Default()
      ensures isLeft && isBottom
    {
      isLeft := true;
      isBottom := true;
    }

    /** `switchx`: the origin moves to the other side on axis 0. */
    method SwitchX()
      modifies this
      ensures isLeft == !old(isLeft) && isBottom == old(isBottom)
    {
      isLeft := !isLeft;
    }

    /** `switchy`: the origin moves to the other side on axis 1. */
    method SwitchY()
      modifies this
      ensures isBottom == !old(isBottom) && isLeft == old(isLeft)
    {
      isBottom := !isBottom;
    }
  }

  /** Switching an origin twice on each axis brings it back to where it was. */
  method SwitchTwiceRestores(o: Origin)
    modifies o
    ensures o.isLeft == old(o.isLeft) && o.isBottom == old(o.isBottom)
  {
    o.SwitchX();
    o.SwitchY();
    o.SwitchX();
    o.SwitchY();
  }

  /** Some element is a triangle. */
  predicate HasTriangle(els: seq<Element>) {
    exists k :: 0 <= k < |els| && els[k].Triangle?
  }

  /** Every element can be mapped to pixels. */
  predicate AllMappable(w: Window, els: seq<Element>) {
    forall k :: 0 <= k < |els| ==> Mappable(w, els[k])
  }

  /** Every element the render reaches (all of them up to the first
      triangle, which stops it) draws without panicking. */
  predicate RenderSafe(w: Window, els: seq<Element>, size: Vec2<nat>, sqrt: real -> real) {
    forall k :: 0 <= k < |els| && (forall l :: 0 <= l < k ==> !els[l].Triangle?) ==>
      Drawable(w, els[k], size, sqrt)
  }

  /** Without a triangle, every element of a render-safe list is drawable. */
  lemma {:induction false} SafeWithoutTriangle(w: Window, els: seq<Element>, size: Vec2<nat>, sqrt: real -> real)
    requires RenderSafe(w, els, size, sqrt) && !HasTriangle(els)
    ensures forall k :: 0 <= k < |els| ==> Drawable(w, els[k], size, sqrt)
    ensures AllMappable(w, els)
  {
    forall k | 0 <= k < |els|
      ensures Drawable(w, els[k], size, sqrt)
    {
      assert forall l :: 0 <= l < k ==> !els[l].Triangle?;
    }
  }

  /** The colour of pixel (i, j) after drawing `els` in order onto a zeroed
      canvas of the given size (before any axis is inverted). No colour comes
      from nowhere: the pixel is still black, or some element strokes it
      with exactly that colour. */
  function Rendered(w: Window, els: seq<Element>, size: Vec2<nat>, sqrt: real -> real, i: nat, j: nat): (c: Rgb)
    requires AllMappable(w, els) && i < size.c0 && j < size.c1
    ensures c == Black || exists k :: 0 <= k < |els| && Stroke(w, els[k], size, sqrt, i, j) == Some(c)
    decreases |els|
  {
    if |els| == 0 then Black
    else
      var init := els[..|els| - 1];
      assert forall k :: 0 <= k < |init| ==> init[k] == els[k];
      Paint(w, els[|els| - 1], size, sqrt, i, j, Rendered(w, init, size, sqrt, i, j))
  }

  /** Drawing one more element paints it over what the others left. */
  lemma {:induction false} RenderedAppend(w: Window, els: seq<Element>, e: Element, size: Vec2<nat>, sqrt: real -> real, i: nat, j: nat)
    requires AllMappable(w, els) && Mappable(w, e) && i < size.c0 && j < size.c1
    ensures AllMappable(w, els + [e])
    ensures Rendered(w, els + [e], size, sqrt, i, j) == Paint(w, e, size, sqrt, i, j, Rendered(w, els, size, sqrt, i, j))
  {
    assert (els + [e])[..|els|] == els;
  }

  /** Drawing one element further into `els` paints it over every pixel of
      the picture drawn so far. */
  lemma {:induction false} RenderedPrefixStep(w: Window, els: seq<Element>, k: nat, size: Vec2<nat>, sqrt: real -> real)
    requires k < |els| && AllMappable(w, els[..k]) && Mappable(w, els[k])
    ensures AllMappable(w, els[..k + 1])
    ensures forall i, j | 0 <= i < size.c0 && 0 <= j < size.c1 ::
      Rendered(w, els[..k + 1], size, sqrt, i, j) == Paint(w, els[k], size, sqrt, i, j, Rendered(w, els[..k], size, sqrt, i, j))
  {
    assert els[..k + 1] == els[..k] + [els[k]];
    forall i, j | 0 <= i < size.c0 && 0 <= j < size.c1
      ensures Rendered(w, els[..k + 1], size, sqrt, i, j)
           == Paint(w, els[k], size, sqrt, i, j, Rendered(w, els[..k], size, sqrt, i, j))
    {
      RenderedAppend(w, els[..k], els[k], size, sqrt, i, j);
    }
  }

  /** A pixel that no element strokes keeps the black of the zeroed canvas. */
  lemma {:induction false} UnstrokedStaysBlack(w: Window, els: seq<Element>, size: Vec2<nat>, sqrt: real -> real, i: nat, j: nat)
    requires AllMappable(w, els) && i < size.c0 && j < size.c1
    requires forall k :: 0 <= k < |els| ==> Stroke(w, els[k], size, sqrt, i, j).None?
    ensures Rendered(w, els, size, sqrt, i, j) == Black
    decreases |els|
  {
    if |els| > 0 {
      var init := els[..|els| - 1];
      assert forall k :: 0 <= k < |init| ==> init[k] == els[k];
      UnstrokedStaysBlack(w, init, size, sqrt, i, j);
    }
  }

  /** Last write wins: a pixel has the colour of the last element that
      strokes it, whatever the elements before it did. */
  lemma {:induction false} LastWriteWins(w: Window, els: seq<Element>, size: Vec2<nat>, sqrt: real -> real, i: nat, j: nat, k: nat)
    requires AllMappable(w, els) && i < size.c0 && j < size.c1
    requires k < |els| && Stroke(w, els[k], size, sqrt, i, j).Some?
    requires forall l :: k < l < |els| ==> Stroke(w, els[l], size, sqrt, i, j).None?
    ensures Rendered(w, els, size, sqrt, i, j) == Stroke(w, els[k], size, sqrt, i, j).value
    decreases |els|
  {
    if k < |els| - 1 {
      var init := els[..|els| - 1];
      assert forall l :: 0 <= l < |init| ==> init[l] == els[l];
      LastWriteWins(w, init, size, sqrt, i, j, k);
    }
  }

  /** A rectangle spanning the whole window, drawn last, hides everything
      drawn before it. */
  lemma {:induction false} FullRectangleCovers(w: Window, els: seq<Element>, color: Rgb, size: Vec2<nat>, sqrt: real -> real, i: nat, j: nat)
    requires NonDegenerate(w) && AllMappable(w, els) && i < size.c0 && j < size.c1
    ensures var top := Element.Rectangle(Rectangle.Rectangle(w.minCorner, w.maxCorner, color));
      AllMappable(w, els + [top]) && Rendered(w, els + [top], size, sqrt, i, j) == color
  {
    var top := Element.Rectangle(Rectangle.Rectangle(w.minCorner, w.maxCorner, color));
    FullWindowRectangle(w, color, size, sqrt, i, j);
    RenderedAppend(w, els, top, size, sqrt, i, j);
  }

  /** The index on the drawn canvas that pixel (i, j) of the finished canvas
      shows: axis 0 is mirrored when the origin is on the right, axis 1 when
      it is at the bottom. */
  function Oriented(isLeft: bool, isBottom: bool, size: Vec2<nat>, i: nat, j: nat): (p: Vec2<nat>)
    requires i < size.c0 && j < size.c1
    ensures p.c0 < size.c0 && p.c1 < size.c1
  {
    Vec2(if isLeft then i else size.c0 - 1 - i, if isBottom then size.c1 - 1 - j else j)
  }

  /** Orienting twice is the identity. */
  lemma OrientedInvolution(isLeft: bool, isBottom: bool, size: Vec2<nat>, i: nat, j: nat)
    requires i < size.c0 && j < size.c1
    ensures var p := Oriented(isLeft, isBottom, size, i, j);
      Oriented(isLeft, isBottom, size, p.c0, p.c1) == Vec2(i, j)
  {
  }

  /** With the default origin (left, bottom) only axis 1 is mirrored, so
      the first pixel row of the image is the top of the logical window. */
  lemma DefaultOrientation(size: Vec2<nat>, i: nat, j: nat)
    requires i < size.c0 && j < size.c1
    ensures Oriented(true, true, size, i, j) == Vec2(i, size.c1 - 1 - j)
  {
  }

  /** `invert_axis(Axis(k))`: the canvas read with axis k reversed. */
  method InvertAxis(canvas: array3<byte>, k: Axis) returns (r: array3<byte>)
    requires canvas.Length2 == 3
    ensures fresh(r)
    ensures r.Length0 == canvas.Length0 && r.Length1 == canvas.Length1 && r.Length2 == 3
    ensures forall i, j, c | 0 <= i < r.Length0 && 0 <= j < r.Length1 && 0 <= c < 3 ::
      r[i, j, c] == if k == 0 then canvas[r.Length0 - 1 - i, j, c] else canvas[i, r.Length1 - 1 - j, c]
  {
    var h, w := canvas.Length0, canvas.Length1;
    r := new byte[h, w, 3]((i, j, c) reads canvas
      requires 0 <= i < h && 0 <= j < w && 0 <= c < 3 && h == canvas.Length0 && w == canvas.Length1 && canvas.Length2 == 3 =>
      if k == 0 then canvas[h - 1 - i, j, c] else canvas[i, w - 1 - j, c]);
  }

  /** One turn of the render loop: draws `els[k]` into a canvas that holds
      the picture of the first k elements, which then holds the picture of
      the first k + 1, unless the element is a triangle. */
  method DrawNext(w: Window, els: seq<Element>, k: nat, canvas: array3<byte>, size: Vec2<nat>, sqrt: real -> real) returns (out: Outcome)
    requires k < |els| && canvas.Length0 == size.c0 && canvas.Length1 == size.c1 && canvas.Length2 == 3
    requires AllMappable(w, els[..k]) && Drawable(w, els[k], size, sqrt)
    requires forall i, j, c | 0 <= i < size.c0 && 0 <= j < size.c1 && 0 <= c < 3 ::
      canvas[i, j, c] == Rendered(w, els[..k], size, sqrt, i, j).Channel(c)
    modifies canvas
    ensures out.Fail? <==> els[k].Triangle?
    ensures out.Pass? ==> (AllMappable(w, els[..k + 1]) &&
      forall i, j, c | 0 <= i < size.c0 && 0 <= j < size.c1 && 0 <= c < 3 ::
        canvas[i, j, c] == Rendered(w, els[..k + 1], size, sqrt, i, j).Channel(c))
  {
    assert forall i, j | 0 <= i < size.c0 && 0 <= j < size.c1 ::
      PixelAt(canvas, i, j) == Rendered(w, els[..k], size, sqrt, i, j);
    out := DrawToAxis(els[k], w, canvas, sqrt);
    RenderedPrefixStep(w, els, k, size, sqrt);
  }

  /** A zeroed H x W x 3 canvas with every element drawn into it in order;
      the first triangle stops the drawing with its error. */
  method DrawElements(w: Window, els: seq<Element>, size: Vec2<nat>, sqrt: real -> real) returns (res: Result<array3<byte>>)
    requires RenderSafe(w, els, size, sqrt)
    ensures res.Err? <==> HasTriangle(els)
    ensures res.Ok? ==> fresh(res.value) && res.value.Length0 == size.c0 && res.value.Length1 == size.c1 && res.value.Length2 == 3
    ensures res.Ok? ==> (AllMappable(w, els) &&
      forall i, j, c | 0 <= i < size.c0 && 0 <= j < size.c1 && 0 <= c < 3 ::
        res.value[i, j, c] == Rendered(w, els, size, sqrt, i, j).Channel(c))
  {
    var canvas := new byte[size.c0, size.c1, 3]((i, j, c) => 0);
    var k := 0;
    while k < |els|
      invariant k <= |els|
      invariant forall l :: 0 <= l < k ==> !els[l].Triangle?
      invariant fresh(canvas) && canvas.Length0 == size.c0 && canvas.Length1 == size.c1 && canvas.Length2 == 3
      invariant AllMappable(w, els[..k])
      invariant forall i, j, c | 0 <= i < size.c0 && 0 <= j < size.c1 && 0 <= c < 3 ::
        canvas[i, j, c] == Rendered(w, els[..k], size, sqrt, i, j).Channel(c)
    {
      var out := DrawNext(w, els, k, canvas, size, sqrt);
      if out.Fail? {
        return Err(out.error);
      }
      k := k + 1;
    }
    assert els[..k] == els;
    return Ok(canvas);
  }

  /** The canvas with axis 0 inverted unless the origin is on the left,
      then axis 1 inverted if the origin is at the bottom. */
  method Orient(canvas: array3<byte>, isLeft: bool, isBottom: bool) returns (r: array3<byte>)
    requires canvas.Length2 == 3
    ensures fresh(r) || r == canvas
    ensures r.Length0 == canvas.Length0 && r.Length1 == canvas.Length1 && r.Length2 == 3
    ensures forall i, j, c | 0 <= i < r.Length0 && 0 <= j < r.Length1 && 0 <= c < 3 ::
      var p := Oriented(isLeft, isBottom, SizeOf(canvas), i, j);
      r[i, j, c] == canvas[p.c0, p.c1, c]
  {
    var mid := canvas;
    if !isLeft {
      mid := InvertAxis(canvas, 0);
    }
    r := mid;
    if isBottom {
      r := InvertAxis(mid, 1);
    }
  }

  class Figure {
    /** `corners_units`. */
    var corners: Window
    /** The elements in the order they were added, which is the drawing order. */
    var elements: seq<Element>
    const origin: Origin

    /** `Figure::new`: the unit window, no elements, the default origin. */
    constructor()
      ensures corners == DefaultWindow && Extent(corners) == Vec2(1.0, 1.0)
      ensures elements == []
      ensures fresh(origin) && origin.isLeft && origin.isBottom
    {
      corners := DefaultWindow;
      elements := [];
      origin := new Origin.Default();
    }

    /** `add_element`: the element goes on top of the others. */
    method AddElement(e: Element)
      modifies this
      ensures elements == old(elements) + [e] && corners == old(corners)
    {
      elements := elements + [e];
    }

    /** `color_by_func`: adds a `FuncEval` element. */
    method ColorByFunc(f: Vec2<real> -> Option<real>, cmap: ColorMap)
      modifies this
      ensures elements == old(elements) + [Element.FuncEval(f, cmap)] && corners == old(corners)
    {
      AddElement(Element.FuncEval(f, cmap));
    }

    /** `set_xlim`: the limits of axis 0 become `lims`. */
    method SetXLim(lims: Vec2<real>)
      modifies this
      ensures corners == SetColumn(old(corners), 0, lims) && elements == old(elements)
      ensures Extent(corners).c0 == lims.c1 - lims.c0 && Extent(corners).c1 == Extent(old(corners)).c1
    {
      ExtentAfterSetColumn(corners, 0, lims);
      corners := SetColumn(corners, 0, lims);
    }

    /** `set_ylim`: the limits of axis 1 become `lims`. */
    method SetYLim(lims: Vec2<real>)
      modifies this
      ensures corners == SetColumn(old(corners), 1, lims) && elements == old(elements)
      ensures Extent(corners).c1 == lims.c1 - lims.c0 && Extent(corners).c0 == Extent(old(corners)).c0
    {
      ExtentAfterSetColumn(corners, 1, lims);
      corners := SetColumn(corners, 1, lims);
    }

    /** The drawing part of `save_image`: the elements drawn in order onto
        a zeroed canvas, then oriented as the origin says. A triangle stops
        the render with its error. */
    method Render(size: Vec2<nat>, sqrt: real -> real) returns (res: Result<array3<byte>>)
      requires RenderSafe(corners, elements, size, sqrt)
      ensures res.Err? <==> HasTriangle(elements)
      ensures res.Ok? ==> fresh(res.value) && res.value.Length0 == size.c0 && res.value.Length1 == size.c1 && res.value.Length2 == 3
      ensures res.Ok? ==> (AllMappable(corners, elements) &&
        forall i, j, c | 0 <= i < size.c0 && 0 <= j < size.c1 && 0 <= c < 3 ::
          var p := Oriented(origin.isLeft, origin.isBottom, size, i, j);
          res.value[i, j, c] == Rendered(corners, elements, size, sqrt, p.c0, p.c1).Channel(c))
    {
      var drawn := DrawElements(corners, elements, size, sqrt);
      if drawn.Err? {
        return Err(drawn.error);
      }
      var oriented := Orient(drawn.value, origin.isLeft, origin.isBottom);
      return Ok(oriented);
    }
  }
}
