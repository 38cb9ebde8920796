/** `TurtleInfo` in src/FractalDemo.java: the measuring sink of the auto-fit
    search. It keeps the bounding box of the end points it is given, starting
    from the origin, and from it the size of a drawing and the offset that
    centres the drawing on a canvas. */
module Bounds {
  import opened JavaLang
  import opened Turtles

  /** `minX`, `minY`, `maxX`, `maxY`. */
  datatype Box = Box(minX: int, minY: int, maxX: int, maxY: int)

  /** The box of a fresh `TurtleInfo`: every bound 0. */
  const Empty: Box := Box(0, 0, 0, 0)

  function Min(a: int, b: int): int { if a <= b then a else b }

  function Max(a: int, b: int): int { if a <= b then b else a }

  predicate Ordered(b: Box) { b.minX <= b.maxX && b.minY <= b.maxY }

  predicate Contains(b: Box, x: int, y: int) { b.minX <= x <= b.maxX && b.minY <= y <= b.maxY }

  /** One `draw(x1, y1, x2, y2)`: only the end point is looked at, and on each
      axis a point below the minimum is not compared with the maximum (the
      `else if`). On an ordered box that is the same as taking the hull. */
  function Widen(b: Box, x: int, y: int): (r: Box)
    ensures Ordered(b) ==> r == Box(Min(b.minX, x), Min(b.minY, y), Max(b.maxX, x), Max(b.maxY, y))
  {
    Box(if x < b.minX then x else b.minX,
        if y < b.minY then y else b.minY,
        if x < b.minX then b.maxX else if x > b.maxX then x else b.maxX,
        if y < b.minY then b.maxY else if y > b.maxY then y else b.maxY)
  }

  /** The box after the `draw` calls of `segments`, in order. */
  function BoxOf(b: Box, segments: seq<Segment>): Box
  {
    if segments == [] then b
    else
      var s := segments[|segments| - 1];
      Widen(BoxOf(b, segments[..|segments| - 1]), s.x2, s.y2)
  }

  /** What a measuring pass yields: the smallest box holding the origin and
      every end point. The start points are never looked at. Every bound is
      0 or the coordinate of some end point, so the box of `int` end points
      has `int` bounds. */
  lemma {:induction false} BoxOfIsHull(segments: seq<Segment>)
    ensures var b := BoxOf(Empty, segments);
      && Ordered(b) && Contains(b, 0, 0)
      && (forall k :: 0 <= k < |segments| ==> Contains(b, segments[k].x2, segments[k].y2))
      && (b.minX == 0 || exists k :: 0 <= k < |segments| && b.minX == segments[k].x2)
      && (b.maxX == 0 || exists k :: 0 <= k < |segments| && b.maxX == segments[k].x2)
      && (b.minY == 0 || exists k :: 0 <= k < |segments| && b.minY == segments[k].y2)
      && (b.maxY == 0 || exists k :: 0 <= k < |segments| && b.maxY == segments[k].y2)
  {
    if segments != [] {
      var init := segments[..|segments| - 1];
      BoxOfIsHull(init);
      assert forall k :: 0 <= k < |init| ==> init[k] == segments[k];
    }
  }

  /** `(size - (lo + hi)) / 2` in `int`: `getX()` with `lo`, `hi` the
      horizontal bounds and `size` the canvas width, `getY()` likewise. */
  function Offset(lo: int, hi: int, size: int): (r: int)
    requires IsInt(lo) && IsInt(hi) && IsInt(size)
    ensures IsInt(r)
  {
    Half(Wrap(size - Wrap(lo + hi)))
  }

  /** The centring that `getX`/`getY` are for: when the extent `hi - lo` of a
      drawing that holds the origin is below the canvas size, shifting it by
      the offset puts it inside the canvas, with its midpoint at the canvas
      midpoint up to half a pixel (the truncating division). The canvas is
      at most `2^30` wide, so that `size - (lo + hi)` stays an `int`. */
  lemma CenteredInside(lo: int, hi: int, size: int)
    requires IsInt(lo) && IsInt(hi) && size <= 0x4000_0000
    requires lo <= 0 <= hi && hi - lo < size
    ensures 0 <= lo + Offset(lo, hi, size) && hi + Offset(lo, hi, size) < size
    ensures size - 1 <= (lo + Offset(lo, hi, size)) + (hi + Offset(lo, hi, size)) <= size
  {
    assert Wrap(lo + hi) == lo + hi;
    assert Wrap(size - (lo + hi)) == size - (lo + hi);
  }

  /** `getWidth()` (`lo`, `hi` the horizontal bounds) and `getHeight()`
      (the vertical ones) as written: the difference of two `int` bounds, in
      `int`. */
  function ExtentAsWritten(lo: int, hi: int): (r: int)
    requires IsInt(lo) && IsInt(hi)
    ensures IsInt(r)
    ensures r == hi - lo || r == hi - lo - 0x1_0000_0000 || r == hi - lo + 0x1_0000_0000
  {
    var d := hi - lo;
    if d > IntMax then d - 0x1_0000_0000 else if d < IntMin then d + 0x1_0000_0000 else d
  }

  /** The extent as written is the `int` wrap of the exact difference. */
  lemma ExtentIsWrap(lo: int, hi: int)
    requires IsInt(lo) && IsInt(hi)
    ensures ExtentAsWritten(lo, hi) == Wrap(hi - lo)
  {
  }

  /** The constructor's test `getWidth() >= w || getHeight() >= h`, negated, as
      written. */
  predicate FitsAsWritten(b: Box, w: int, h: int)
    requires IsInt(b.minX) && IsInt(b.maxX) && IsInt(b.minY) && IsInt(b.maxY)
  {
    !(ExtentAsWritten(b.minX, b.maxX) >= w || ExtentAsWritten(b.minY, b.maxY) >= h)
  }

  /** The as-written test accepts a box far wider than the canvas: its width
      `2^31` wraps to a negative `int`. */
  lemma WrappedWidthFits()
    ensures var b := Box(-1, 0, IntMax, 0);
      && Ordered(b) && IsInt(b.minX) && IsInt(b.maxX) && IsInt(b.minY) && IsInt(b.maxY)
      && b.maxX - b.minX >= 400
      && ExtentAsWritten(b.minX, b.maxX) < 0
      && FitsAsWritten(b, 400, 400)
  {
  }

  /** The extent of a box along x, unbounded. */
  function Width(b: Box): int { b.maxX - b.minX }

  function Height(b: Box): int { b.maxY - b.minY }

  /** The fit test on the true extents: the drawing is narrower and lower than
      the canvas. */
  predicate Fits(b: Box, w: int, h: int) { Width(b) < w && Height(b) < h }

  /** Both tests agree whenever the box's extent fits in an `int`, which is
      the only place they can differ. */
  lemma FitsAgree(b: Box, w: int, h: int)
    requires Ordered(b) && IsInt(b.minX) && IsInt(b.maxX) && IsInt(b.minY) && IsInt(b.maxY)
    requires Width(b) <= IntMax && Height(b) <= IntMax
    ensures FitsAsWritten(b, w, h) <==> Fits(b, w, h)
  {
  }

  /** A box that fits, centred by `getX()`/`getY()`, lies inside a canvas of
      at most `2^30` pixels a side. */
  lemma FittingBoxCentered(b: Box, w: int, h: int)
    requires Ordered(b) && Contains(b, 0, 0) && Fits(b, w, h)
    requires IsInt(b.minX) && IsInt(b.maxX) && IsInt(b.minY) && IsInt(b.maxY)
    requires w <= 0x4000_0000 && h <= 0x4000_0000
    ensures var x := Offset(b.minX, b.maxX, w);
            var y := Offset(b.minY, b.maxY, h);
      && 0 <= b.minX + x && b.maxX + x < w
      && 0 <= b.minY + y && b.maxY + y < h
  {
    CenteredInside(b.minX, b.maxX, w);
    CenteredInside(b.minY, b.maxY, h);
  }

  /** The measuring sink object. */
  class TurtleInfo {
    var minX: int
    var minY: int
    var maxX: int
    var maxY: int
    const width: int
    const height: int

    /** The bounds as a value. */
    function Bounds(): Box
      reads this
    {
      Box(minX, minY, maxX, maxY)
    }

    /** The bounds hold the origin and every field is an `int`. */
    ghost predicate Valid()
      reads this
    {
      Ordered(Bounds()) && Contains(Bounds(), 0, 0)
      && IsInt(minX) && IsInt(minY) && IsInt(maxX) && IsInt(maxY) && IsInt(width) && IsInt(height)
    }

    /** `TurtleInfo(w, h)`. */
    constructor (w: int, h: int)
      requires IsInt(w) && IsInt(h)
      ensures Valid() && Bounds() == Empty && width == w && height == h
    {
      minX, minY, maxX, maxY := 0, 0, 0, 0;
      width, height := w, h;
    }

    /** `draw(x1, y1, x2, y2)`. */
    method Draw(x1: int, y1: int, x2: int, y2: int)
      requires Valid() && IsInt(x2) && IsInt(y2)
      modifies this
      ensures Valid() && Bounds() == Widen(old(Bounds()), x2, y2)
    {
      if x2 < minX { minX := x2; } else if x2 > maxX { maxX := x2; }
      if y2 < minY { minY := y2; } else if y2 > maxY { maxY := y2; }
    }

    /** `getWidth()`: the horizontal extent, subtracted in `int`. A valid box
        has a non-negative extent, which wraps only above `IntMax`. */
    function GetWidth(): (r: int)
      reads this
      requires Valid()
      ensures Width(Bounds()) <= IntMax ==> r == Width(Bounds()) && r >= 0
      ensures Width(Bounds()) > IntMax ==> r == Width(Bounds()) - 0x1_0000_0000 && r < 0
    {
      ExtentAsWritten(minX, maxX)
    }

    /** `getHeight()`: the vertical extent, subtracted in `int`. */
    function GetHeight(): (r: int)
      reads this
      requires Valid()
      ensures Height(Bounds()) <= IntMax ==> r == Height(Bounds()) && r >= 0
      ensures Height(Bounds()) > IntMax ==> r == Height(Bounds()) - 0x1_0000_0000 && r < 0
    {
      ExtentAsWritten(minY, maxY)
    }

    /** `getX()`. */
    function GetX(): (r: int)
      reads this
      requires Valid()
      ensures r == Offset(minX, maxX, width)
    {
      Half(Wrap(width - Wrap(minX + maxX)))
    }

    /** `getY()`. */
    function GetY(): (r: int)
      reads this
      requires Valid()
      ensures r == Offset(minY, maxY, height)
    {
      Half(Wrap(height - Wrap(minY + maxY)))
    }
  }
}
