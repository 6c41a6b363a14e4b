/**
 Core Graphics geometry as the overlay code uses it: points, sizes and
 rectangles over exact reals (`CGFloat` without rounding), the `maxX`/`maxY`
 accessors, and `CGRect.applying` for a pure scale transform.
 */
module Geometry {

  datatype Point = Point(x: real, y: real)

  datatype Size = Size(width: real, height: real)

  datatype Rect = Rect(origin: Point, size: Size) {

    /** A rectangle whose width and height are non-negative. */
    predicate IsStandard() {
      size.width >= 0.0 && size.height >= 0.0
    }

    /** `CGRect.maxX`: the larger x-edge, also for a negative width. */
    function MaxX(): real {
      if size.width >= 0.0 then origin.x + size.width else origin.x
    }

    /** `CGRect.maxY`: the larger y-edge, also for a negative height. */
    function MaxY(): real {
      if size.height >= 0.0 then origin.y + size.height else origin.y
    }
  }

  /** A size both of whose extents are strictly positive. */
  predicate IsPositive(s: Size) {
    s.width > 0.0 && s.height > 0.0
  }

  /** The interval between `a` and `b`, as its lower end and its non-negative length. */
  function Span(a: real, b: real): (p: (real, real))
    ensures p.1 >= 0.0
    ensures {p.0, p.0 + p.1} == {a, b}
  {
    if a <= b then (a, b - a) else (b, a - b)
  }

  /**
   `CGRect.applying(CGAffineTransform(scaleX: sx, y: sy))`: the smallest
   rectangle holding the four scaled corners of `r`, so the result is
   standard whatever the signs of the extents and of the factors.
   */
  function Applying(r: Rect, sx: real, sy: real): (s: Rect)
    ensures s.IsStandard()
    ensures {s.origin.x, s.origin.x + s.size.width} == {r.origin.x * sx, (r.origin.x + r.size.width) * sx}
    ensures {s.origin.y, s.origin.y + s.size.height} == {r.origin.y * sy, (r.origin.y + r.size.height) * sy}
  {
    var xs := Span(r.origin.x * sx, (r.origin.x + r.size.width) * sx);
    var ys := Span(r.origin.y * sy, (r.origin.y + r.size.height) * sy);
    Rect(Point(xs.0, ys.0), Size(xs.1, ys.1))
  }

  /** Scaling a standard rectangle by non-negative factors scales each coordinate and extent. */
  lemma ApplyingScalesEachComponent(r: Rect, sx: real, sy: real)
    requires r.IsStandard() && sx >= 0.0 && sy >= 0.0
    ensures Applying(r, sx, sy) == Rect(Point(r.origin.x * sx, r.origin.y * sy),
                                         Size(r.size.width * sx, r.size.height * sy))
  {
  }
}
