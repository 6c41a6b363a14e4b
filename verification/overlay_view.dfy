/**
 The overlay projector (`OverlayView`): each detection's frame is scaled from
 image pixels to the view's bounds, clipped against the bounds with a fixed
 edge offset, and turned into one overlay record carrying the first label's
 text and its measured size. Text measurement is a parameter.
 */
module OverlayView {
  import opened Geometry
  import opened ModelManager

  /** The margin a clipped edge keeps from the view's edge. */
  const EdgeOffset: real := 2.0
  /** Horizontal padding between the label background and its text. */
  const StringHorizontalSpacing: real := 13.0
  /** Vertical padding between the label background and its text. */
  const StringVerticalSpacing: real := 7.0

  datatype Color = Red

  datatype FontWeight = Medium

  datatype Font = SystemFont(pointSize: real, weight: FontWeight)

  /** The font every overlay label is measured and drawn with. */
  const LabelFont: Font := SystemFont(14.0, Medium)

  /** The display parameters of one overlay (`ObjectOverlay`). */
  datatype ObjectOverlay = ObjectOverlay(
    name: string,
    borderRect: Rect,
    nameStringSize: Size,
    color: Color,
    font: Font)

  /** The part of the view the projector reads and writes. */
  datatype View = View(bounds: Rect, objectOverlays: seq<ObjectOverlay>)

  /** Every object carries a label, as the force-unwrap of the first label demands. */
  predicate AllLabelled(objs: seq<DetectedObject>) {
    forall i :: 0 <= i < |objs| ==> |objs[i].labels| > 0
  }

  /** A detection frame in view coordinates, before clipping: independent x and y scale factors. */
  function ScaleToView(frame: Rect, imageSize: Size, bounds: Rect): (s: Rect)
    requires IsPositive(imageSize)
    ensures frame.IsStandard() && bounds.size.width >= 0.0 && bounds.size.height >= 0.0 ==>
      s == Rect(Point(frame.origin.x * (bounds.size.width / imageSize.width),
                      frame.origin.y * (bounds.size.height / imageSize.height)),
                Size(frame.size.width * (bounds.size.width / imageSize.width),
                     frame.size.height * (bounds.size.height / imageSize.height)))
  {
    var sx := bounds.size.width / imageSize.width;
    var sy := bounds.size.height / imageSize.height;
    var s := Applying(frame, sx, sy);
    assert frame.IsStandard() && bounds.size.width >= 0.0 && bounds.size.height >= 0.0 ==>
      s == Rect(Point(frame.origin.x * sx, frame.origin.y * sy), Size(frame.size.width * sx, frame.size.height * sy)) by {
      if frame.IsStandard() && bounds.size.width >= 0.0 && bounds.size.height >= 0.0 {
        ApplyingScalesEachComponent(frame, sx, sy);
      }
    }
    s
  }

  /** The first two clipping steps: a negative x, then a negative y, becomes the edge offset. */
  function ClampOrigin(r: Rect): (c: Rect)
    ensures c.size == r.size
    ensures c.origin.x >= 0.0 && c.origin.y >= 0.0
    ensures r.origin.x >= 0.0 ==> c.origin.x == r.origin.x
    ensures r.origin.x < 0.0 ==> c.origin.x == EdgeOffset
    ensures r.origin.y >= 0.0 ==> c.origin.y == r.origin.y
    ensures r.origin.y < 0.0 ==> c.origin.y == EdgeOffset
  {
    var r1 := if r.origin.x < 0.0 then r.(origin := r.origin.(x := EdgeOffset)) else r;
    if r1.origin.y < 0.0 then r1.(origin := r1.origin.(y := EdgeOffset)) else r1
  }

  /**
   The whole clipping sequence: clamp the origin, then shrink the height and
   then the width so that an edge overflowing the bounds, measured from the
   already clamped origin, ends the edge offset short of the bounds.
   */
  function ClipToBounds(r: Rect, bounds: Rect): (c: Rect)
    ensures c.origin == ClampOrigin(r).origin
    ensures ClampOrigin(r).MaxY() > bounds.MaxY() ==> c.origin.y + c.size.height == bounds.MaxY() - EdgeOffset
    ensures ClampOrigin(r).MaxY() <= bounds.MaxY() ==> c.size.height == r.size.height
    ensures ClampOrigin(r).MaxX() > bounds.MaxX() ==> c.origin.x + c.size.width == bounds.MaxX() - EdgeOffset
    ensures ClampOrigin(r).MaxX() <= bounds.MaxX() ==> c.size.width == r.size.width
  {
    var r2 := ClampOrigin(r);
    var r3 := if r2.MaxY() > bounds.MaxY()
      then r2.(size := r2.size.(height := bounds.MaxY() - r2.origin.y - EdgeOffset))
      else r2;
    if r3.MaxX() > bounds.MaxX()
      then r3.(size := r3.size.(width := bounds.MaxX() - r3.origin.x - EdgeOffset))
      else r3
  }

  /** The rectangle lies right of and below the zero axes and inside the far edges of `bounds`. */
  predicate InsideBounds(r: Rect, bounds: Rect) {
    && r.origin.x >= 0.0
    && r.origin.y >= 0.0
    && r.origin.x + r.size.width <= bounds.MaxX()
    && r.origin.y + r.size.height <= bounds.MaxY()
  }

  /** The border rectangle of one detection: its frame scaled to the view, then clipped. */
  function BorderRect(frame: Rect, imageSize: Size, bounds: Rect): Rect
    requires IsPositive(imageSize)
  {
    ClipToBounds(ScaleToView(frame, imageSize, bounds), bounds)
  }

  /** The overlay of one labelled detection. */
  function MakeOverlay(o: DetectedObject, imageSize: Size, bounds: Rect, measure: string -> Size): ObjectOverlay
    requires IsPositive(imageSize) && |o.labels| > 0
  {
    var name := o.labels[0].text;
    ObjectOverlay(name, BorderRect(o.frame, imageSize, bounds), measure(name), Red, LabelFont)
  }

  /** The overlays of `objs`, in order, built as the loop of `drawRects` appends them. */
  function Overlays(objs: seq<DetectedObject>, imageSize: Size, bounds: Rect, measure: string -> Size): (ovs: seq<ObjectOverlay>)
    requires IsPositive(imageSize) && AllLabelled(objs)
    ensures |ovs| == |objs|
    ensures forall i :: 0 <= i < |objs| ==> ovs[i] == MakeOverlay(objs[i], imageSize, bounds, measure)
  {
    if |objs| == 0 then []
    else
      var init := objs[..|objs| - 1];
      assert forall i :: 0 <= i < |init| ==> init[i] == objs[i];
      Overlays(init, imageSize, bounds, measure) + [MakeOverlay(objs[|objs| - 1], imageSize, bounds, measure)]
  }

  /**
   `drawRects(for:imageSize:)`: the view's overlays become exactly one overlay
   per detection, in detection order, each with the scaled and clipped frame,
   the first label's text, that text's measured size, red, and the label font.
   */
  function DrawRects(view: View, detectedObjects: seq<DetectedObject>, imageSize: Size, measure: string -> Size): (v: View)
    requires IsPositive(imageSize) && AllLabelled(detectedObjects)
    ensures v.bounds == view.bounds
    ensures |v.objectOverlays| == |detectedObjects|
    ensures forall i :: 0 <= i < |detectedObjects| ==>
      && v.objectOverlays[i].name == detectedObjects[i].labels[0].text
      && v.objectOverlays[i].borderRect == ClipToBounds(ScaleToView(detectedObjects[i].frame, imageSize, view.bounds), view.bounds)
      && v.objectOverlays[i].nameStringSize == measure(detectedObjects[i].labels[0].text)
      && v.objectOverlays[i].color == Red
      && v.objectOverlays[i].font == LabelFont
  {
    View(view.bounds, Overlays(detectedObjects, imageSize, view.bounds, measure))
  }

  /** The label background of `drawBackground`. */
  function BackgroundRect(ov: ObjectOverlay): Rect {
    Rect(ov.borderRect.origin,
         Size(2.0 * StringHorizontalSpacing + ov.nameStringSize.width,
              2.0 * StringVerticalSpacing + ov.nameStringSize.height))
  }

  /** The rectangle `drawName` draws the label text into. */
  function TextRect(ov: ObjectOverlay): Rect {
    Rect(Point(ov.borderRect.origin.x + StringHorizontalSpacing, ov.borderRect.origin.y + StringVerticalSpacing),
         ov.nameStringSize)
  }

  /**
   The label background hangs from the border's top-left corner, and the text
   sits inside it with the horizontal spacing on its left and right and the
   vertical spacing above and below, at exactly the measured text size.
   */
  lemma LabelTextInset(ov: ObjectOverlay)
    ensures BackgroundRect(ov).origin == ov.borderRect.origin
    ensures TextRect(ov).size == ov.nameStringSize
    ensures TextRect(ov).origin.x == BackgroundRect(ov).origin.x + StringHorizontalSpacing
    ensures TextRect(ov).origin.y == BackgroundRect(ov).origin.y + StringVerticalSpacing
    ensures BackgroundRect(ov).origin.x + BackgroundRect(ov).size.width
            == TextRect(ov).origin.x + TextRect(ov).size.width + StringHorizontalSpacing
    ensures BackgroundRect(ov).origin.y + BackgroundRect(ov).size.height
            == TextRect(ov).origin.y + TextRect(ov).size.height + StringVerticalSpacing
  {
  }

  /**
   A standard rectangle is left alone by clipping exactly when it already
   lies inside the bounds.
   */
  lemma ClipFixesExactlyInsideRects(r: Rect, bounds: Rect)
    requires r.IsStandard()
    ensures ClipToBounds(r, bounds) == r <==> InsideBounds(r, bounds)
  {
  }

  /**
   After clipping a standard rectangle its origin is non-negative and its
   origin plus extent stays within the far edges of the bounds. When an
   extent comes out negative this sum is not the rectangle's far edge (see
   `ClipPastFarEdge`).
   */
  lemma ClipEdges(r: Rect, bounds: Rect)
    requires r.IsStandard()
    ensures var c := ClipToBounds(r, bounds);
      && c.origin.x >= 0.0 && c.origin.y >= 0.0
      && c.origin.x + c.size.width <= bounds.MaxX()
      && c.origin.y + c.size.height <= bounds.MaxY()
  {
  }

  /**
   When the clamped origin does not lie past the far edges of the bounds, the
   clipped rectangle's CGRect far edges, `maxX` and `maxY`, lie within them.
   */
  lemma ClipMaxEdges(r: Rect, bounds: Rect)
    requires r.IsStandard()
    requires ClampOrigin(r).origin.x <= bounds.MaxX() && ClampOrigin(r).origin.y <= bounds.MaxY()
    ensures ClipToBounds(r, bounds).MaxX() <= bounds.MaxX()
    ensures ClipToBounds(r, bounds).MaxY() <= bounds.MaxY()
  {
  }

  /**
   An origin past the far edge is not brought back: (400, 10, 5, 5) in a
   320x240 view gets width -82, so the box drawn spans x in [318, 400] and its
   `maxX` lies beyond the view.
   */
  lemma ClipPastFarEdge()
    ensures var bounds := Rect(Point(0.0, 0.0), Size(320.0, 240.0));
            var c := ClipToBounds(Rect(Point(400.0, 10.0), Size(5.0, 5.0)), bounds);
            c.size.width == -82.0 && c.MaxX() == 400.0 && c.MaxX() > bounds.MaxX()
  {
  }

  /**
   Clamping moves the rectangle instead of shrinking it: when only the origin
   is clamped, the width and height are the original ones.
   */
  lemma ClampShiftsRect(r: Rect, bounds: Rect)
    requires r.origin.x < 0.0 || r.origin.y < 0.0
    requires ClampOrigin(r).MaxX() <= bounds.MaxX() && ClampOrigin(r).MaxY() <= bounds.MaxY()
    ensures ClipToBounds(r, bounds).size == r.size
    ensures ClipToBounds(r, bounds).origin != r.origin
  {
  }

  /** Clipping a second time changes nothing. */
  lemma ClipIdempotent(r: Rect, bounds: Rect)
    ensures ClipToBounds(ClipToBounds(r, bounds), bounds) == ClipToBounds(r, bounds)
  {
  }

  /**
   A shrink measured from an origin already near the far edge makes the
   extent negative: the height becomes -1 here, not a clipped box.
   */
  lemma ShrinkCanMakeExtentNegative()
    ensures var bounds := Rect(Point(0.0, 0.0), Size(320.0, 240.0));
            ClipToBounds(Rect(Point(10.0, 239.0), Size(5.0, 5.0)), bounds).size.height == -1.0
  {
  }

  /** After a draw, the view's overlays do not depend on the overlays it held before. */
  lemma DrawRectsReplaces(view: View, first: seq<DetectedObject>, second: seq<DetectedObject>, imageSize: Size, measure: string -> Size)
    requires IsPositive(imageSize) && AllLabelled(first) && AllLabelled(second)
    ensures DrawRects(DrawRects(view, first, imageSize, measure), second, imageSize, measure)
            == DrawRects(view, second, imageSize, measure)
  {
  }

  /** A detection lying inside the image is scaled into the view and needs no clipping. */
  lemma InsideImageNeedsNoClip(frame: Rect, imageSize: Size, bounds: Rect)
    requires IsPositive(imageSize) && frame.IsStandard()
    requires bounds.origin == Point(0.0, 0.0) && bounds.size.width >= 0.0 && bounds.size.height >= 0.0
    requires frame.origin.x >= 0.0 && frame.origin.x + frame.size.width <= imageSize.width
    requires frame.origin.y >= 0.0 && frame.origin.y + frame.size.height <= imageSize.height
    ensures BorderRect(frame, imageSize, bounds) == ScaleToView(frame, imageSize, bounds)
  {
    ScaledIntervalInside(frame.origin.x, frame.size.width, imageSize.width, bounds.size.width);
    ScaledIntervalInside(frame.origin.y, frame.size.height, imageSize.height, bounds.size.height);
    ClipFixesExactlyInsideRects(ScaleToView(frame, imageSize, bounds), bounds);
  }

  /** An interval inside `[0, n]` scales by `m / n` into `[0, m]`. */
  lemma ScaledIntervalInside(a: real, w: real, n: real, m: real)
    requires n > 0.0 && m >= 0.0 && a >= 0.0 && w >= 0.0 && a + w <= n
    ensures a * (m / n) >= 0.0
    ensures a * (m / n) + w * (m / n) <= m
  {
    var k := m / n;
    assert (a + w) * k <= n * k;
    assert n * k == m;
  }

  /**
   Image 640x480 and view 320x240: the detection (100, 100, 50, 50) becomes
   the border (50, 50, 25, 25), and (-10, 300, 50, 50) is shifted to x = 2.
   */
  lemma ScenarioExamples()
    ensures var imageSize := Size(640.0, 480.0);
            var bounds := Rect(Point(0.0, 0.0), Size(320.0, 240.0));
            && BorderRect(Rect(Point(100.0, 100.0), Size(50.0, 50.0)), imageSize, bounds)
               == Rect(Point(50.0, 50.0), Size(25.0, 25.0))
            && BorderRect(Rect(Point(-10.0, 300.0), Size(50.0, 50.0)), imageSize, bounds)
               == Rect(Point(2.0, 150.0), Size(25.0, 25.0))
  {
  }
}
