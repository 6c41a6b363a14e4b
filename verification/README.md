# Object-detection overlay: a Dafny model

This project models the two pieces of pure logic in WalmartTakeHomeProject. That
app is an iOS camera viewfinder: it runs an MLKit object detector on each frame
and draws labelled boxes over what the detector found.

- **Label filter** (`ModelManager.scanPixelBufferForObjects`). The detector's
  raw object list becomes the list handed to the overlay. The loop walks every
  label of every object. It appends the object once for each label whose text
  is not the placeholder `"Entity"`. The completion is called only when the
  detector delivered a non-empty list.
- **Overlay projection** (`OverlayView.drawRects(for:imageSize:)`). Each
  detection frame is scaled from image pixels to the view's bounds, with
  independent x and y factors. It is then clipped with a fixed 2.0 edge offset,
  in the source's order: clamp a negative x, clamp a negative y, shrink the
  height, shrink the width. Each detection gives one `ObjectOverlay`, named
  after its first label. The label background and text rectangles of
  `drawBackground` and `drawName` are modelled too.

Modules:
- `Geometry` models `CGPoint`, `CGSize` and `CGRect` over exact `real`s. It
  includes `maxX`/`maxY` and `CGRect.applying` for a scale transform.
- `ModelManager` models labels, detected objects, the filter (as a nested-loop
  method and as a recursive reference function) and the completion condition.
- `OverlayView` models scaling, clipping, overlay construction, the view's
  overlay list and the label-box geometry.
- `Pipeline` states what holds when the filter's output is fed to the
  projector.
- `Options` is Swift's optional.

Text measurement (`String.size(withAttributes:)`) is a parameter
`measure: string -> Size`. The detector's callback is an input value
(`DetectorResult`).

Behaviour of the code that the model keeps, proved here:
- The filter drops an object only when none of its labels is specific. It
  appends the object once per specific label, so an object with two specific
  labels is drawn twice, and an "Entity" label beside a specific one does not
  exclude the object (`FilterMembership`, `FilterLayout`, `MixedLabelsAreKept`).
- The code force-unwraps the first label and divides by the image size without
  a guard. Both are preconditions of `DrawRects`: every object has a label, and
  the image size is positive. The filter's output always meets the first one
  (`FilteredObjectsAreDrawable`).
- Only negative coordinates are clamped, so a coordinate in `[0, 2)` stays as it
  is (`ClampOrigin`).
- The overlay's name is the first label even when that label is `"Entity"`
  (`EntityCanBeShownAsName`).
- Shrinking is measured from the clamped origin. If that origin is already near
  or past the far edge, the resulting extent is negative
  (`ShrinkCanMakeExtentNegative`). With an origin past the far edge, the box
  drawn then reaches beyond the view (`ClipPastFarEdge`).

## Model

| member | source | states |
|---|---|---|
| ModelManager.ScanForObjects | WalmartTakeHomeProject/ModelManager.swift:28-44 | completion is called exactly when the detector delivered a non-nil, non-empty list (an image-conversion failure or a reported error with no list means no call); when it is called, its argument is the filtered list |
| ModelManager.Copies | WalmartTakeHomeProject/ModelManager.swift:34-38 | the inner loop over one object's labels appends exactly that object, once per non-"Entity" label |
| ModelManager.FilterObjects | WalmartTakeHomeProject/ModelManager.swift:32-39 | output length is the total number of non-"Entity" labels over all objects; every output element is an input object with a non-"Entity" label |
| ModelManager.SpecificCountPositive | WalmartTakeHomeProject/ModelManager.swift:34-36 | an object contributes at least one copy if and only if one of its labels is not "Entity" |
| ModelManager.FilterLayout | WalmartTakeHomeProject/ModelManager.swift:33-39 | the copies of object i sit at consecutive positions starting at the count of non-"Entity" labels of objects before i; with the length this fixes the output completely |
| ModelManager.FilterKeepsOrder | WalmartTakeHomeProject/ModelManager.swift:33-38 | the positions that FilterLayout gives the copies of object i all come before those of object j when i < j, so input order is kept |
| ModelManager.FilterMembership | WalmartTakeHomeProject/ModelManager.swift:33-37 | an object is in the output if and only if it is in the input and has a non-"Entity" label; "Entity" labels beside a specific one do not exclude it, and an object with only "Entity" labels or none never appears |
| ModelManager.AllEntityLabelsGiveEmptyList | WalmartTakeHomeProject/ModelManager.swift:31-40 | when every label is "Entity" the filtered list is empty, so a non-empty detection calls completion with the empty list |
| ModelManager.FilterOutputIsLabelled | WalmartTakeHomeProject/ModelManager.swift:35-36 | every object passed to completion has a non-empty label list |
| ModelManager.MixedLabelsAreKept | WalmartTakeHomeProject/ModelManager.swift:33-37 | an object labelled "Entity" then "Cereal Box" is kept once, not excluded |
| Geometry.Applying | WalmartTakeHomeProject/OverlayView.swift:101-104 | the scaled rectangle has non-negative extents, and its x-edges and y-edges are exactly the scaled x-edges and y-edges of the input |
| Geometry.ApplyingScalesEachComponent | WalmartTakeHomeProject/OverlayView.swift:101-104 | a rectangle with non-negative extents, scaled by non-negative factors, has each coordinate and extent multiplied by its axis factor |
| OverlayView.ScaleToView | WalmartTakeHomeProject/OverlayView.swift:101-104 | before clipping, (x, y, w, h) becomes (x·Bw/Iw, y·Bh/Ih, w·Bw/Iw, h·Bh/Ih), with independent x and y factors; the image size must be positive |
| OverlayView.ClampOrigin | WalmartTakeHomeProject/OverlayView.swift:106-112 | a negative x becomes exactly 2.0, otherwise x is kept; likewise y; the size is untouched |
| OverlayView.ClipToBounds | WalmartTakeHomeProject/OverlayView.swift:106-122 | the origin is the clamped one; if the bottom edge, measured from the clamped origin, passes bounds.maxY then y + height = bounds.maxY − 2.0, otherwise the height is kept; likewise the width against bounds.maxX |
| OverlayView.ClipFixesExactlyInsideRects | WalmartTakeHomeProject/OverlayView.swift:106-122 | a rectangle with non-negative extents passes through clipping unchanged if and only if it already lies inside [0, bounds.maxX] × [0, bounds.maxY] |
| OverlayView.ClipEdges | WalmartTakeHomeProject/OverlayView.swift:106-122 | after clipping, x ≥ 0 and y ≥ 0, and x + width ≤ bounds.maxX and y + height ≤ bounds.maxY |
| OverlayView.ClipMaxEdges | WalmartTakeHomeProject/OverlayView.swift:106-122 | when the clamped origin is not past bounds.maxX and bounds.maxY, the clipped rectangle's CGRect maxX and maxY lie within bounds.maxX and bounds.maxY |
| OverlayView.ClipPastFarEdge | WalmartTakeHomeProject/OverlayView.swift:119-122 | (400, 10, 5, 5) in a 320×240 view gets width −82, so its maxX is 400, beyond the view |
| OverlayView.ClampShiftsRect | WalmartTakeHomeProject/OverlayView.swift:106-112 | clamping the origin moves the rectangle without shrinking it when no far edge overflows |
| OverlayView.ClipIdempotent | WalmartTakeHomeProject/OverlayView.swift:106-122 | clipping an already clipped rectangle changes nothing |
| OverlayView.ShrinkCanMakeExtentNegative | WalmartTakeHomeProject/OverlayView.swift:114-117 | a rectangle at y = 239 with height 5 in a 240-high view gets height −1 |
| OverlayView.InsideImageNeedsNoClip | WalmartTakeHomeProject/OverlayView.swift:101-122 | a detection inside the image, in a view whose bounds start at the origin, is scaled into the view and left alone by clipping |
| OverlayView.ScenarioExamples | WalmartTakeHomeProject/OverlayView.swift:97-122 | image 640×480 to view 320×240: (100,100,50,50) becomes (50,50,25,25), and (−10,300,50,50) becomes (2,150,25,25) |
| OverlayView.Overlays | WalmartTakeHomeProject/OverlayView.swift:98-133 | the loop yields one overlay per input object, in input order, and skips none |
| OverlayView.DrawRects | WalmartTakeHomeProject/OverlayView.swift:92-136 | the view's overlay list becomes one overlay per detection in order: the scaled and clipped frame, the first label's text even if it is "Entity", that text's measured size, red, and the 14-point medium system font; it requires every detection to have a label and the image size to be positive |
| OverlayView.DrawRectsReplaces | WalmartTakeHomeProject/OverlayView.swift:92-136 | after two draws the view holds exactly the second draw's overlays; nothing of the first remains |
| OverlayView.LabelTextInset | WalmartTakeHomeProject/OverlayView.swift:68-88 | the label background starts at the border's origin with size (text width + 2·13, text height + 2·7); the text rectangle has the measured size and is inset by 13 horizontally and 7 vertically on every side of the background |
| Pipeline.FilteredObjectsAreDrawable | WalmartTakeHomeProject/ModelManager.swift:33-40 | every list the filter hands to completion meets the projector's need for a first label |
| Pipeline.FilterThenDraw | WalmartTakeHomeProject/ModelManager.swift:33-40 | filtering then drawing yields one overlay per non-"Entity" label; the k-th overlay of object i, at its filter position, carries that object's first label text and its scaled and clipped frame |
| Pipeline.EntityCanBeShownAsName | WalmartTakeHomeProject/OverlayView.swift:124-128 | an object labelled "Entity" then "Cereal Box" survives the filter and is drawn once, named "Entity" |

## Left out

- ClipEdges: bounds origin plus extent, not the CGRect far edge. When the clamped origin lies past the far edge of the bounds, the width or height becomes negative, and the box drawn reaches beyond the view (`ClipPastFarEdge`). `ClipMaxEdges` bounds the CGRect far edges only when the origin is not past them.
- MLKit detector configuration (`LocalModel`, `CustomObjectDetectorOptions`: single-image mode, classification, multiple objects, threshold 0.5, at most 3 labels). It is an opaque library setting, and the detector is not modelled. So the 1–3 labels-per-object bound is not a property of this model.
- `MLImage(pixelBuffer:)` and `detector.process`: opaque and asynchronous. Their outcome is the input `DetectorResult`. A conversion failure is one case of it.
- The detector callback's error argument. The code ignores it, so it appears only as a flag that has no effect.
- Rendering: `draw(_:)`, `drawBorders`, stroke and fill of `UIBezierPath`, `NSAttributedString.draw`, the alpha and white text colour, and `setNeedsDisplay`. Only the rectangles of `drawBackground` and `drawName` are modelled.
- The intermediate clear of `objectOverlays` before the new list is built (OverlayView.swift:94-95). It is a redraw side effect, and the model's view goes straight to the new list.
- `String.size(withAttributes:)` and `UIFont`. Measurement is the parameter `measure`, and the font is a value.
- The label fallback `first?.text ?? ""` used for measuring. Under the force-unwrap's precondition it always equals the first label's text.
- IEEE floating-point rounding of `CGFloat`. All arithmetic is on exact reals.
- Division by a zero image size. The code does not guard it, so a positive image size is a precondition.
- ViewController.swift (camera session, permission alerts, delegate wiring, `getSize`): UI and I/O glue.
- Overlapping frame completions and out-of-order display: the code contains no logic for them.
