/**
 How the two halves fit: the detector adapter's filtered list is what the
 overlay projector receives, so the filter's guarantees are the projector's
 preconditions.
 */
module Pipeline {
  import opened Geometry
  import opened ModelManager
  import opened OverlayView

  /**
   The filter's output can always be projected: every surviving object has
   the first label the projector force-unwraps.
   */
  lemma FilteredObjectsAreDrawable(objs: seq<DetectedObject>)
    ensures AllLabelled(FilterObjects(objs))
  {
    FilterOutputIsLabelled(objs);
  }

  /**
   Filtering then drawing yields one overlay per specific label, and the
   `k`-th overlay of object `i` is that object's overlay.
   */
  lemma FilterThenDraw(view: View, objs: seq<DetectedObject>, imageSize: Size, measure: string -> Size, i: nat, k: nat)
    requires IsPositive(imageSize)
    requires i < |objs| && k < SpecificCount(objs[i].labels)
    ensures AllLabelled(FilterObjects(objs))
    ensures var v := DrawRects(view, FilterObjects(objs), imageSize, measure);
      && |v.objectOverlays| == TotalSpecific(objs)
      && TotalSpecific(objs[..i]) + k < |v.objectOverlays|
      && v.objectOverlays[TotalSpecific(objs[..i]) + k].name == objs[i].labels[0].text
      && v.objectOverlays[TotalSpecific(objs[..i]) + k].borderRect == BorderRect(objs[i].frame, imageSize, view.bounds)
  {
    FilteredObjectsAreDrawable(objs);
    FilterLayout(objs, i, k);
  }

  /**
   The name shown is the first label even when that label is "Entity": an
   object labelled "Entity" then "Cereal Box" is drawn once, named "Entity".
   */
  lemma EntityCanBeShownAsName(view: View, frame: Rect, imageSize: Size, measure: string -> Size)
    requires IsPositive(imageSize)
    ensures var o := DetectedObject(frame, [Label("Entity", 0.9), Label("Cereal Box", 0.7)]);
      var v := DrawRects(view, FilterObjects([o]), imageSize, measure);
      |v.objectOverlays| == 1 && v.objectOverlays[0].name == EntityText
  {
    MixedLabelsAreKept(frame);
  }
}
