/**
 The detector adapter (`ModelManager`): what happens to the detector's raw
 object list before it reaches the overlay. The detector itself, its
 configuration and the pixel-buffer conversion are opaque; their outcome is
 an input here.
 */
module ModelManager {
  import opened Options
  import opened Geometry

  /** The placeholder label the detector reports when it found no more specific class. */
  const EntityText: string := "Entity"

  /** One classification of a detected object (MLKit `ObjectLabel`). */
  datatype Label = Label(text: string, confidence: real)

  /** One detection (MLKit `Object`): a frame in image pixels and its ordered labels. */
  datatype DetectedObject = DetectedObject(frame: Rect, labels: seq<Label>)

  /** What the asynchronous detector call delivered for one frame. */
  datatype DetectorResult =
    | ImageConversionFailed
      // `MLImage(pixelBuffer:)` returned nil; the detector was never invoked
    | Processed(objects: Option<seq<DetectedObject>>, reportedError: bool)
      // the detector's callback: an optional object list and whether an error was passed

  /** A label that names something more specific than the placeholder. */
  predicate IsSpecific(l: Label) {
    l.text != EntityText
  }

  /** The object carries at least one specific label. */
  predicate HasSpecificLabel(o: DetectedObject) {
    exists j :: 0 <= j < |o.labels| && IsSpecific(o.labels[j])
  }

  /** The number of specific labels among `labels`. */
  function SpecificCount(labels: seq<Label>): nat {
    if |labels| == 0 then 0
    else SpecificCount(labels[..|labels| - 1]) + (if IsSpecific(labels[|labels| - 1]) then 1 else 0)
  }

  /** The number of specific labels over all objects of `objs`. */
  function TotalSpecific(objs: seq<DetectedObject>): nat {
    if |objs| == 0 then 0
    else TotalSpecific(objs[..|objs| - 1]) + SpecificCount(objs[|objs| - 1].labels)
  }

  /** What the inner loop over `labels` appends: one copy of `o` per specific label. */
  function Copies(o: DetectedObject, labels: seq<Label>): (r: seq<DetectedObject>)
    ensures |r| == SpecificCount(labels)
    ensures forall k :: 0 <= k < |r| ==> r[k] == o
  {
    if |labels| == 0 then []
    else Copies(o, labels[..|labels| - 1]) + (if IsSpecific(labels[|labels| - 1]) then [o] else [])
  }

  /**
   The list the label filter builds: for each object in order, the object once
   per specific label it carries.
   */
  function FilterObjects(objs: seq<DetectedObject>): (r: seq<DetectedObject>)
    ensures |r| == TotalSpecific(objs)
    ensures forall x :: x in r ==> x in objs && HasSpecificLabel(x)
  {
    if |objs| == 0 then []
    else
      var last := objs[|objs| - 1];
      var r := FilterObjects(objs[..|objs| - 1]) + Copies(last, last.labels);
      assert |Copies(last, last.labels)| > 0 ==> HasSpecificLabel(last) by {
        SpecificCountPositive(last.labels);
      }
      r
  }

  /**
   `scanPixelBufferForObjects`: the argument `completion` is called with, or
   `None` when it is not called at all. The nested loop walks every label of
   every object and appends the object for each label that is not "Entity".
   */
  method ScanForObjects(result: DetectorResult) returns (completion: Option<seq<DetectedObject>>)
    ensures completion.Some? <==> result.Processed? && result.objects.Some? && |result.objects.value| > 0
    ensures completion.Some? ==> completion.value == FilterObjects(result.objects.value)
  {
    if !result.Processed? || result.objects.None? || |result.objects.value| == 0 {
      return None;
    }
    var objs := result.objects.value;
    var detected: seq<DetectedObject> := [];
    for i := 0 to |objs|
      invariant detected == FilterObjects(objs[..i])
    {
      var obj := objs[i];
      for j := 0 to |obj.labels|
        invariant detected == FilterObjects(objs[..i]) + Copies(obj, obj.labels[..j])
      {
        assert obj.labels[..j + 1][..j] == obj.labels[..j];
        if obj.labels[j].text != EntityText {
          detected := detected + [obj];
        }
      }
      assert obj.labels[..|obj.labels|] == obj.labels;
      assert objs[..i + 1][..i] == objs[..i];
    }
    assert objs[..|objs|] == objs;
    completion := Some(detected);
  }

  /** An object has a positive number of specific labels exactly when it has one. */
  lemma {:induction false} SpecificCountPositive(labels: seq<Label>)
    ensures SpecificCount(labels) > 0 <==> exists j :: 0 <= j < |labels| && IsSpecific(labels[j])
  {
    if |labels| > 0 {
      var init := labels[..|labels| - 1];
      SpecificCountPositive(init);
      if exists j :: 0 <= j < |init| && IsSpecific(init[j]) {
        var j :| 0 <= j < |init| && IsSpecific(init[j]);
        assert labels[j] == init[j];
      }
      if exists j :: 0 <= j < |labels| && IsSpecific(labels[j]) {
        var j :| 0 <= j < |labels| && IsSpecific(labels[j]);
        if j < |init| {
          assert init[j] == labels[j];
        }
      }
    }
  }

  /** The filter's running total grows by each object's own specific-label count. */
  lemma TotalSpecificStep(objs: seq<DetectedObject>, i: nat)
    requires i < |objs|
    ensures TotalSpecific(objs[..i + 1]) == TotalSpecific(objs[..i]) + SpecificCount(objs[i].labels)
  {
    assert objs[..i + 1][..i] == objs[..i];
  }

  /** Running totals never decrease along the object list. */
  lemma {:induction false} TotalSpecificMonotone(objs: seq<DetectedObject>, a: nat, b: nat)
    requires a <= b <= |objs|
    ensures TotalSpecific(objs[..a]) <= TotalSpecific(objs[..b])
  {
    if a < b {
      TotalSpecificMonotone(objs, a, b - 1);
      TotalSpecificStep(objs, b - 1);
    }
  }

  /**
   The exact layout of the filter's output: the copies of `objs[i]` occupy the
   `SpecificCount(objs[i].labels)` positions starting at the number of
   specific labels of the objects before it.
   */
  lemma {:induction false} FilterLayout(objs: seq<DetectedObject>, i: nat, k: nat)
    requires i < |objs| && k < SpecificCount(objs[i].labels)
    ensures TotalSpecific(objs[..i]) + k < |FilterObjects(objs)|
    ensures FilterObjects(objs)[TotalSpecific(objs[..i]) + k] == objs[i]
  {
    var n := |objs|;
    var init := objs[..n - 1];
    var last := objs[n - 1];
    assert FilterObjects(objs) == FilterObjects(init) + Copies(last, last.labels);
    if i < n - 1 {
      assert init[..i] == objs[..i];
      assert init[i] == objs[i];
      FilterLayout(init, i, k);
    } else {
      assert objs[..i] == init;
    }
  }

  /**
   Input order is kept: with the positions of `FilterLayout`, every copy of
   `objs[i]` comes before every copy of `objs[j]` when `i < j`.
   */
  lemma FilterKeepsOrder(objs: seq<DetectedObject>, i: nat, j: nat, k: nat, m: nat)
    requires i < j < |objs|
    requires k < SpecificCount(objs[i].labels) && m < SpecificCount(objs[j].labels)
    ensures TotalSpecific(objs[..i]) + k < TotalSpecific(objs[..j]) + m
  {
    TotalSpecificStep(objs, i);
    TotalSpecificMonotone(objs, i + 1, j);
  }

  /**
   An object survives the filter exactly when it carries a specific label,
   whatever "Entity" labels it carries besides; an object with no labels or
   only "Entity" labels never does.
   */
  lemma FilterMembership(objs: seq<DetectedObject>, o: DetectedObject)
    ensures o in FilterObjects(objs) <==> o in objs && HasSpecificLabel(o)
  {
    if o in objs && HasSpecificLabel(o) {
      var i :| 0 <= i < |objs| && objs[i] == o;
      SpecificCountPositive(o.labels);
      FilterLayout(objs, i, 0);
    }
  }

  /**
   A non-empty detection whose labels are all "Entity" still reaches the
   completion, with the empty list.
   */
  lemma {:induction false} AllEntityLabelsGiveEmptyList(objs: seq<DetectedObject>)
    requires forall i, j :: 0 <= i < |objs| && 0 <= j < |objs[i].labels| ==> objs[i].labels[j].text == EntityText
    ensures FilterObjects(objs) == []
  {
    if |objs| > 0 {
      var init := objs[..|objs| - 1];
      assert forall i :: 0 <= i < |init| ==> init[i] == objs[i];
      AllEntityLabelsGiveEmptyList(init);
      SpecificCountPositive(objs[|objs| - 1].labels);
    }
  }

  /** Every object handed to the completion carries at least one label. */
  lemma FilterOutputIsLabelled(objs: seq<DetectedObject>)
    ensures forall x :: x in FilterObjects(objs) ==> |x.labels| > 0
  {
  }

  /**
   An object labelled "Entity" first and something specific second is kept
   once, not excluded: the filter looks at each label, not at the object.
   */
  lemma MixedLabelsAreKept(frame: Rect)
    ensures var o := DetectedObject(frame, [Label("Entity", 0.9), Label("Cereal Box", 0.7)]);
            FilterObjects([o]) == [o]
  {
    var o := DetectedObject(frame, [Label("Entity", 0.9), Label("Cereal Box", 0.7)]);
    assert o.labels[..1] == [Label("Entity", 0.9)];
    assert o.labels[..1][..0] == [];
    assert [o][..0] == [];
    assert Copies(o, o.labels[..1]) == [];
  }
}
