/**
 * The action predictor's post-filter: from the action detector's boxes
 * and class labels for one frame, keep the (box, class) pairs whose foot
 * position is in the field, as two parallel lists; and the frame loop that
 * stores one such pair of lists per frame.
 */
module ActionPrediction {
  import opened Wrappers
  import opened Geometry
  import opened ImgUtils
  import opened Frames

  /** The action detector's result boxes for one frame: coordinates and class labels, in parallel. */
  datatype DetectedBoxes = DetectedBoxes(xyxy: seq<BBox>, cls: seq<real>)

  /** The record for one frame: the kept boxes and, position by position, their classes. */
  datatype ActionInfo = ActionInfo(bbox: seq<BBox>, classes: seq<real>)

  /** The number of (box, class) pairs the zipped loop visits: the shorter of the two. */
  function ZipLength(xyxy: seq<BBox>, cls: seq<real>): (n: nat)
    ensures n <= |xyxy| && n <= |cls|
    ensures n == |xyxy| || n == |cls|
  {
    if |xyxy| < |cls| then |xyxy| else |cls|
  }

  /** The positions, in increasing order, of the in-field boxes among the first n. */
  function KeptIndices(mask: Mask, xyxy: seq<BBox>, n: nat): (idx: seq<nat>)
    requires n <= |xyxy|
    ensures forall k :: 0 <= k < |idx| ==> idx[k] < n
  {
    if n == 0 then []
    else KeptIndices(mask, xyxy, n - 1) + (if FootInField(mask, xyxy[n - 1]) then [n - 1] else [])
  }

  /** Every listed position holds an in-field box. */
  lemma {:induction false} KeptIndicesInField(mask: Mask, xyxy: seq<BBox>, n: nat)
    requires n <= |xyxy|
    ensures forall k :: 0 <= k < |KeptIndices(mask, xyxy, n)| ==> FootInField(mask, xyxy[KeptIndices(mask, xyxy, n)[k]])
  {
    if n > 0 {
      KeptIndicesInField(mask, xyxy, n - 1);
      var prev, idx := KeptIndices(mask, xyxy, n - 1), KeptIndices(mask, xyxy, n);
      assert idx == prev + (if FootInField(mask, xyxy[n - 1]) then [n - 1] else []);
      forall k | 0 <= k < |idx|
        ensures FootInField(mask, xyxy[idx[k]])
      {
        if k < |prev| {
          assert idx[k] == prev[k];
          assert FootInField(mask, xyxy[prev[k]]);
        } else {
          assert idx[k] == n - 1;
        }
      }
    }
  }

  /** The positions are listed in strictly increasing order, so each at most once. */
  lemma {:induction false} KeptIndicesIncreasing(mask: Mask, xyxy: seq<BBox>, n: nat)
    requires n <= |xyxy|
    ensures forall k, l :: 0 <= k < l < |KeptIndices(mask, xyxy, n)| ==> KeptIndices(mask, xyxy, n)[k] < KeptIndices(mask, xyxy, n)[l]
  {
    if n > 0 {
      KeptIndicesIncreasing(mask, xyxy, n - 1);
      var prev, idx := KeptIndices(mask, xyxy, n - 1), KeptIndices(mask, xyxy, n);
      assert idx == prev + (if FootInField(mask, xyxy[n - 1]) then [n - 1] else []);
      forall k, l | 0 <= k < l < |idx|
        ensures idx[k] < idx[l]
      {
        assert idx[k] == prev[k];
        if l < |prev| {
          assert idx[l] == prev[l];
        }
      }
    }
  }

  /** A position below n is listed exactly when its box is in the field. */
  lemma {:induction false} KeptIndicesComplete(mask: Mask, xyxy: seq<BBox>, n: nat)
    requires n <= |xyxy|
    ensures forall i :: 0 <= i < n ==> (i in KeptIndices(mask, xyxy, n) <==> FootInField(mask, xyxy[i]))
  {
    if n > 0 {
      KeptIndicesComplete(mask, xyxy, n - 1);
      KeptIndicesInField(mask, xyxy, n - 1);
    }
  }

  /** The elements of s at the positions idx, in that order. */
  function Select<T>(s: seq<T>, idx: seq<nat>): seq<T>
    requires forall k :: 0 <= k < |idx| ==> idx[k] < |s|
  {
    seq(|idx|, k requires 0 <= k < |idx| => s[idx[k]])
  }

  /** Position k of the selection is the element of s at idx[k]. */
  lemma SelectAt<T>(s: seq<T>, idx: seq<nat>)
    requires forall k :: 0 <= k < |idx| ==> idx[k] < |s|
    ensures |Select(s, idx)| == |idx|
    ensures forall k :: 0 <= k < |idx| ==> Select(s, idx)[k] == s[idx[k]]
  {
  }

  /** Selecting one more position appends that element. */
  lemma SelectSnoc<T>(s: seq<T>, idx: seq<nat>, j: nat)
    requires forall k :: 0 <= k < |idx| ==> idx[k] < |s|
    requires j < |s|
    ensures Select(s, idx + [j]) == Select(s, idx) + [s[j]]
  {
  }

  /** Post-filter of one frame's detector result; empty lists when there are no boxes. */
  function FrameActions(mask: Mask, result: Option<DetectedBoxes>): ActionInfo
  {
    match result
    case None => ActionInfo([], [])
    case Some(r) =>
      var idx := KeptIndices(mask, r.xyxy, ZipLength(r.xyxy, r.cls));
      ActionInfo(Select(r.xyxy, idx), Select(r.cls, idx))
  }

  /**
   * The two lists of a frame's record have equal length and every kept box
   * is in the field; without boxes both lists are empty.
   */
  lemma FrameActionsFacts(mask: Mask, result: Option<DetectedBoxes>)
    ensures |FrameActions(mask, result).bbox| == |FrameActions(mask, result).classes|
    ensures forall k :: 0 <= k < |FrameActions(mask, result).bbox| ==> FootInField(mask, FrameActions(mask, result).bbox[k])
    ensures result.None? ==> FrameActions(mask, result) == ActionInfo([], [])
  {
    if result.Some? {
      var r := result.value;
      var n := ZipLength(r.xyxy, r.cls);
      KeptIndicesInField(mask, r.xyxy, n);
      var idx := KeptIndices(mask, r.xyxy, n);
      SelectAt(r.xyxy, idx);
      SelectAt(r.cls, idx);
    }
  }

  /**
   * The kept pairs are an order-preserving subsequence of the input pairs,
   * each class still beside its own box, and it leaves out exactly the
   * pairs whose box is out of the field.
   */
  lemma KeptPairsSubsequence(mask: Mask, r: DetectedBoxes)
    ensures var a := FrameActions(mask, Some(r));
            var n := ZipLength(r.xyxy, r.cls);
            exists idx: seq<nat> ::
              && |idx| == |a.bbox|
              && (forall k :: 0 <= k < |idx| ==> idx[k] < n && a.bbox[k] == r.xyxy[idx[k]] && a.classes[k] == r.cls[idx[k]])
              && (forall k, l :: 0 <= k < l < |idx| ==> idx[k] < idx[l])
              && (forall i :: 0 <= i < n ==> (i in idx <==> FootInField(mask, r.xyxy[i])))
  {
    var n := ZipLength(r.xyxy, r.cls);
    KeptIndicesIncreasing(mask, r.xyxy, n);
    KeptIndicesComplete(mask, r.xyxy, n);
    var idx := KeptIndices(mask, r.xyxy, n);
    SelectAt(r.xyxy, idx);
    SelectAt(r.cls, idx);
    var a := FrameActions(mask, Some(r));
    assert a.bbox == Select(r.xyxy, idx) && a.classes == Select(r.cls, idx);
    assert |idx| == |a.bbox|;
    assert forall k :: 0 <= k < |idx| ==> idx[k] < n && a.bbox[k] == r.xyxy[idx[k]] && a.classes[k] == r.cls[idx[k]];
  }

  /** The record of every frame of a video, in frame order. */
  function VideoActions(mask: Mask, frames: seq<Option<DetectedBoxes>>): seq<ActionInfo>
  {
    seq(|frames|, i requires 0 <= i < |frames| => FrameActions(mask, frames[i]))
  }

  class ActionPredictor {
    /** The field mask, fixed at construction. */
    const mask: Mask
    /** The action dataset: frame index to that frame's record. */
    var actionData: map<int, ActionInfo>

    constructor (mask: Mask)
      ensures this.mask == mask && actionData == map[]
    {
      this.mask := mask;
      actionData := map[];
    }

    /** One frame: keep the boxes, and their classes, whose foot position is in the field. */
    method Predictor(result: Option<DetectedBoxes>) returns (actionInfo: ActionInfo)
      ensures actionInfo == FrameActions(mask, result)
    {
      var boxesList: seq<BBox>, classesList: seq<real> := [], [];
      if result.Some? {
        var boxes, classes := result.value.xyxy, result.value.cls;
        var n := ZipLength(boxes, classes);
        for i := 0 to n
          invariant boxesList == Select(boxes, KeptIndices(mask, boxes, i))
          invariant classesList == Select(classes, KeptIndices(mask, boxes, i))
        {
          ghost var kept := KeptIndices(mask, boxes, i);
          var bbox := boxes[i];
          var foot := FootPos(bbox);
          assert FootInField(mask, bbox) <==> mask(Trunc(foot.y - 1.0), Trunc(foot.x - 1.0)) != 0;
          if mask(Trunc(foot.y - 1.0), Trunc(foot.x - 1.0)) == 0 {
            assert KeptIndices(mask, boxes, i + 1) == kept + [];
            continue;
          }
          var cls := classes[i];
          assert KeptIndices(mask, boxes, i + 1) == kept + [i];
          SelectSnoc(boxes, kept, i);
          SelectSnoc(classes, kept, i);
          boxesList := boxesList + [bbox];
          classesList := classesList + [cls];
        }
        assert ActionInfo(boxesList, classesList) == FrameActions(mask, result);
      }
      actionInfo := ActionInfo(boxesList, classesList);
    }

    /** The frame loop: one record per frame, stored under frame indices 0, 1, 2, ... */
    method ProcessVideo(frames: seq<Option<DetectedBoxes>>) returns (data: map<int, ActionInfo>)
      modifies this
      ensures Filled(old(actionData), actionData, VideoActions(mask, frames))
      ensures data == actionData
    {
      ghost var all := VideoActions(mask, frames);
      var frameId := 0;
      while frameId < |frames|
        invariant 0 <= frameId <= |frames|
        invariant Filled(old(actionData), actionData, all[..frameId])
      {
        var actionInfo := Predictor(frames[frameId]);
        FilledNext(old(actionData), actionData, all[..frameId], actionInfo);
        assert all[..frameId] + [actionInfo] == all[..frameId + 1];
        actionData := actionData[frameId := actionInfo];
        frameId := frameId + 1;
      }
      assert all[..frameId] == all;
      data := actionData;
    }
  }
}
