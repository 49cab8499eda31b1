/**
 * The ball trajectory tracker: a per-frame state machine over a bounded
 * FIFO history of ball centres and a missed-frame counter. On every frame
 * it accepts a real detection, holds the last position, extrapolates
 * linearly, or reports no estimate.
 *
 * The pure functions (Step, PredictMissing, Run) are the specification;
 * the class BallTracker updates its fields in place as the source does and
 * is proved to follow them.
 */
module BallTracking {
  import opened Wrappers
  import opened Geometry
  import opened Frames
  import opened Scans

  /** Default history length and missed-frame threshold. */
  const MaxHistory: int := 5
  const MaxMissedThreshold: int := 5

  /** The record emitted for one frame: the detector box and the ball centre, each possibly absent. */
  datatype FrameRecord = FrameRecord(bbox: Option<BBox>, center: Option<Point>)

  const NoEstimate: FrameRecord := FrameRecord(None, None)

  /**
   * The three record shapes: a real detection carries its box and that
   * box's centre; a held or predicted position carries a centre only;
   * or there is no estimate at all. A box without a centre never occurs.
   */
  predicate WellShaped(r: FrameRecord) {
    r.bbox.Some? ==> r.center == Some(Center(r.bbox.value))
  }

  /** A history length of at least one entry. */
  type HistoryLength = n: int | n >= 1 witness 1

  /** The tracker's tunables and the frame size the prediction must stay within. */
  datatype TrackerConfig = TrackerConfig(maxHistory: HistoryLength, maxMissedThreshold: int, frameWidth: int, frameHeight: int)

  /** The tracker's mutable state: centres in temporal order (oldest first) and the missed-frame counter. */
  datatype TrackerState = TrackerState(history: seq<Point>, missed: nat)

  /** One frame's effect: the state afterwards and the record emitted. */
  datatype Transition = Transition(state: TrackerState, record: FrameRecord)

  /** The newest history entry. */
  function Last(h: seq<Point>): Point
    requires |h| > 0
  {
    h[|h| - 1]
  }

  /** Appends a centre, first evicting the oldest entry when the history is full. */
  function Push(h: seq<Point>, p: Point, maxHistory: HistoryLength): seq<Point>
  {
    if |h| >= maxHistory then h[1..] + [p] else h + [p]
  }

  /**
   * The pushed centre is the newest entry; the entries before it are the
   * old history, minus its oldest entry when the history was full; a
   * history within the bound stays within it.
   */
  lemma PushFacts(h: seq<Point>, p: Point, maxHistory: HistoryLength)
    ensures var r := Push(h, p, maxHistory);
            && |r| > 0 && Last(r) == p
            && (|h| < maxHistory ==> r[..|r| - 1] == h)
            && (|h| >= maxHistory ==> r[..|r| - 1] == h[1..])
            && (|h| <= maxHistory ==> |r| <= maxHistory)
  {
    var r := Push(h, p, maxHistory);
    if |h| >= maxHistory {
      assert r[..|r| - 1] == h[1..];
    } else {
      assert r[..|r| - 1] == h;
    }
  }

  /** Single-step linear extrapolation: last position plus last displacement. */
  function Extrapolate(last: Point, prev: Point): Point
  {
    Point(last.x + (last.x - prev.x), last.y + (last.y - prev.y))
  }

  /** The frame bounds, inclusive at both ends. */
  predicate InFrame(c: TrackerConfig, p: Point) {
    0.0 <= p.x <= c.frameWidth as real && 0.0 <= p.y <= c.frameHeight as real
  }

  /**
   * What the tracker does when the detector found nothing, given a state
   * whose counter the caller has already raised: report nothing when the
   * counter has reached the threshold or there is no history (raising the
   * counter again), hold the only entry, or extrapolate from the last two
   * and keep the prediction only when it lies within the frame.
   */
  function PredictMissing(c: TrackerConfig, s: TrackerState): Transition
  {
    if s.missed >= c.maxMissedThreshold || |s.history| < 1 then
      Transition(TrackerState(s.history, s.missed + 1), NoEstimate)
    else if |s.history| == 1 then
      Transition(s, FrameRecord(None, Some(Last(s.history))))
    else
      var p := Extrapolate(s.history[|s.history| - 1], s.history[|s.history| - 2]);
      if InFrame(c, p) then
        Transition(TrackerState(Push(s.history, p, c.maxHistory), s.missed), FrameRecord(None, Some(p)))
      else
        Transition(TrackerState(s.history, s.missed + 1), NoEstimate)
  }

  /**
   * The miss fallback never yields a box. It yields no centre exactly when
   * it raises the counter again; a centre needs the (already raised) counter
   * below the threshold and is then the newest history entry. History
   * changes only by pushing that centre, and stays within max_history.
   */
  lemma PredictMissingFacts(c: TrackerConfig, s: TrackerState)
    ensures var t := PredictMissing(c, s);
            && t.record.bbox.None?
            && (t.record.center.None? <==> t.state.missed == s.missed + 1)
            && (t.record.center.Some? ==> t.state.missed == s.missed < c.maxMissedThreshold)
            && (t.record.center.Some? ==> |t.state.history| > 0 && Last(t.state.history) == t.record.center.value)
            && (t.state.history == s.history || (t.record.center.Some? && t.state.history == Push(s.history, t.record.center.value, c.maxHistory)))
            && (|s.history| <= c.maxHistory ==> |t.state.history| <= c.maxHistory)
  {
    if |s.history| >= 2 {
      PushFacts(s.history, Extrapolate(s.history[|s.history| - 1], s.history[|s.history| - 2]), c.maxHistory);
    }
  }

  /**
   * One frame: a real detection resets the counter and records its centre;
   * a miss raises the counter by one and then falls back on PredictMissing.
   */
  function Step(c: TrackerConfig, s: TrackerState, det: Option<BBox>): Transition
  {
    match det
    case Some(b) =>
      Transition(TrackerState(Push(s.history, Center(b), c.maxHistory), 0), FrameRecord(Some(b), Some(Center(b))))
    case None =>
      PredictMissing(c, TrackerState(s.history, s.missed + 1))
  }

  /**
   * Every frame: the record's box is the detection and the record has one
   * of the three shapes; the counter is 0 afterwards exactly on a detection,
   * and a miss raises it by 1 or 2 (by exactly 1 when it yields a centre,
   * which needs the raised counter below the threshold). An emitted centre
   * is the newest history entry; history changes only by a FIFO push of the
   * emitted centre and stays within max_history.
   */
  lemma StepFacts(c: TrackerConfig, s: TrackerState, det: Option<BBox>)
    ensures var t := Step(c, s, det);
            && t.record.bbox == det
            && WellShaped(t.record)
            && (t.state.missed == 0 <==> det.Some?)
            && (det.None? ==> s.missed < t.state.missed <= s.missed + 2)
            && (det.None? && t.record.center.Some? ==> s.missed + 1 < c.maxMissedThreshold && t.state.missed == s.missed + 1)
            && (t.record.center.Some? ==> |t.state.history| > 0 && Last(t.state.history) == t.record.center.value)
            && (t.state.history == s.history || (t.record.center.Some? && t.state.history == Push(s.history, t.record.center.value, c.maxHistory)))
            && (|s.history| <= c.maxHistory ==> |t.state.history| <= c.maxHistory)
  {
    match det
    case None => PredictMissingFacts(c, TrackerState(s.history, s.missed + 1));
    case Some(b) => PushFacts(s.history, Center(b), c.maxHistory);
  }

  /** Step as a function from (state, detector output) to (next state, record). */
  function StepFn(c: TrackerConfig): (TrackerState, Option<BBox>) -> (TrackerState, FrameRecord) {
    (s: TrackerState, det: Option<BBox>) => var t := Step(c, s, det); (t.state, t.record)
  }

  /** The tracker run over a sequence of per-frame detector outputs: final state and one record per frame. */
  function Run(c: TrackerConfig, s: TrackerState, dets: seq<Option<BBox>>): Scanned<TrackerState, FrameRecord> {
    Scan(StepFn(c), s, dets)
  }

  /** A run of k frames in which the detector finds nothing. */
  function Misses(k: nat): seq<Option<BBox>>
  {
    seq(k, _ => None)
  }

  // ---------------------------------------------------------------------
  // One frame, case by case

  /** Cold miss: with no history a miss yields no centre and raises the counter by 2. */
  lemma ColdMiss(c: TrackerConfig, s: TrackerState)
    requires s.history == []
    ensures Step(c, s, None) == Transition(TrackerState([], s.missed + 2), NoEstimate)
  {
  }

  /** Exhausted miss: once the raised counter reaches the threshold a miss yields nothing and raises it by 2. */
  lemma ExhaustedMiss(c: TrackerConfig, s: TrackerState)
    requires s.missed + 1 >= c.maxMissedThreshold
    ensures Step(c, s, None) == Transition(TrackerState(s.history, s.missed + 2), NoEstimate)
  {
  }

  /** Singleton miss: a single entry below the threshold is held; history is unchanged and the counter rises by 1. */
  lemma SingletonMiss(c: TrackerConfig, s: TrackerState)
    requires |s.history| == 1 && s.missed + 1 < c.maxMissedThreshold
    ensures Step(c, s, None) == Transition(TrackerState(s.history, s.missed + 1), FrameRecord(None, Some(s.history[0])))
  {
  }

  /**
   * Tracking miss: with two or more entries below the threshold the
   * prediction last + (last - prev) is emitted exactly when it lies within
   * the frame; then it joins the history and the counter rises by 1,
   * otherwise the history stays and the counter rises by 2.
   */
  lemma TrackingMiss(c: TrackerConfig, s: TrackerState)
    requires |s.history| >= 2 && s.missed + 1 < c.maxMissedThreshold
    ensures var h := s.history;
            var last, prev := h[|h| - 1], h[|h| - 2];
            var p := Point(last.x + (last.x - prev.x), last.y + (last.y - prev.y));
            var t := Step(c, s, None);
            && (t.record.center.Some? <==> 0.0 <= p.x <= c.frameWidth as real && 0.0 <= p.y <= c.frameHeight as real)
            && (t.record.center.Some? ==> t == Transition(TrackerState(Push(h, p, c.maxHistory), s.missed + 1), FrameRecord(None, Some(p))))
            && (t.record.center.None? ==> t == Transition(TrackerState(h, s.missed + 2), NoEstimate))
  {
  }

  /**
   * The velocity carries over: from history [.., prev, last] and v = last - prev,
   * a tracking miss below the threshold emits last + v when that is in the
   * frame; the prediction joins the history, so a second miss, still below
   * the threshold, emits last + 2v exactly when that is in the frame.
   */
  lemma VelocityCarriesOver(c: TrackerConfig, s: TrackerState)
    requires |s.history| >= 2 && s.missed + 2 < c.maxMissedThreshold
    ensures var h := s.history;
            var last, prev := h[|h| - 1], h[|h| - 2];
            var v := Point(last.x - prev.x, last.y - prev.y);
            var p1 := Point(last.x + v.x, last.y + v.y);
            var p2 := Point(last.x + 2.0 * v.x, last.y + 2.0 * v.y);
            var t1 := Step(c, s, None);
            var t2 := Step(c, t1.state, None);
            InFrame(c, p1) ==>
              && t1.record.center == Some(p1)
              && (t2.record.center.Some? <==> InFrame(c, p2))
              && (InFrame(c, p2) ==> t2.record.center == Some(p2))
  {
    var h := s.history;
    var last, prev := h[|h| - 1], h[|h| - 2];
    var p1 := Extrapolate(last, prev);
    TrackingMiss(c, s);
    if InFrame(c, p1) {
      var t1 := Step(c, s, None);
      var h1 := Push(h, p1, c.maxHistory);
      PushFacts(h, p1, c.maxHistory);
      assert t1.state == TrackerState(h1, s.missed + 1);
      assert h1[|h1| - 2] == h1[..|h1| - 1][|h1| - 2];
      assert h1[|h1| - 2] == last;
      TrackingMiss(c, t1.state);
    }
  }

  /** A real detection: counter 0, its centre is the newest entry, the record carries box and centre. */
  lemma Detection(c: TrackerConfig, s: TrackerState, b: BBox)
    ensures var t := Step(c, s, Some(b));
            && t.state.missed == 0
            && t.state.history == Push(s.history, Center(b), c.maxHistory)
            && t.record == FrameRecord(Some(b), Some(Center(b)))
  {
  }

  /**
   * A miss that yields no estimate is followed, if the next frame is also
   * a miss, by another miss without estimate: the blank state persists.
   */
  lemma NoEstimatePersists(c: TrackerConfig, s: TrackerState)
    requires Step(c, s, None).record.center.None?
    ensures Step(c, Step(c, s, None).state, None).record.center.None?
  {
    var s1 := Step(c, s, None).state;
    StepFacts(c, s, None);
    StepFacts(c, s1, None);
    if s.missed + 1 < c.maxMissedThreshold && |s.history| >= 2 {
      assert s1.history == s.history;
    }
  }

  // ---------------------------------------------------------------------
  // Whole runs

  /** Extending a run by one frame is one more Step. */
  lemma RunNext(c: TrackerConfig, s: TrackerState, dets: seq<Option<BBox>>, i: nat)
    requires i < |dets|
    ensures var before := Run(c, s, dets[..i]);
            var t := Step(c, before.state, dets[i]);
            Run(c, s, dets[..i + 1]) == Scanned(t.state, before.outs + [t.record])
  {
    ScanNext(StepFn(c), s, dets, i);
  }

  /** Record i of a run is what Step emits on frame i from the state the first i frames left. */
  lemma RunRecordAt(c: TrackerConfig, s: TrackerState, dets: seq<Option<BBox>>, i: nat)
    requires i < |dets|
    ensures Run(c, s, dets).outs[i] == Step(c, Run(c, s, dets[..i]).state, dets[i]).record
  {
    ScanAt(StepFn(c), s, dets, i);
  }

  /** Every record has one of the three shapes, and it carries a box exactly on frames with a detection. */
  lemma RunRecordsShape(c: TrackerConfig, s: TrackerState, dets: seq<Option<BBox>>, i: nat)
    requires i < |dets|
    ensures WellShaped(Run(c, s, dets).outs[i])
    ensures Run(c, s, dets).outs[i].bbox == dets[i]
  {
    RunRecordAt(c, s, dets, i);
    StepFacts(c, Run(c, s, dets[..i]).state, dets[i]);
  }

  /** The counter is 0 after frame i exactly when frame i had a real detection. */
  lemma RunResetsOnDetection(c: TrackerConfig, s: TrackerState, dets: seq<Option<BBox>>, i: nat)
    requires i < |dets|
    ensures Run(c, s, dets[..i + 1]).state.missed == 0 <==> dets[i].Some?
  {
    RunNext(c, s, dets, i);
    StepFacts(c, Run(c, s, dets[..i]).state, dets[i]);
  }

  /** Starting within the bound (in particular from an empty history), the history never exceeds max_history. */
  lemma {:induction false} RunKeepsHistoryBound(c: TrackerConfig, s: TrackerState, dets: seq<Option<BBox>>)
    requires |s.history| <= c.maxHistory
    ensures |Run(c, s, dets).state.history| <= c.maxHistory
    decreases |dets|
  {
    if dets != [] {
      var n := |dets|;
      RunKeepsHistoryBound(c, s, dets[..n - 1]);
      RunNext(c, s, dets, n - 1);
      StepFacts(c, Run(c, s, dets[..n - 1]).state, dets[n - 1]);
      assert dets[..n] == dets;
    }
  }

  /** Each consecutive miss raises the counter by at least one. */
  lemma {:induction false} MissesRaiseCounter(c: TrackerConfig, s: TrackerState, k: nat)
    ensures Run(c, s, Misses(k)).state.missed >= s.missed + k
  {
    if k > 0 {
      MissesRaiseCounter(c, s, k - 1);
      RunNext(c, s, Misses(k), k - 1);
      assert Misses(k)[..k - 1] == Misses(k - 1);
      StepFacts(c, Run(c, s, Misses(k - 1)).state, None);
      assert Misses(k)[..k] == Misses(k);
    }
  }

  /** In a run of misses, miss i (counting from 0) yields a centre only if s.missed + i + 1 is below the threshold. */
  lemma MissCentreBelowThreshold(c: TrackerConfig, s: TrackerState, k: nat, i: nat)
    requires i < k
    requires Run(c, s, Misses(k)).outs[i].center.Some?
    ensures s.missed + i + 1 < c.maxMissedThreshold
  {
    RunRecordAt(c, s, Misses(k), i);
    assert Misses(k)[..i] == Misses(i);
    MissesRaiseCounter(c, s, i);
    StepFacts(c, Run(c, s, Misses(i)).state, None);
  }

  /** In a run of misses, once one miss yields no centre, every later miss yields none. */
  lemma {:induction false} MissesStayBlank(c: TrackerConfig, s: TrackerState, k: nat, i: nat, j: nat)
    requires i <= j < k
    requires Run(c, s, Misses(k)).outs[i].center.None?
    ensures Run(c, s, Misses(k)).outs[j].center.None?
    decreases j - i
  {
    if i < j {
      MissesStayBlank(c, s, k, i, j - 1);
      var m := Misses(k);
      RunRecordAt(c, s, m, j - 1);
      RunRecordAt(c, s, m, j);
      RunNext(c, s, m, j - 1);
      var sj := Run(c, s, m[..j - 1]).state;
      assert m[j - 1] == None && m[j] == None;
      NoEstimatePersists(c, sj);
    }
  }

  /**
   * After a real detection, at most max_missed_threshold - 1 consecutive
   * misses yield a centre: frame i of detection-then-k-misses (the
   * detection is frame 0) carries a centre only if i < max_missed_threshold.
   */
  lemma CentresAfterDetection(c: TrackerConfig, s: TrackerState, b: BBox, k: nat, i: nat)
    requires 1 <= i <= k
    requires Run(c, s, [Some(b)] + Misses(k)).outs[i].center.Some?
    ensures i < c.maxMissedThreshold
  {
    ScanAppend(StepFn(c), s, [Some(b)], Misses(k));
    var rd := Run(c, s, [Some(b)]);
    RunNext(c, s, [Some(b)], 0);
    assert [Some(b)][..1] == [Some(b)];
    assert rd.state == Step(c, s, Some(b)).state;
    StepFacts(c, s, Some(b));
    assert |rd.outs| == 1;
    assert Run(c, rd.state, Misses(k)).outs[i - 1].center.Some?;
    MissCentreBelowThreshold(c, rd.state, k, i - 1);
  }

  // ---------------------------------------------------------------------
  // Worked scenarios

  /** History [(0,0), (1,1)] and a miss: the prediction is (2,2). */
  lemma ExtrapolationExample()
    ensures Step(TrackerConfig(MaxHistory, MaxMissedThreshold, 640, 640),
                 TrackerState([Point(0.0, 0.0), Point(1.0, 1.0)], 0), None).record
         == FrameRecord(None, Some(Point(2.0, 2.0)))
  {
  }

  /** In a 10 x 10 frame, (10,10) is accepted (bounds are inclusive) and the next prediction (11,11) is rejected. */
  lemma BoundaryExample()
    ensures var c := TrackerConfig(MaxHistory, MaxMissedThreshold, 10, 10);
            var t1 := Step(c, TrackerState([Point(8.0, 8.0), Point(9.0, 9.0)], 0), None);
            var t2 := Step(c, t1.state, None);
            && t1 == Transition(TrackerState([Point(8.0, 8.0), Point(9.0, 9.0), Point(10.0, 10.0)], 1),
                                FrameRecord(None, Some(Point(10.0, 10.0))))
            && t2 == Transition(TrackerState(t1.state.history, 3), NoEstimate)
  {
  }

  // ---------------------------------------------------------------------
  // The tracker object

  class BallTracker {
    const maxHistory: HistoryLength
    const maxMissedThreshold: int
    const frameWidth: int
    const frameHeight: int
    /** Ball centres, oldest first. */
    var history: seq<Point>
    /** Raised on every miss, and once more on a miss with no estimate; reset to 0 on a real detection. */
    var missedFrameCount: nat
    /** The ball dataset: frame index to that frame's record. */
    var trackingData: map<int, FrameRecord>

    ghost predicate Valid()
      reads this
    {
      |history| <= maxHistory
    }

    function Config(): TrackerConfig {
      TrackerConfig(maxHistory, maxMissedThreshold, frameWidth, frameHeight)
    }

    function State(): TrackerState
      reads this
    {
      TrackerState(history, missedFrameCount)
    }

    constructor (maxHistory: HistoryLength, maxMissedThreshold: int, frameWidth: int, frameHeight: int)
      ensures Valid()
      ensures Config() == TrackerConfig(maxHistory, maxMissedThreshold, frameWidth, frameHeight)
      ensures history == [] && missedFrameCount == 0 && trackingData == map[]
    {
      this.maxHistory := maxHistory;
      this.maxMissedThreshold := maxMissedThreshold;
      this.frameWidth := frameWidth;
      this.frameHeight := frameHeight;
      history := [];
      missedFrameCount := 0;
      trackingData := map[];
    }

    /** The miss fallback; the caller has already raised the counter. */
    method PredictMissingFrame() returns (rec: FrameRecord)
      requires Valid()
      modifies this
      ensures Valid()
      ensures Transition(State(), rec) == PredictMissing(Config(), old(State()))
      ensures trackingData == old(trackingData)
    {
      if missedFrameCount >= maxMissedThreshold || |history| < 1 {
        missedFrameCount := missedFrameCount + 1;
        return NoEstimate;
      }

      if |history| == 1 {
        return FrameRecord(None, Some(history[|history| - 1]));
      }

      var lastPos, prevPos := history[|history| - 1], history[|history| - 2];
      var velocity := (lastPos.x - prevPos.x, lastPos.y - prevPos.y);
      var predicted := Point(lastPos.x + velocity.0, lastPos.y + velocity.1);

      assert predicted == Extrapolate(lastPos, prevPos);
      if 0.0 <= predicted.x <= frameWidth as real && 0.0 <= predicted.y <= frameHeight as real {
        ghost var pushed := Push(history, predicted, maxHistory);
        PushFacts(history, predicted, maxHistory);
        if |history| >= maxHistory {
          history := history[1..];
        }
        history := history + [predicted];
        assert history == pushed;
        return FrameRecord(None, Some(predicted));
      }

      missedFrameCount := missedFrameCount + 1;
      return NoEstimate;
    }

    /** One frame, given the detector's best box for it or None. */
    method DetectBall(det: Option<BBox>) returns (rec: FrameRecord)
      requires Valid()
      modifies this
      ensures Valid()
      ensures Transition(State(), rec) == Step(Config(), old(State()), det)
      ensures trackingData == old(trackingData)
    {
      ghost var s0 := State();
      if det.Some? {
        var bbox := det.value;
        var center := Point((bbox.x1 + bbox.x2) / 2.0, (bbox.y1 + bbox.y2) / 2.0);
        missedFrameCount := 0;
        ghost var pushed := Push(history, center, maxHistory);
        PushFacts(history, center, maxHistory);
        if |history| >= maxHistory {
          history := history[1..];
        }
        history := history + [center];
        assert history == pushed;
        return FrameRecord(Some(bbox), Some(center));
      }

      missedFrameCount := missedFrameCount + 1;
      assert Step(Config(), s0, det) == PredictMissing(Config(), State());
      rec := PredictMissingFrame();
    }

    /** The frame loop: one record per frame, stored under frame indices 0, 1, 2, ... */
    method ProcessVideo(frames: seq<Option<BBox>>) returns (data: map<int, FrameRecord>)
      requires Valid()
      modifies this
      ensures Valid()
      ensures State() == Run(Config(), old(State()), frames).state
      ensures Filled(old(trackingData), trackingData, Run(Config(), old(State()), frames).outs)
      ensures data == trackingData
    {
      var frameId := 0;
      while frameId < |frames|
        invariant 0 <= frameId <= |frames|
        invariant Valid()
        invariant State() == Run(Config(), old(State()), frames[..frameId]).state
        invariant Filled(old(trackingData), trackingData, Run(Config(), old(State()), frames[..frameId]).outs)
      {
        ghost var before := Run(Config(), old(State()), frames[..frameId]);
        RunNext(Config(), old(State()), frames, frameId);
        StepFacts(Config(), before.state, frames[frameId]);
        var rec := DetectBall(frames[frameId]);
        FilledNext(old(trackingData), trackingData, before.outs, rec);
        trackingData := trackingData[frameId := rec];
        frameId := frameId + 1;
      }
      assert frames[..frameId] == frames;
      data := trackingData;
    }
  }
}
