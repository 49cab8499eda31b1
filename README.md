# Volleyball ball tracker — a Dafny model

This project models the tracking core of a volleyball video pipeline.
The core has three parts.

- **Ball trajectory tracker** (`ball_tracker.dfy`, module `BallTracking`).
  It is a per-frame state machine with two pieces of state: a bounded FIFO
  history of ball centres and a missed-frame counter. On each frame it does
  one of three things. It accepts a real detection. It holds the only known
  position. Or it extrapolates linearly (`last + (last - prev)`) and keeps
  the prediction only inside the inclusive frame bounds. Once the counter
  reaches the missed-frame threshold, it reports no estimate. The pure
  functions `Step`, `PredictMissing` and `Run` are the specification. The
  class `BallTracker` changes `history`, `missedFrameCount` and
  `trackingData` in place, as the source does. Its methods are proved to
  follow those functions.
- **Player post-filter** (`player_tracker.dfy`, module `PlayerTracking`).
  From the external tracker's boxes and track ids, it keeps the boxes whose
  foot pixel is in the field. The result is keyed by integer track id.
- **Action post-filter** (`action_predictor.dfy`, module `ActionPrediction`).
  From the action detector's boxes and classes, it keeps the in-field pairs
  as two parallel lists.

The shared pieces are:

- `geometry.dfy`: points, boxes, the box midpoint, and Python's `int()` on floats.
- `img_utils.dfy`: the foot position, the binary threshold used to build the mask, and the in-field test.
- `frames.dfy`: the per-video dataset that every frame loop fills under frame indices `0 .. N-1`.
- `scans.dfy`: a generic left-to-right run of a per-frame step, which collects the state and one output per frame. The ball tracker's `Run` is one such run.
- `wrappers.dfy`: the `Option` type.

The detectors are inputs. The ball detector gives one `Option<BBox>` per
frame: its first box, or none. The player tracker gives an optional
`TrackedBoxes` per frame. The action detector gives an optional
`DetectedBoxes` per frame. Each `ProcessVideo` takes the sequence of these
per-frame outputs in place of the video. The field mask is an abstract
lookup `(row, column) -> pixel value`. Coordinates, track ids and class
labels are `real`.

Two details of the code shape the model:

- **Counter on a miss.** `detect_ball` always raises the counter before it
  calls `predict_missing_frame` (src/trackers/ball_tracker.py:74), and the
  fallback raises it once more when it reports no estimate.
  - A miss that holds the single entry raises it by 1 in total.
  - A miss that accepts a prediction also raises it by 1.
  - A cold, exhausted or out-of-bounds miss raises it by 2.
- **Mask lookup.** The code indexes `mask[int(fy-1), int(fx-1)]` directly,
  with no clamping of out-of-range coordinates. The model keeps the direct
  lookup and makes no claim about out-of-range indices.

## Model

| member | source | states |
|---|---|---|
| `Geometry.Center` | src/trackers/ball_tracker.py:64 | The centre is equidistant from both edges on each axis, so it lies inside any well-formed box. |
| `Geometry.Trunc` | src/trackers/player_tracker.py:81 | `int()` on a float truncates toward zero: `0 <= t <= r < t + 1` for `r >= 0`, and `t - 1 < r <= t <= 0` otherwise. |
| `ImgUtils.FootPos` | src/utils/img_utils.py:16-18 | The foot x is the box's centre x, so it lies between x1 and x2 when x1 <= x2. The foot y is y2. |
| `ImgUtils.FootPosIgnoresTop` | src/utils/img_utils.py:16-18 | The foot position does not depend on y1. |
| `ImgUtils.Threshold` | src/utils/img_utils.py:13 | A pixel becomes 255 exactly when it is above 127, and 0 otherwise. |
| `ImgUtils.Binarise` | src/utils/img_utils.py:13 | The grid keeps its dimensions, each pixel is thresholded, and every output pixel is 0 or 255. |
| `ImgUtils.BinaryIsFixed` | src/utils/img_utils.py:13 | Thresholding a grid that is already binary leaves it unchanged. |
| `ImgUtils.BinariseIdempotent` | src/utils/img_utils.py:13 | Thresholding twice equals thresholding once. |
| `ImgUtils.FootInField` | src/trackers/player_tracker.py:80-82 | The mask test shared by both post-filters (also src/predictors/action_predictor.py:77-79): the mask value at row `int(foot_y - 1)`, column `int(foot_x - 1)` is non-zero. Its uses are stated by `PlayersUpToKeys`, `KeptPlayersInField` and `KeptIndicesInField`/`KeptIndicesComplete`. |
| `Frames.FilledFromEmptyKeys` | src/trackers/ball_tracker.py:95-102 | A frame loop that starts from an empty dataset leaves keys exactly 0 .. N-1. |
| `BallTracking.Push` | src/trackers/ball_tracker.py:49-51 | The FIFO push, also used at lines 68-70. Its properties are stated by `PushFacts`. |
| `BallTracking.Extrapolate` | src/trackers/ball_tracker.py:42-44 | The linear extrapolation `last + (last - prev)`. Its effect is stated by `TrackingMiss`, `VelocityCarriesOver` and `ExtrapolationExample`. |
| `BallTracking.InFrame` | src/trackers/ball_tracker.py:47-48 | The inclusive frame-bounds test on a prediction. Its effect is stated by `TrackingMiss` and `BoundaryExample`. |
| `BallTracking.PredictMissing` | src/trackers/ball_tracker.py:31-55 | The miss fallback on a state whose counter is already raised. Its properties are stated by `PredictMissingFacts`, and case by case through `Step` by `ColdMiss`, `ExhaustedMiss`, `SingletonMiss` and `TrackingMiss`. |
| `BallTracking.PushFacts` | src/trackers/ball_tracker.py:49-51 | The new centre is the last entry. The entries before it are the old history, minus its oldest entry when the history was full. The bound max_history is kept. |
| `BallTracking.PredictMissingFacts` | src/trackers/ball_tracker.py:31-55 | The miss fallback never yields a box. It yields no centre exactly when it raises the counter again. A centre needs the raised counter below the threshold, and the centre is then the newest history entry. History changes only by pushing that centre, and its bound is kept. |
| `BallTracking.Step` | src/trackers/ball_tracker.py:57-75 | One frame of `detect_ball`. Its properties are stated by `StepFacts`, `Detection`, `ColdMiss`, `ExhaustedMiss`, `SingletonMiss`, `TrackingMiss`, `VelocityCarriesOver` and `NoEstimatePersists`. |
| `BallTracking.StepFacts` | src/trackers/ball_tracker.py:57-75 | The record's box is the detection. Every record has one of the three shapes. The counter is 0 after a frame exactly when the frame had a detection. A miss raises the counter by 1 or 2. A miss yields a centre only below the threshold, and then raises it by exactly 1. An emitted centre is the newest history entry. History changes only by a FIFO push of the emitted centre. The history bound is preserved. |
| `Scans.Scan` | src/trackers/ball_tracker.py:95-102 | The frame loop, read as a fold of a per-frame step over the frames, emits exactly one record per frame. |
| `Scans.ScanAt` | src/trackers/ball_tracker.py:95-102 | Record i is the step's output on frame i, from the state frames 0 .. i-1 left. |
| `Scans.ScanAppend` | src/trackers/ball_tracker.py:95-102 | Running over a + b equals running over a, then over b from the state a left. The records are concatenated. |
| `BallTracking.Run` | src/trackers/ball_tracker.py:95-102 | The frame loop as a fold of `Step` over the detector outputs. Its properties are stated by `Scans.Scan`, `RunRecordAt`, `RunRecordsShape`, `RunResetsOnDetection`, `RunKeepsHistoryBound` and the miss-run lemmas below. |
| `BallTracking.Detection` | src/trackers/ball_tracker.py:61-71 | A real detection sets the counter to 0 and FIFO-pushes the box midpoint. The record holds both the box and the midpoint. |
| `BallTracking.ColdMiss` | src/trackers/ball_tracker.py:33-35 | With empty history, a miss yields no estimate, leaves history empty and raises the counter by 2. |
| `BallTracking.ExhaustedMiss` | src/trackers/ball_tracker.py:33-35 | When the raised counter has reached the threshold, a miss yields no estimate, keeps history and raises the counter by 2. |
| `BallTracking.SingletonMiss` | src/trackers/ball_tracker.py:38-39 | With one entry and the raised counter below the threshold, a miss returns that entry as the centre, keeps history and raises the counter by 1. |
| `BallTracking.TrackingMiss` | src/trackers/ball_tracker.py:42-55 | With at least two entries and the raised counter below the threshold, `last + (last - prev)` is emitted exactly when it lies inside the inclusive frame bounds. If it is emitted, it is FIFO-pushed and the counter rises by 1. If not, history is kept and the counter rises by 2. |
| `BallTracking.VelocityCarriesOver` | src/trackers/ball_tracker.py:42-52 | From history `[.., prev, last]` with `v = last - prev`, two misses below the threshold emit `last + v` (when in the frame) and then `last + 2v` exactly when that is in the frame, because the accepted prediction joins the history. |
| `BallTracking.NoEstimatePersists` | src/trackers/ball_tracker.py:31-55 | A miss with no estimate leaves a state in which the next miss also has no estimate. |
| `BallTracking.RunRecordAt` | src/trackers/ball_tracker.py:95-102 | Entry i of the run is the record Step emits on frame i, from the state frames 0 .. i-1 left. |
| `BallTracking.RunRecordsShape` | src/trackers/ball_tracker.py:57-75 | Every record of a run has one of the three shapes. It carries a box exactly on the frames with a real detection, and that box is the detection. |
| `BallTracking.RunResetsOnDetection` | src/trackers/ball_tracker.py:67-74 | After frame i the counter is 0 exactly when frame i had a real detection. |
| `BallTracking.RunKeepsHistoryBound` | src/trackers/ball_tracker.py:49-70 | A run that starts within max_history, in particular from empty history, stays within it. |
| `BallTracking.MissesRaiseCounter` | src/trackers/ball_tracker.py:33-74 | k consecutive misses raise the counter by at least k. |
| `BallTracking.MissCentreBelowThreshold` | src/trackers/ball_tracker.py:33-35 | In a run of misses, miss i (counted from 0) yields a centre only if old count + i + 1 is below the threshold. |
| `BallTracking.MissesStayBlank` | src/trackers/ball_tracker.py:31-55 | In a run of misses, once one miss yields no centre, every later one yields none. |
| `BallTracking.CentresAfterDetection` | src/trackers/ball_tracker.py:67-74 | After a detection, the i-th following miss yields a centre only if i < max_missed_threshold. So at most threshold - 1 misses yield a centre. |
| `BallTracking.ExtrapolationExample` | src/trackers/ball_tracker.py:42-44 | History [(0,0), (1,1)] and a miss predict (2,2). |
| `BallTracking.BoundaryExample` | src/trackers/ball_tracker.py:47-55 | In a 10 x 10 frame, (10,10) is accepted because the bounds are inclusive. The next prediction, (11,11), is rejected, with no estimate and the counter at 3. |
| `BallTracking.BallTracker.constructor` | src/trackers/ball_tracker.py:14-26 | The tracker starts with empty history, counter 0 and an empty dataset. |
| `BallTracking.BallTracker.PredictMissingFrame` | src/trackers/ball_tracker.py:31-55 | The in-place fallback leaves exactly the state and record of `PredictMissing` on the old state. |
| `BallTracking.BallTracker.DetectBall` | src/trackers/ball_tracker.py:57-75 | The in-place frame step leaves exactly the state and record of `Step` on the old state, and keeps the history bound. |
| `BallTracking.BallTracker.ProcessVideo` | src/trackers/ball_tracker.py:95-102 | Frame i's record is stored under key i, equal to `Run`'s record i, and other keys are untouched. The final state is `Run`'s. |
| `PlayerTracking.ZipLength` | src/trackers/player_tracker.py:74 | The zipped loop visits as many triples as the shortest of boxes, ids and confidences. |
| `PlayerTracking.PlayersUpTo` | src/trackers/player_tracker.py:74-87 | The mapping after the first n triples of the filtering loop. Its keys and values are stated by `PlayersUpToKeys` and `PlayersUpToLastWins`. |
| `PlayerTracking.FramePlayers` | src/trackers/player_tracker.py:67-89 | One frame's mapping. Its properties are stated by `KeptPlayersInField` and `NoBoxesNoPlayers`. |
| `PlayerTracking.VideoPlayers` | src/trackers/player_tracker.py:37-46 | The mappings the frame loop stores, one per frame. Its effect is stated by `PlayerTracking.PlayerTracker.ProcessVideo` and `Frames.FilledFromEmptyKeys`. |
| `PlayerTracking.PlayersUpToKeys` | src/trackers/player_tracker.py:74-88 | The keys are exactly the integer ids of the in-field pairs. |
| `PlayerTracking.PlayersUpToLastWins` | src/trackers/player_tracker.py:84-87 | When an id repeats, the last in-field pair with that id is the one stored. |
| `PlayerTracking.KeptPlayersInField` | src/trackers/player_tracker.py:74-87 | Every kept entry comes from an in-field input pair with that integer id. It stores that pair's box unchanged and the box midpoint. |
| `PlayerTracking.NoBoxesNoPlayers` | src/trackers/player_tracker.py:68-69 | If boxes or ids are absent, the frame's mapping is empty. |
| `PlayerTracking.PlayerTracker.constructor` | src/trackers/player_tracker.py:10-17 | The tracker keeps the given mask and starts with an empty dataset. |
| `PlayerTracking.PlayerTracker.DetectAndTrackPlayers` | src/trackers/player_tracker.py:57-89 | The filtering loop returns exactly `FramePlayers`, whose keys and values the lemmas above describe. |
| `PlayerTracking.PlayerTracker.ProcessVideo` | src/trackers/player_tracker.py:31-46 | Frame i's mapping is stored under key i, and other keys are untouched. |
| `ActionPrediction.ZipLength` | src/predictors/action_predictor.py:73 | The zipped loop visits as many pairs as the shorter of boxes and classes. |
| `ActionPrediction.KeptIndices` | src/predictors/action_predictor.py:73-84 | Every kept position is one the zipped loop visits. |
| `ActionPrediction.KeptIndicesInField` | src/predictors/action_predictor.py:76-81 | Every kept position holds a box whose foot position is in the field. |
| `ActionPrediction.KeptIndicesIncreasing` | src/predictors/action_predictor.py:73-84 | The kept positions are strictly increasing, so the input order is kept and no pair is kept twice. |
| `ActionPrediction.KeptIndicesComplete` | src/predictors/action_predictor.py:73-84 | A visited position is kept exactly when its box is in the field. |
| `ActionPrediction.FrameActions` | src/predictors/action_predictor.py:63-91 | One frame's record: the boxes and classes at the kept positions. Its properties are stated by `FrameActionsFacts` and `KeptPairsSubsequence`. |
| `ActionPrediction.FrameActionsFacts` | src/predictors/action_predictor.py:63-91 | The two lists have equal length and every kept box is in the field. When the boxes are absent, both lists are empty. |
| `ActionPrediction.KeptPairsSubsequence` | src/predictors/action_predictor.py:73-84 | The kept (box, class) pairs are an order-preserving subsequence of the input pairs, each class still paired with its own box. A pair is left out exactly when its box is out of the field. |
| `ActionPrediction.VideoActions` | src/predictors/action_predictor.py:43-53 | The records the frame loop stores, one per frame. Its effect is stated by `ActionPrediction.ActionPredictor.ProcessVideo` and `Frames.FilledFromEmptyKeys`. |
| `ActionPrediction.ActionPredictor.constructor` | src/predictors/action_predictor.py:15-28 | The predictor keeps the given mask and starts with an empty dataset. |
| `ActionPrediction.ActionPredictor.Predictor` | src/predictors/action_predictor.py:63-91 | The filtering loop, with its `continue`, returns exactly `FrameActions`. |
| `ActionPrediction.ActionPredictor.ProcessVideo` | src/predictors/action_predictor.py:38-52 | Frame i's record is stored under key i, and other keys are untouched. |

## Left out

- Detector calls: the ball detector's `predict`, the player tracker's `track` (it uses ByteTrack) and the action model call. They are foreign code, so their outputs are inputs here.
- Detector settings: the confidence threshold 0.30 and the inference size 640 or `frame_width` only parameterise those foreign calls.
- Ball detector output: it is modelled as the first box or none. The other boxes of `results[0].boxes` are never read by the source.
- Video and file I/O: `cv2.VideoCapture`, reading frames, `tqdm`, `os.makedirs` and the JSON load-if-exists shortcut at the top of every `process_video` are not modelled. Neither are `save_json_data` and its empty-data error.
- The `ValueError` raised when the ball video cannot be opened is I/O and is not modelled.
- Frame size: `frame_width`/`frame_height` are constructor parameters. The model does not overwrite them from the video's properties.
- Dataset wrapper: each dataset is modelled as its inner map. The wrapping key (`"ball"`, `"player"`, `"action"`) and the JSON form are left out.
- `load_mask`: reading the image, its missing-image error and the nearest-neighbour resize are image I/O. Only the threshold step is modelled, as `ImgUtils.Binarise`.
- Mask indexing: the mask is an abstract lookup, and `FootInField` models the in-range lookups exactly (a foot coordinate in (0, 2) gives index 0, which is in range). numpy's handling of out-of-range indices is not modelled: a foot coordinate in (-size, 0] gives an index in [-size, -1], which numpy wraps to the far edge; a coordinate <= -size or >= size + 1 makes numpy raise IndexError.
- Floating point: coordinates, ids and classes are exact reals. Float rounding of `/ 2` and of the sums is not modelled.
- Unused values: the action predictor computes a `center` it never uses. `frame_window` and `action_classes` are stored but never read. Neither is modelled. Player confidences only shorten the zipped loop, which `PlayerTracking.ZipLength` captures.
- `BallTracking.BallTracker.constructor`: takes `maxHistory` of type `HistoryLength`, which is at least 1. With `max_history <= 0`, the source calls `pop(0)` on an empty list at the first detection and raises IndexError. That crash path is not modelled.
- Not part of this model: `src/pipeline.py`, `src/heatmap.py`, `main.py`, `src/utils/io.py` and `src/utils/video_utils.py`. They cover rendering, the heatmap script, argument parsing and file/video I/O.
