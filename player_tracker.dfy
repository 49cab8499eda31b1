/**
 * The player tracker's post-filter: from the external multi-object
 * tracker's boxes and identities for one frame, keep those whose foot
 * position is in the field, keyed by integer track id; and the frame loop
 * that stores one such mapping per frame.
 */
module PlayerTracking {
  import opened Wrappers
  import opened Geometry
  import opened ImgUtils
  import opened Frames

  /** What is stored for one player in one frame. */
  datatype PlayerEntry = PlayerEntry(bbox: BBox, center: Point)

  /**
   * The external tracker's result boxes for one frame: coordinates, track
   * identities (absent when the tracker assigned none) and confidences,
   * as parallel sequences.
   */
  datatype TrackedBoxes = TrackedBoxes(xyxy: seq<BBox>, id: Option<seq<real>>, conf: seq<real>)

  /** The mapping for one frame: integer track id to that player's box and centre. */
  type PlayerInfo = map<int, PlayerEntry>

  function Min(a: nat, b: nat): nat {
    if a < b then a else b
  }

  /** The number of (box, id, confidence) triples the zipped loop visits: the shortest of the three. */
  function ZipLength(xyxy: seq<BBox>, ids: seq<real>, conf: seq<real>): (n: nat)
    ensures n <= |xyxy| && n <= |ids| && n <= |conf|
    ensures n == |xyxy| || n == |ids| || n == |conf|
  {
    Min(Min(|xyxy|, |ids|), |conf|)
  }

  /** The entry recorded for a kept box: the box unchanged and its midpoint. */
  function Entry(b: BBox): PlayerEntry {
    PlayerEntry(b, Center(b))
  }

  /** Among the first n pairs, pair i is in the field and no later in-field pair has the same integer id. */
  predicate LastInFieldFor(mask: Mask, xyxy: seq<BBox>, ids: seq<real>, n: nat, i: int)
    requires n <= |xyxy| && n <= |ids|
  {
    && 0 <= i < n
    && FootInField(mask, xyxy[i])
    && forall j :: i < j < n && Trunc(ids[j]) == Trunc(ids[i]) ==> !FootInField(mask, xyxy[j])
  }

  /** The mapping the loop has built after the first n (box, id) pairs. */
  function PlayersUpTo(mask: Mask, xyxy: seq<BBox>, ids: seq<real>, n: nat): PlayerInfo
    requires n <= |xyxy| && n <= |ids|
  {
    if n == 0 then map[]
    else
      var m := PlayersUpTo(mask, xyxy, ids, n - 1);
      if FootInField(mask, xyxy[n - 1]) then m[Trunc(ids[n - 1]) := Entry(xyxy[n - 1])] else m
  }

  /** The keys after n pairs are exactly the integer ids of the in-field pairs among them. */
  lemma {:induction false} PlayersUpToKeys(mask: Mask, xyxy: seq<BBox>, ids: seq<real>, n: nat, k: int)
    requires n <= |xyxy| && n <= |ids|
    ensures k in PlayersUpTo(mask, xyxy, ids, n)
        <==> exists i :: 0 <= i < n && FootInField(mask, xyxy[i]) && Trunc(ids[i]) == k
  {
    if n > 0 {
      PlayersUpToKeys(mask, xyxy, ids, n - 1, k);
      if FootInField(mask, xyxy[n - 1]) && Trunc(ids[n - 1]) == k {
        assert k in PlayersUpTo(mask, xyxy, ids, n);
      } else {
        assert k in PlayersUpTo(mask, xyxy, ids, n) <==> k in PlayersUpTo(mask, xyxy, ids, n - 1);
        if k in PlayersUpTo(mask, xyxy, ids, n) {
          var i :| 0 <= i < n - 1 && FootInField(mask, xyxy[i]) && Trunc(ids[i]) == k;
        }
      }
    }
  }

  /** After n pairs, the id of in-field pair i holds pair i's entry when no later in-field pair shares that id. */
  lemma {:induction false} PlayersUpToLastWins(mask: Mask, xyxy: seq<BBox>, ids: seq<real>, n: nat, i: int)
    requires n <= |xyxy| && n <= |ids|
    requires LastInFieldFor(mask, xyxy, ids, n, i)
    ensures var m := PlayersUpTo(mask, xyxy, ids, n);
            Trunc(ids[i]) in m && m[Trunc(ids[i])] == Entry(xyxy[i])
  {
    if i < n - 1 {
      assert LastInFieldFor(mask, xyxy, ids, n - 1, i);
      PlayersUpToLastWins(mask, xyxy, ids, n - 1, i);
      assert !FootInField(mask, xyxy[n - 1]) || Trunc(ids[n - 1]) != Trunc(ids[i]);
    }
  }

  /** Post-filter of one frame's tracker result; empty when there are no boxes or no ids. */
  function FramePlayers(mask: Mask, result: Option<TrackedBoxes>): PlayerInfo {
    if result.Some? && result.value.id.Some? then
      var r := result.value;
      PlayersUpTo(mask, r.xyxy, r.id.value, ZipLength(r.xyxy, r.id.value, r.conf))
    else
      map[]
  }

  /**
   * Every kept entry comes from an in-field input pair with that integer
   * id, and stores that pair's box unchanged with the box's midpoint.
   */
  lemma KeptPlayersInField(mask: Mask, result: Option<TrackedBoxes>, k: int)
    requires k in FramePlayers(mask, result)
    ensures result.Some? && result.value.id.Some?
    ensures var r := result.value;
            var ids := r.id.value;
            exists i :: 0 <= i < ZipLength(r.xyxy, ids, r.conf)
                        && Trunc(ids[i]) == k
                        && FootInField(mask, r.xyxy[i])
                        && FramePlayers(mask, result)[k] == PlayerEntry(r.xyxy[i], Center(r.xyxy[i]))
  {
    var r := result.value;
    var ids := r.id.value;
    var n := ZipLength(r.xyxy, ids, r.conf);
    PlayersUpToKeys(mask, r.xyxy, ids, n, k);
    var i :| 0 <= i < n && FootInField(mask, r.xyxy[i]) && Trunc(ids[i]) == k;
    var w := LastWith(mask, r.xyxy, ids, n, i);
    PlayersUpToLastWins(mask, r.xyxy, ids, n, w);
  }

  /** The last in-field pair whose integer id equals that of in-field pair i. */
  lemma {:induction false} LastWith(mask: Mask, xyxy: seq<BBox>, ids: seq<real>, n: nat, i: int) returns (w: int)
    requires n <= |xyxy| && n <= |ids|
    requires 0 <= i < n && FootInField(mask, xyxy[i])
    ensures LastInFieldFor(mask, xyxy, ids, n, w) && Trunc(ids[w]) == Trunc(ids[i])
    decreases n - i
  {
    if LastInFieldFor(mask, xyxy, ids, n, i) {
      w := i;
    } else {
      var j :| i < j < n && Trunc(ids[j]) == Trunc(ids[i]) && FootInField(mask, xyxy[j]);
      w := LastWith(mask, xyxy, ids, n, j);
    }
  }

  /** Without boxes, or without track identities, the frame's mapping is empty. */
  lemma NoBoxesNoPlayers(mask: Mask, result: Option<TrackedBoxes>)
    requires result.None? || result.value.id.None?
    ensures FramePlayers(mask, result) == map[]
  {
  }

  /** The mapping of every frame of a video, in frame order. */
  function VideoPlayers(mask: Mask, frames: seq<Option<TrackedBoxes>>): seq<PlayerInfo>
  {
    seq(|frames|, i requires 0 <= i < |frames| => FramePlayers(mask, frames[i]))
  }

  class PlayerTracker {
    /** The field mask, fixed at construction. */
    const mask: Mask
    /** The player dataset: frame index to that frame's mapping. */
    var trackingData: map<int, PlayerInfo>

    constructor (mask: Mask)
      ensures this.mask == mask && trackingData == map[]
    {
      this.mask := mask;
      trackingData := map[];
    }

    /** One frame: filter the tracker's boxes by the mask at their foot position. */
    method DetectAndTrackPlayers(result: Option<TrackedBoxes>) returns (playerInfo: PlayerInfo)
      ensures playerInfo == FramePlayers(mask, result)
    {
      playerInfo := map[];
      if result.Some? && result.value.id.Some? {
        var boxes, trackIds, confidences := result.value.xyxy, result.value.id.value, result.value.conf;
        var n := ZipLength(boxes, trackIds, confidences);
        for i := 0 to n
          invariant playerInfo == PlayersUpTo(mask, boxes, trackIds, i)
        {
          var bbox := boxes[i];
          var center := Point((bbox.x1 + bbox.x2) / 2.0, (bbox.y1 + bbox.y2) / 2.0);
          var trackId := trackIds[i];
          var foot := FootPos(bbox);
          if mask(Trunc(foot.y - 1.0), Trunc(foot.x - 1.0)) == 0 {
            continue;
          }
          playerInfo := playerInfo[Trunc(trackId) := PlayerEntry(bbox, center)];
        }
      }
    }

    /** The frame loop: one mapping per frame, stored under frame indices 0, 1, 2, ... */
    method ProcessVideo(frames: seq<Option<TrackedBoxes>>) returns (data: map<int, PlayerInfo>)
      modifies this
      ensures Filled(old(trackingData), trackingData, VideoPlayers(mask, frames))
      ensures data == trackingData
    {
      ghost var all := VideoPlayers(mask, frames);
      var frameId := 0;
      while frameId < |frames|
        invariant 0 <= frameId <= |frames|
        invariant Filled(old(trackingData), trackingData, all[..frameId])
      {
        var playerInfo := DetectAndTrackPlayers(frames[frameId]);
        FilledNext(old(trackingData), trackingData, all[..frameId], playerInfo);
        assert all[..frameId] + [playerInfo] == all[..frameId + 1];
        trackingData := trackingData[frameId := playerInfo];
        frameId := frameId + 1;
      }
      assert all[..frameId] == all;
      data := trackingData;
    }
  }
}
