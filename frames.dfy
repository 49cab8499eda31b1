/**
 * The per-video dataset every `process_video` loop fills: a map from
 * frame index to that frame's record, written once per frame, in order.
 */
module Frames {
  /**
   * `after` is `before` with the keys 0 .. |rs| - 1 set to the records `rs`
   * (frame i gets rs[i]) and every other key left as it was.
   */
  ghost predicate Filled<T>(before: map<int, T>, after: map<int, T>, rs: seq<T>) {
    && (forall k :: k in after <==> k in before || 0 <= k < |rs|)
    && (forall i :: 0 <= i < |rs| ==> after[i] == rs[i])
    && (forall k :: k in before && !(0 <= k < |rs|) ==> after[k] == before[k])
  }

  /** Writing the next frame's record at index |rs| extends a filled dataset by one frame. */
  lemma FilledNext<T>(before: map<int, T>, after: map<int, T>, rs: seq<T>, r: T)
    requires Filled(before, after, rs)
    ensures Filled(before, after[|rs| := r], rs + [r])
  {
  }

  /** Starting from an empty dataset, the frame indices are exactly 0 .. N - 1. */
  lemma FilledFromEmptyKeys<T>(after: map<int, T>, rs: seq<T>)
    requires Filled(map[], after, rs)
    ensures forall k :: k in after <==> 0 <= k < |rs|
  {
  }
}
