/**
 * Running a per-frame step function over a sequence of inputs, in order,
 * threading the state and collecting one output per input: the shape of
 * every frame loop that carries state from one frame to the next.
 */
module Scans {
  /** The state after the whole sequence and the outputs, one per input. */
  datatype Scanned<S, O> = Scanned(state: S, outs: seq<O>)

  /** Applies f to each input in turn; f returns the next state and that input's output. */
  function Scan<S, I, O>(f: (S, I) -> (S, O), s: S, xs: seq<I>): (r: Scanned<S, O>)
    ensures |r.outs| == |xs|
    decreases |xs|
  {
    if xs == [] then Scanned(s, [])
    else
      var before := Scan(f, s, xs[..|xs| - 1]);
      var t := f(before.state, xs[|xs| - 1]);
      Scanned(t.0, before.outs + [t.1])
  }

  /** Extending the inputs by one is one more application of f. */
  lemma ScanNext<S, I, O>(f: (S, I) -> (S, O), s: S, xs: seq<I>, i: nat)
    requires i < |xs|
    ensures var before := Scan(f, s, xs[..i]);
            var t := f(before.state, xs[i]);
            Scan(f, s, xs[..i + 1]) == Scanned(t.0, before.outs + [t.1])
  {
    assert xs[..i + 1][..i] == xs[..i];
  }

  /** Output i is what f yields on input i from the state the first i inputs left. */
  lemma {:induction false} ScanAt<S, I, O>(f: (S, I) -> (S, O), s: S, xs: seq<I>, i: nat)
    requires i < |xs|
    ensures Scan(f, s, xs).outs[i] == f(Scan(f, s, xs[..i]).state, xs[i]).1
    decreases |xs|
  {
    var n := |xs|;
    var init := xs[..n - 1];
    if i < n - 1 {
      ScanAt(f, s, init, i);
      assert init[..i] == xs[..i] && init[i] == xs[i];
    } else {
      assert init == xs[..i];
    }
  }

  /** Scanning a + b is scanning a and then scanning b from where a ended. */
  lemma {:induction false} ScanAppend<S, I, O>(f: (S, I) -> (S, O), s: S, a: seq<I>, b: seq<I>)
    ensures var ra := Scan(f, s, a);
            var rb := Scan(f, ra.state, b);
            Scan(f, s, a + b) == Scanned(rb.state, ra.outs + rb.outs)
    decreases |b|
  {
    if b == [] {
      assert a + b == a;
    } else {
      var b' := b[..|b| - 1];
      ScanAppend(f, s, a, b');
      assert (a + b)[..|a + b| - 1] == a + b';
      assert (a + b)[|a + b| - 1] == b[|b| - 1];
    }
  }
}
