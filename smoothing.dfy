/**
 * Reference definitions for the sensor sample window and its smoothing
 * filter, stated on sequences: the smoothed series of a window, how many
 * outputs a processing pass keeps, the window after one insertion, and the
 * window after a whole stream of insertions. The class in module SensorData
 * is proved against these definitions.
 */
module Smoothing {

  function Min(a: int, b: int): int { if a <= b then a else b }

  function Max(a: int, b: int): int { if a <= b then b else a }

  /** One smoothing step: the new sample weighted by `alpha`, blended with the
      previous output weighted by `1 - alpha`. */
  function Blend(sample: real, previous: real, alpha: real): (r: real)
    ensures alpha == 1.0 ==> r == sample
    ensures alpha == 0.0 ==> r == previous
    ensures sample == previous ==> r == sample
  {
    sample * alpha + previous * (1.0 - alpha)
  }

  /** The single-pole exponential smoothing of `raw` with coefficient `alpha`:
      the first output is the first sample, every later output blends the
      current sample (weight alpha) with the previous output (weight 1 - alpha). */
  function Smoothed(raw: seq<real>, alpha: real): (r: seq<real>)
    ensures |r| == |raw|
    ensures |raw| > 0 ==> r[0] == raw[0]
    decreases |raw|
  {
    if |raw| <= 1 then raw
    else
      var p := Smoothed(raw[..|raw| - 1], alpha);
      p + [Blend(raw[|raw| - 1], p[|raw| - 2], alpha)]
  }

  /** The first `n` entries of `out` follow the smoothing recurrence over
      `raw`: the first one is the first sample, each later one is one
      smoothing step over its predecessor. */
  ghost predicate IsRecurrence(out: seq<real>, raw: seq<real>, n: nat, alpha: real)
  {
    && n <= |out| && n <= |raw|
    && (n > 0 ==> out[0] == raw[0])
    && forall j :: 1 <= j < n ==> out[j] == Blend(raw[j], out[j - 1], alpha)
  }

  /** Smoothing a prefix of the window gives the prefix of the smoothed window:
      each output depends only on the samples up to its own index. */
  lemma {:induction false} SmoothedPrefix(raw: seq<real>, alpha: real, k: nat)
    requires k <= |raw|
    ensures Smoothed(raw[..k], alpha) == Smoothed(raw, alpha)[..k]
    decreases |raw|
  {
    if k == |raw| {
      assert raw[..k] == raw;
    } else if |raw| > 1 {
      var init := raw[..|raw| - 1];
      SmoothedPrefix(init, alpha, k);
      assert init[..k] == raw[..k];
    }
  }

  /** The recurrence every later output satisfies. */
  lemma SmoothedStep(raw: seq<real>, alpha: real, i: nat)
    requires 1 <= i < |raw|
    ensures Smoothed(raw, alpha)[i] == Blend(raw[i], Smoothed(raw, alpha)[i - 1], alpha)
  {
    var head := raw[..i + 1];
    SmoothedPrefix(raw, alpha, i + 1);
    assert head[..|head| - 1] == raw[..i];
    SmoothedPrefix(raw, alpha, i);
  }

  /** Extending the window by the sample at index `i` extends the smoothed
      series by one smoothing step over its last output. */
  lemma SmoothedSnoc(raw: seq<real>, alpha: real, i: nat)
    requires 1 <= i < |raw|
    ensures Smoothed(raw[..i + 1], alpha)
         == Smoothed(raw[..i], alpha) + [Blend(raw[i], Smoothed(raw[..i], alpha)[i - 1], alpha)]
  {
    var head := raw[..i + 1];
    assert head[..|head| - 1] == raw[..i];
  }

  /** The smoothed series follows the recurrence along its whole length. */
  lemma SmoothedIsRecurrence(raw: seq<real>, alpha: real)
    ensures IsRecurrence(Smoothed(raw, alpha), raw, |raw|, alpha)
  {
    forall j | 1 <= j < |raw|
      ensures Smoothed(raw, alpha)[j] == Blend(raw[j], Smoothed(raw, alpha)[j - 1], alpha)
    {
      SmoothedStep(raw, alpha, j);
    }
  }

  /** The first output and the recurrence determine the smoothed series: any
      series of the window's length that satisfies them is Smoothed. */
  lemma {:induction false} SmoothedUnique(raw: seq<real>, alpha: real, s: seq<real>)
    requires |s| == |raw| && IsRecurrence(s, raw, |s|, alpha)
    ensures s == Smoothed(raw, alpha)
    decreases |raw|
  {
    if |raw| > 1 {
      var n := |raw|;
      var s' := s[..n - 1];
      var raw' := raw[..n - 1];
      forall i | 1 <= i < |s'|
        ensures s'[i] == Blend(raw'[i], s'[i - 1], alpha)
      {
        assert s'[i] == s[i] && s'[i - 1] == s[i - 1] && raw'[i] == raw[i];
      }
      assert IsRecurrence(s', raw', |s'|, alpha);
      SmoothedUnique(raw', alpha, s');
      assert raw[..|raw| - 1] == raw';
      assert s[n - 1] == Blend(raw[n - 1], s'[n - 2], alpha);
      assert s == s' + [s[n - 1]];
    }
  }

  /** The number of outputs a processing pass keeps for a window of `rawSize`
      samples under the logical threshold `threshold`: the first output is
      always stored, every later one only while fewer than `threshold` are
      stored. */
  function ProcessedCount(rawSize: nat, threshold: int): (n: nat)
    ensures n <= rawSize
    ensures rawSize > 0 ==> 1 <= n
    ensures n <= threshold || n <= 1
    ensures n == rawSize || threshold <= n
  {
    if rawSize == 0 then 0 else Min(rawSize, Max(1, threshold))
  }

  /** The contents of the output buffer after a processing pass over window
      `raw`: the kept prefix of the smoothed series, then whatever the buffer
      held before. */
  function AfterProcessing(oldOut: seq<real>, raw: seq<real>, threshold: int, alpha: real): (r: seq<real>)
    requires ProcessedCount(|raw|, threshold) <= |oldOut|
    ensures |r| == |oldOut|
  {
    var n := ProcessedCount(|raw|, threshold);
    Smoothed(raw, alpha)[..n] + oldOut[n..]
  }

  /** Storing the smoothing step for sample `i` just past the first `i` stored
      outputs extends the stored smoothed prefix by one and leaves the rest of
      the buffer as it was. */
  lemma StoreStep(raw: seq<real>, oldOut: seq<real>, alpha: real, i: nat)
    requires 1 <= i < |raw| && i < |oldOut|
    ensures var out := Smoothed(raw[..i], alpha) + oldOut[i..];
            out[i := Blend(raw[i], out[i - 1], alpha)] == Smoothed(raw[..i + 1], alpha) + oldOut[i + 1..]
  {
    SmoothedSnoc(raw, alpha, i);
  }

  /** What a processing pass leaves in the output buffer `out`, given that it
      stored the smoothed series of the first `n` samples, `n` being the kept
      count, and touched nothing past them: the buffer is AfterProcessing, and every stored output after
      the first is one smoothing step over its predecessor. */
  lemma PassResult(oldOut: seq<real>, out: seq<real>, raw: seq<real>, threshold: int, alpha: real)
    requires ProcessedCount(|raw|, threshold) <= |out| == |oldOut|
    requires var n := ProcessedCount(|raw|, threshold);
             out == Smoothed(raw[..n], alpha) + oldOut[n..]
    ensures out == AfterProcessing(oldOut, raw, threshold, alpha)
    ensures IsRecurrence(out, raw, ProcessedCount(|raw|, threshold), alpha)
  {
    var n := ProcessedCount(|raw|, threshold);
    SmoothedPrefix(raw, alpha, n);
    SmoothedIsRecurrence(raw[..n], alpha);
  }

  /** A second pass over the same window, threshold and coefficient leaves the
      output buffer as the first pass left it. */
  lemma AfterProcessingIdempotent(oldOut: seq<real>, raw: seq<real>, threshold: int, alpha: real)
    requires ProcessedCount(|raw|, threshold) <= |oldOut|
    ensures var once := AfterProcessing(oldOut, raw, threshold, alpha);
            AfterProcessing(once, raw, threshold, alpha) == once
  {
    var n := ProcessedCount(|raw|, threshold);
    var once := AfterProcessing(oldOut, raw, threshold, alpha);
    assert once[n..] == oldOut[n..];
  }

  /** The window after one insertion under logical capacity `capacity`:
      appended while there is room, otherwise the oldest sample is dropped. */
  function Slide(w: seq<real>, capacity: int, x: real): (r: seq<real>)
    requires 1 <= capacity && |w| <= capacity
    ensures |r| == Min(|w| + 1, capacity)
    ensures r[|r| - 1] == x
  {
    if |w| < capacity then w + [x] else w[1..] + [x]
  }

  /** The last `m` elements of `s` (all of `s` when it is shorter). */
  function Newest(s: seq<real>, m: nat): seq<real>
  {
    s[|s| - Min(|s|, m)..]
  }

  /** Sliding in a sample keeps the most recent samples, in arrival order. */
  lemma SlideKeepsNewest(w: seq<real>, capacity: int, x: real)
    requires 1 <= capacity && |w| <= capacity
    ensures Slide(w, capacity, x) == Newest(w + [x], capacity)
  {
    if |w| == capacity {
      assert (w + [x])[1..] == w[1..] + [x];
    } else {
      assert (w + [x])[0..] == w + [x];
    }
  }

  /** Keeping the newest `m` elements and then adding one more is the same as
      adding it first and then keeping the newest `m`. */
  lemma NewestSnoc(s: seq<real>, m: nat, x: real)
    ensures Newest(Newest(s, m) + [x], m) == Newest(s + [x], m)
  {
    var t := Newest(s, m) + [x];
    var lhs := Newest(t, m);
    var rhs := Newest(s + [x], m);
    assert |lhs| == |rhs|;
    forall k | 0 <= k < |lhs| ensures lhs[k] == rhs[k] {
      if k == |lhs| - 1 {
      } else {
        assert lhs[k] == t[|t| - |lhs| + k];
        assert rhs[k] == (s + [x])[|s| + 1 - |rhs| + k];
      }
    }
  }

  /** The window after inserting the samples `xs`, one at a time, into an
      empty window of logical capacity `capacity`. */
  function Fill(xs: seq<real>, capacity: int): (r: seq<real>)
    requires 1 <= capacity
    ensures |r| == Min(|xs|, capacity)
    decreases |xs|
  {
    if xs == [] then []
    else Slide(Fill(xs[..|xs| - 1], capacity), capacity, xs[|xs| - 1])
  }

  /** After any stream of insertions the window holds exactly the most recent
      `capacity` samples (all of them while fewer have arrived), oldest first. */
  lemma {:induction false} FillIsNewest(xs: seq<real>, capacity: int)
    requires 1 <= capacity
    ensures Fill(xs, capacity) == Newest(xs, capacity)
    decreases |xs|
  {
    if xs != [] {
      var init := xs[..|xs| - 1];
      var x := xs[|xs| - 1];
      FillIsNewest(init, capacity);
      SlideKeepsNewest(Fill(init, capacity), capacity, x);
      NewestSnoc(init, capacity, x);
      assert init + [x] == xs;
    }
  }

  /** A run of windows in which each one is the previous one with the next
      sample slid in, starting from the empty window, ends in Fill: this is
      what a caller learns from repeated insertions. */
  lemma {:induction false} SlideChainIsFill(ws: seq<seq<real>>, xs: seq<real>, capacity: int)
    requires 1 <= capacity && |ws| == |xs| + 1 && ws[0] == []
    requires forall k :: 0 <= k < |xs| ==>
               |ws[k]| <= capacity && ws[k + 1] == Slide(ws[k], capacity, xs[k])
    ensures ws[|xs|] == Fill(xs, capacity)
    decreases |xs|
  {
    if xs != [] {
      var n := |xs|;
      var xs' := xs[..n - 1];
      var ws' := ws[..n];
      forall k | 0 <= k < |xs'|
        ensures |ws'[k]| <= capacity && ws'[k + 1] == Slide(ws'[k], capacity, xs'[k])
      {
        assert ws'[k] == ws[k] && ws'[k + 1] == ws[k + 1] && xs'[k] == xs[k];
      }
      SlideChainIsFill(ws', xs', capacity);
      assert ws[n] == Slide(ws[n - 1], capacity, xs[n - 1]);
    }
  }

  /** With capacity 4 and coefficient 0.5: the samples 10, 20, 30, 40 smooth to
      10, 15, 22.5, 31.25; one more sample 50 evicts 10, and the new window
      smooths to 20, 25, 32.5, 41.25. */
  lemma WindowScenario()
    ensures Fill([10.0, 20.0, 30.0, 40.0], 4) == [10.0, 20.0, 30.0, 40.0]
    ensures Smoothed([10.0, 20.0, 30.0, 40.0], 0.5) == [10.0, 15.0, 22.5, 31.25]
    ensures Fill([10.0, 20.0, 30.0, 40.0, 50.0], 4) == [20.0, 30.0, 40.0, 50.0]
    ensures Smoothed([20.0, 30.0, 40.0, 50.0], 0.5) == [20.0, 25.0, 32.5, 41.25]
  {
    var a := [10.0, 20.0, 30.0, 40.0];
    var b := [10.0, 20.0, 30.0, 40.0, 50.0];
    FillIsNewest(a, 4);
    FillIsNewest(b, 4);
    assert Newest(b, 4) == b[1..];
    assert b[1..] == [20.0, 30.0, 40.0, 50.0];
    SmoothedUnique(a, 0.5, [10.0, 15.0, 22.5, 31.25]);
    SmoothedUnique([20.0, 30.0, 40.0, 50.0], 0.5, [20.0, 25.0, 32.5, 41.25]);
  }
}
