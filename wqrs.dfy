/** The back end of the WQRS detector: the curve-length transform of the
    low-passed signal and the greedy `threshold` rule that accepts a sample
    when it rises above a ten-second moving average and lies far enough
    after the previously accepted sample. */
module Wqrs {
  import opened Common
  import opened MovingAverage

  /** The sampling rate as the Python object the detector was built with:
      numpy accepts `10*fs` as a pad width only when it is an `int`. */
  datatype Rate = IntRate(hz: nat) | FloatRate(value: real)

  function RateValue(rate: Rate): real
  {
    match rate
    case IntRate(hz) => hz as real
    case FloatRate(v) => v
  }

  /** `int(np.ceil(x))`. */
  function Ceil(x: real): (n: int)
    ensures n as real - 1.0 < x <= n as real
  {
    -((-x).Floor)
  }

  /** The curve length of the chunk `x[lo:hi]`: the sum over its
      successive differences `d` of `arc(d)`, where `arc(d)` stands for
      `sqrt((1/fs)**2 + d**2)`. */
  function ChunkLength(x: seq<real>, lo: int, hi: int, arc: real -> real): real
    requires 0 <= lo < hi <= |x|
    decreases hi - lo
  {
    if hi - lo == 1 then 0.0
    else ChunkLength(x, lo, hi - 1, arc) + arc(x[hi - 1] - x[hi - 2])
  }

  /** A curve length is never negative when `arc` never is (as `sqrt` is not). */
  lemma {:induction false} ChunkLengthNonNegative(x: seq<real>, lo: int, hi: int, arc: real -> real)
    requires 0 <= lo < hi <= |x|
    requires forall d :: arc(d) >= 0.0
    ensures ChunkLength(x, lo, hi, arc) >= 0.0
    decreases hi - lo
  {
    if hi - lo > 1 {
      ChunkLengthNonNegative(x, lo, hi - 1, arc);
      assert arc(x[hi - 1] - x[hi - 2]) >= 0.0;
    }
  }

  /** The curve lengths `length_transfrom` lists: position `k` from `w` on
      holds the length of the `w` samples before it, and the first `w`
      positions repeat the first of those lengths. */
  function CurveLengths(x: seq<real>, w: nat, arc: real -> real): (r: seq<real>)
    requires 1 <= w < |x|
    ensures |r| == |x|
  {
    seq(|x|, k requires 0 <= k < |x| => if k < w then ChunkLength(x, 0, w, arc) else ChunkLength(x, k - w, k, arc))
  }

  /** `length_transfrom(x, w)`: the curve length of the `w` samples before
      each position from `w` on, with the first length repeated `w` times in
      front. With no position from `w` on, `tmp[0]` fails. */
  method LengthTransform(x: seq<real>, w: nat, arc: real -> real) returns (r: Result<seq<real>>)
    requires w >= 1
    ensures r.Err? <==> |x| <= w
    ensures r.Err? ==> r.error == IndexError
    ensures r.Ok? ==> |r.value| == |x|
    ensures r.Ok? ==> forall k :: w <= k < |x| ==> r.value[k] == ChunkLength(x, k - w, k, arc)
    ensures r.Ok? ==> forall k :: 0 <= k < w ==> r.value[k] == r.value[w]
    ensures r.Ok? ==> r.value == CurveLengths(x, w, arc)
  {
    var tmp: seq<real> := [];
    var i := w;
    while i < |x|
      invariant w <= i <= if |x| < w then w else |x|
      invariant |tmp| == i - w
      invariant forall j :: 0 <= j < |tmp| ==> tmp[j] == ChunkLength(x, j, j + w, arc)
    {
      tmp := tmp + [ChunkLength(x, i - w, i, arc)];
      i := i + 1;
    }
    if |tmp| == 0 {
      return Err(IndexError);
    }
    r := Ok(seq(w, _ => tmp[0]) + tmp);
    assert forall k :: w <= k < |x| ==> r.value[k] == tmp[k - w];
    assert r.value == CurveLengths(x, w, arc);
  }

  /** Every accepted sample is above the average and more than `gap` after
      the sample accepted before it. */
  predicate Sound(x: seq<real>, u: seq<real>, gap: real, peaks: seq<int>)
    requires |u| == |x|
  {
    && StrictlyIncreasing(peaks)
    && GapsExceed(peaks, gap)
    && (forall k :: 0 <= k < |peaks| ==> 0 <= peaks[k] < |x| && x[peaks[k]] > u[peaks[k]])
  }

  /** Sample `j` lies within `gap` after some accepted sample. */
  predicate Shadowed(peaks: seq<int>, j: int, gap: real)
  {
    exists k :: 0 <= k < |peaks| && peaks[k] < j && j as real <= peaks[k] as real + gap
  }

  /** Accepting another sample keeps every earlier sample shadowed. */
  lemma ShadowedGrows(peaks: seq<int>, p: int, j: int, gap: real)
    requires Shadowed(peaks, j, gap)
    ensures Shadowed(peaks + [p], j, gap)
  {
    var k :| 0 <= k < |peaks| && peaks[k] < j && j as real <= peaks[k] as real + gap;
    assert (peaks + [p])[k] == peaks[k];
  }

  /** Every sample before `n` that is above the average was accepted or lies
      within `gap` after an accepted sample. */
  predicate Complete(x: seq<real>, u: seq<real>, gap: real, peaks: seq<int>, n: int)
    requires |u| == |x| && n <= |x|
  {
    forall j :: 0 <= j < n && x[j] > u[j] && j !in peaks ==> Shadowed(peaks, j, gap)
  }

  /** Accepting sample `i` keeps both properties. */
  lemma AcceptKeeps(x: seq<real>, u: seq<real>, gap: real, peaks: seq<int>, i: int)
    requires |u| == |x| && 0 <= i < |x|
    requires Sound(x, u, gap, peaks) && Complete(x, u, gap, peaks, i)
    requires forall k :: 0 <= k < |peaks| ==> peaks[k] < i
    requires |peaks| == 0 || i as real > peaks[|peaks| - 1] as real + gap
    requires x[i] > u[i]
    ensures Sound(x, u, gap, peaks + [i]) && Complete(x, u, gap, peaks + [i], i + 1)
  {
    AcceptSound(x, u, gap, peaks, i);
    var grown := peaks + [i];
    forall j | 0 <= j < i + 1 && x[j] > u[j] && j !in grown
      ensures Shadowed(grown, j, gap)
    {
      ShadowedGrows(peaks, i, j, gap);
    }
  }

  lemma AcceptSound(x: seq<real>, u: seq<real>, gap: real, peaks: seq<int>, i: int)
    requires |u| == |x| && 0 <= i < |x|
    requires Sound(x, u, gap, peaks)
    requires forall k :: 0 <= k < |peaks| ==> peaks[k] < i
    requires |peaks| == 0 || i as real > peaks[|peaks| - 1] as real + gap
    requires x[i] > u[i]
    ensures Sound(x, u, gap, peaks + [i])
  {
    var grown := peaks + [i];
    assert forall k :: 0 <= k < |peaks| ==> grown[k] == peaks[k];
  }

  /** Passing over sample `i` keeps completeness. */
  lemma RejectKeeps(x: seq<real>, u: seq<real>, gap: real, peaks: seq<int>, i: int)
    requires |u| == |x| && 0 <= i < |x|
    requires Complete(x, u, gap, peaks, i)
    requires forall k :: 0 <= k < |peaks| ==> peaks[k] < i
    requires !((|peaks| == 0 || i as real > peaks[|peaks| - 1] as real + gap) && x[i] > u[i])
    ensures Complete(x, u, gap, peaks, i + 1)
  {
    if x[i] > u[i] {
      assert peaks[|peaks| - 1] < i;
    }
  }

  /** The loop of `threshold` against a given average `u`. */
  method Threshold(x: seq<real>, u: seq<real>, gap: real) returns (peaks: seq<int>)
    requires |u| == |x|
    ensures Sound(x, u, gap, peaks)
    ensures Complete(x, u, gap, peaks, |x|)
  {
    peaks := [];
    var i := 0;
    while i < |x|
      invariant 0 <= i <= |x|
      invariant Sound(x, u, gap, peaks)
      invariant forall k :: 0 <= k < |peaks| ==> peaks[k] < i
      invariant Complete(x, u, gap, peaks, i)
    {
      if (|peaks| == 0 || i as real > peaks[|peaks| - 1] as real + gap) && x[i] > u[i] {
        AcceptKeeps(x, u, gap, peaks, i);
        peaks := peaks + [i];
      } else {
        RejectKeeps(x, u, gap, peaks, i);
      }
      i := i + 1;
    }
  }

  /** `threshold(x)`: the average is `MWA_convolve(x, 10*fs)`, which numpy
      refuses when `10*fs` is a float, and which fails with IndexError,
      as `ApplyMwa` describes, when the window is longer than the signal
      plus one sample (an empty signal included, since `10*fs >= 10`). */
  method WqrsThreshold(x: seq<real>, rate: Rate) returns (r: Result<seq<int>>)
    requires RateValue(rate) > 0.0
    ensures rate.FloatRate? ==> r == Err(TypeError)
    ensures rate.IntRate? ==> (r.Err? <==> 10 * rate.hz >= |x| + 2)
    ensures rate.IntRate? && r.Err? ==> r.error == IndexError
    ensures r.Ok? ==>
              && rate.IntRate? && |x| > 0
              && Sound(x, MwaSpec(x, 10 * rate.hz), 0.35 * RateValue(rate), r.value)
              && Complete(x, MwaSpec(x, 10 * rate.hz), 0.35 * RateValue(rate), r.value, |x|)
  {
    if rate.FloatRate? {
      return Err(TypeError);
    }
    var u := MwaConvolve(x, 10 * rate.hz);
    if u.Err? {
      return Err(u.error);
    }
    var peaks := Threshold(x, u.value, 0.35 * RateValue(rate));
    r := Ok(peaks);
  }

  /** `wqrs_detector` after its low-pass filter: the curve-length transform
      over `ceil(0.13*fs)` samples, then `threshold`. */
  method WqrsDetector(lowPassed: seq<real>, rate: Rate, arc: real -> real) returns (r: Result<seq<int>>)
    requires RateValue(rate) > 0.0
    ensures |lowPassed| <= Ceil(0.13 * RateValue(rate)) ==> r == Err(IndexError)
    ensures |lowPassed| > Ceil(0.13 * RateValue(rate)) && rate.FloatRate? ==> r == Err(TypeError)
    ensures |lowPassed| > Ceil(0.13 * RateValue(rate)) && rate.IntRate? ==>
              && (r.Err? <==> 10 * rate.hz >= |lowPassed| + 2)
              && (r.Err? ==> r.error == IndexError)
    ensures r.Ok? ==>
              && rate.IntRate? && 1 <= Ceil(0.13 * RateValue(rate)) < |lowPassed|
              && var y := CurveLengths(lowPassed, Ceil(0.13 * RateValue(rate)), arc);
                 && Sound(y, MwaSpec(y, 10 * rate.hz), 0.35 * RateValue(rate), r.value)
                 && Complete(y, MwaSpec(y, 10 * rate.hz), 0.35 * RateValue(rate), r.value, |y|)
    ensures r.Ok? ==> StrictlyIncreasing(r.value) && GapsExceed(r.value, 0.35 * RateValue(rate))
    ensures r.Ok? ==> forall k :: 0 <= k < |r.value| ==> 0 <= r.value[k] < |lowPassed|
  {
    var w := Ceil(0.13 * RateValue(rate));
    var y := LengthTransform(lowPassed, w, arc);
    if y.Err? {
      return Err(y.error);
    }
    r := WqrsThreshold(y.value, rate);
  }
}
