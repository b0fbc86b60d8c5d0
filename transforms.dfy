/** The FIR transforms the detectors apply between their (foreign) IIR
    filters and their decision loops: `np.diff`, squaring, `abs`, the
    moving-average `lfilter` with a kernel of ones, the central and lag-4
    differences, and the clearing of a start-up prefix (ecgdetectors.py). */
module Transforms {
  import opened Common
  import opened MovingAverage

  /** `np.diff`: differences of neighbouring samples (empty below two samples). */
  function Diff(x: seq<real>): (d: seq<real>)
    ensures |d| == if |x| == 0 then 0 else |x| - 1
    ensures forall k :: 0 <= k < |d| ==> d[k] == x[k + 1] - x[k]
  {
    if |x| == 0 then [] else seq(|x| - 1, k requires 0 <= k < |x| - 1 => x[k + 1] - x[k])
  }

  /** `diff*diff`: element-wise squares, never negative. */
  function Squared(d: seq<real>): (q: seq<real>)
    ensures |q| == |d|
    ensures forall k :: 0 <= k < |q| ==> q[k] == d[k] * d[k] && q[k] >= 0.0
  {
    seq(|d|, k requires 0 <= k < |d| => d[k] * d[k])
  }

  /** `x[:n] = 0` for a non-negative `n`, which numpy clamps to the length
      (a negative `n` would count from the end; no caller passes one). */
  function ZeroPrefix(x: seq<real>, n: int): (z: seq<real>)
    requires n >= 0
    ensures |z| == |x|
    ensures forall k :: 0 <= k < |x| ==> z[k] == if k < n then 0.0 else x[k]
  {
    seq(|x|, k requires 0 <= k < |x| => if k < n then 0.0 else x[k])
  }

  /** `abs(x)` element-wise. */
  function Abs(x: seq<real>): (a: seq<real>)
    ensures |a| == |x|
    ensures forall k :: 0 <= k < |x| ==> a[k] == (if x[k] < 0.0 then -x[k] else x[k]) && a[k] >= 0.0
  {
    seq(|x|, k requires 0 <= k < |x| => if x[k] < 0.0 then -x[k] else x[k])
  }

  /** `signal.lfilter(np.ones(n)/n, [1], x)`: a causal FIR whose taps see
      zeros before the first sample, so entry `k` is the window sum over
      `x[max(0,k-n+1)..k]` divided by the full width `n`. */
  function CausalMean(x: seq<real>, n: nat): (y: seq<real>)
    requires n >= 1
    ensures |y| == |x|
  {
    seq(|x|, k requires 0 <= k < |x| => WindowSum(x, n, k) / n as real)
  }

  /** Once the taps are filled the FIR average and the MWA coincide; before
      that the FIR average is the MWA scaled by `(k+1)/n`. */
  lemma CausalMeanVersusMwa(x: seq<real>, n: nat, k: nat)
    requires n >= 1 && k < |x|
    ensures k + 1 >= n ==> CausalMean(x, n)[k] == MwaSpec(x, n)[k]
    ensures k + 1 < n ==> CausalMean(x, n)[k] * n as real == MwaSpec(x, n)[k] * (k + 1) as real
  {
    var s, len := WindowSum(x, n, k), WindowLen(n, k);
    assert (s / len as real) * len as real == s;
    assert (s / n as real) * n as real == s;
  }

  /** Christov's `abs(MA2[i+1] - MA2[i-1])` for `1 <= i < len-1`: two samples shorter. */
  function CentralAbsDiff(x: seq<real>): (y: seq<real>)
    ensures |y| == if |x| < 2 then 0 else |x| - 2
    ensures forall k :: 0 <= k < |y| ==> y[k] >= 0.0 && (y[k] == x[k + 2] - x[k] || y[k] == x[k] - x[k + 2])
  {
    if |x| < 2 then []
    else seq(|x| - 2, k requires 0 <= k < |x| - 2 => if x[k + 2] - x[k] < 0.0 then x[k] - x[k + 2] else x[k + 2] - x[k])
  }

  /** Engzee's `diff[i] = x[i] - x[i-4]` for `i >= 4`, zero before. */
  function Lag4Diff(x: seq<real>): (y: seq<real>)
    ensures |y| == |x|
    ensures forall k :: 0 <= k < |x| ==> y[k] == if k < 4 then 0.0 else x[k] - x[k - 4]
  {
    seq(|x|, k requires 0 <= k < |x| => if k < 4 then 0.0 else x[k] - x[k - 4])
  }

  /** A moving average of a non-negative signal is non-negative. */
  lemma MwaNonNegative(x: seq<real>, w: nat)
    requires w >= 1
    requires forall k :: 0 <= k < |x| ==> x[k] >= 0.0
    ensures forall k :: 0 <= k < |x| ==> MwaSpec(x, w)[k] >= 0.0
  {
    forall k | 0 <= k < |x|
      ensures MwaSpec(x, w)[k] >= 0.0
    {
      MwaBounds(x, w, k);
      assert Min(x) in x;
    }
  }

  /** A causal mean of a non-negative signal is non-negative. */
  lemma CausalMeanNonNegative(x: seq<real>, n: nat)
    requires n >= 1
    requires forall k :: 0 <= k < |x| ==> x[k] >= 0.0
    ensures forall k :: 0 <= k < |x| ==> CausalMean(x, n)[k] >= 0.0
  {
    forall k | 0 <= k < |x|
      ensures CausalMean(x, n)[k] >= 0.0
    {
      WindowSumNonNegative(x, n, k);
    }
  }

  lemma WindowSumNonNegative(x: seq<real>, n: nat, k: nat)
    requires n >= 1 && k < |x|
    requires forall j :: 0 <= j < |x| ==> x[j] >= 0.0
    ensures WindowSum(x, n, k) >= 0.0
  {
    var a := WindowStart(n, k);
    assert Max(x) in x;
    SliceWithin(x, a, k + 1, 0.0, Max(x));
    SumBounds(x[a..k + 1], 0.0, Max(x));
  }

  /** Clearing the prefix of a non-negative signal leaves no strict local
      maximum inside the cleared part. */
  lemma NoPeakInClearedPrefix(x: seq<real>, n: int, p: int)
    requires forall k :: 0 <= k < |x| ==> x[k] >= 0.0
    requires 0 <= n && p < n
    ensures !IsPeak(ZeroPrefix(x, n), p)
  {
  }

}
