/** Detection against a per-sample threshold trace, the rule shared by
    Christov's and Engzee's detectors (ecgdetectors.py): a sample is a
    detection when it exceeds its threshold and is either the first one to
    do so or more than `gap` samples after the previous detection. */
module Detections {
  import opened Common

  /** Sample `i`, compared with its threshold `v`, is a detection given the
      detections `qrs` before it. */
  predicate Fires(x: seq<real>, gap: int, qrs: seq<int>, v: real, i: int)
    requires 0 <= i < |x|
  {
    x[i] > v && (|qrs| == 0 || i > qrs[|qrs| - 1] + gap)
  }

  /** Detections are increasing, more than `gap` apart and before `i`. */
  predicate Spaced(qrs: seq<int>, gap: int, i: int)
  {
    && AllBefore(qrs, i)
    && StrictlyIncreasing(qrs) && GapsExceed(qrs, gap as real)
  }

  /** Each detection exceeded the threshold of its own sample. */
  predicate Sound(x: seq<real>, qrs: seq<int>, ths: seq<real>)
  {
    forall k :: 0 <= k < |qrs| ==> 0 <= qrs[k] < |x| && qrs[k] < |ths| && x[qrs[k]] > ths[qrs[k]]
  }

  /** Every sample before `i` above its threshold is at most `gap`
      samples after some detection. */
  predicate Covered(x: seq<real>, gap: int, qrs: seq<int>, ths: seq<real>, i: int)
    requires 0 <= i <= |x| && |ths| >= i
  {
    forall j :: 0 <= j < i && x[j] > ths[j] ==> exists q :: q in qrs && j - gap <= q <= j
  }

  /** What holds of the detections after `i` samples, with one threshold
      per sample: spaced, sound and covering. */
  predicate Detected(x: seq<real>, gap: int, qrs: seq<int>, ths: seq<real>, i: int)
  {
    && 0 <= i <= |x| && |ths| == i
    && Spaced(qrs, gap, i)
    && Sound(x, qrs, ths)
    && Covered(x, gap, qrs, ths, i)
  }

  lemma SpacedAppend(qrs: seq<int>, gap: int, i: int)
    requires Spaced(qrs, gap, i) && 0 <= i && 0 <= gap
    requires |qrs| > 0 ==> i > qrs[|qrs| - 1] + gap
    ensures Spaced(qrs + [i], gap, i + 1)
  {
    var grown := qrs + [i];
    forall j, k | 0 <= j < k < |grown|
      ensures grown[j] < grown[k]
    {
      if k == |qrs| {
        assert grown[j] == qrs[j] <= qrs[|qrs| - 1];
      }
    }
  }

  lemma SoundExtend(x: seq<real>, qrs: seq<int>, ths: seq<real>, v: real, i: int)
    requires Sound(x, qrs, ths) && |ths| == i && i < |x|
    requires forall k :: 0 <= k < |qrs| ==> qrs[k] < i
    ensures Sound(x, qrs, ths + [v])
    ensures x[i] > v ==> Sound(x, qrs + [i], ths + [v])
  {
    var grown := ths + [v];
    assert forall k :: 0 <= k < |qrs| ==> grown[qrs[k]] == ths[qrs[k]];
  }

  /** Coverage extends by one sample when that sample is a detection, or
      when it lies at most `gap` samples after the last detection. */
  lemma CoveredStep(x: seq<real>, gap: int, qrs: seq<int>, ths: seq<real>, i: int, v: real, grown: seq<int>)
    requires 0 <= i < |x| && |ths| == i && Covered(x, gap, qrs, ths, i)
    requires forall q :: q in qrs ==> q in grown
    requires x[i] > v ==> exists q :: q in grown && i - gap <= q <= i
    ensures Covered(x, gap, grown, ths + [v], i + 1)
  {
    var all := ths + [v];
    forall j | 0 <= j < i + 1 && x[j] > all[j]
      ensures exists q :: q in grown && j - gap <= q <= j
    {
      if j < i {
        assert all[j] == ths[j];
        var q :| q in qrs && j - gap <= q <= j;
        assert q in grown;
      }
    }
  }

  /** The detection rule keeps the detections spaced, sound and covering
      when sample `i` and its threshold `v` are added. */
  lemma DetectedStep(x: seq<real>, gap: int, qrs: seq<int>, ths: seq<real>, v: real, i: int)
    requires 0 <= i < |x| && 0 <= gap && Detected(x, gap, qrs, ths, i)
    ensures Detected(x, gap, if Fires(x, gap, qrs, v, i) then qrs + [i] else qrs, ths + [v], i + 1)
  {
    if Fires(x, gap, qrs, v, i) {
      DetectedFires(x, gap, qrs, ths, v, i);
    } else {
      DetectedQuiet(x, gap, qrs, ths, v, i);
    }
  }

  /** A sample that fires is recorded and keeps the detections valid. */
  lemma DetectedFires(x: seq<real>, gap: int, qrs: seq<int>, ths: seq<real>, v: real, i: int)
    requires 0 <= i < |x| && 0 <= gap && Detected(x, gap, qrs, ths, i) && Fires(x, gap, qrs, v, i)
    ensures Detected(x, gap, qrs + [i], ths + [v], i + 1)
  {
    var grown := qrs + [i];
    assert i in grown;
    CoveredStep(x, gap, qrs, ths, i, v, grown);
    SpacedAppend(qrs, gap, i);
    SoundExtend(x, qrs, ths, v, i);
  }

  /** A sample that does not fire leaves the detections valid: above its
      threshold it lies at most `gap` after the last detection. */
  lemma DetectedQuiet(x: seq<real>, gap: int, qrs: seq<int>, ths: seq<real>, v: real, i: int)
    requires 0 <= i < |x| && 0 <= gap && Detected(x, gap, qrs, ths, i) && !Fires(x, gap, qrs, v, i)
    ensures Detected(x, gap, qrs, ths + [v], i + 1)
  {
    if x[i] > v {
      assert qrs[|qrs| - 1] in qrs;
    }
    CoveredStep(x, gap, qrs, ths, i, v, qrs);
    SoundExtend(x, qrs, ths, v, i);
  }

  /** Every later detection is more than `gap` after the first. */
  lemma AfterFirst(qrs: seq<int>, gap: int, i: int)
    requires Spaced(qrs, gap, i) && |qrs| > 0 && gap >= 0
    ensures StrictlyIncreasing(qrs[1..]) && GapsExceed(qrs[1..], gap as real)
    ensures forall k :: 0 <= k < |qrs[1..]| ==> gap < qrs[1..][k] < i
  {
    var beats := qrs[1..];
    assert forall k :: 0 <= k < |beats| ==> beats[k] == qrs[k + 1];
    forall k | 1 <= k < |qrs|
      ensures qrs[k] - qrs[0] > gap
    {
      assert qrs[k] - qrs[k - 1] > gap;
      if k > 1 {
        assert qrs[0] < qrs[k - 1];
      }
    }
  }
}
