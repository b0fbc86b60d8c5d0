/** Christov's detector (ecgdetectors.py, `christov_detector`): three
    causal moving averages and a central absolute difference produce `MA3`,
    which is compared sample by sample with the combined adaptive threshold
    `MFR = M + F + R`. */
module Christov {
  import opened Common
  import opened SteepSlope
  import opened Transforms
  import opened Detections

  /** `int(0.05*fs)`, `int(0.2*fs)`, `int(1.2*fs)` and `int(0.35*fs)`. */
  datatype Times = Times(ms50: int, ms200: int, ms1200: int, ms350: int)

  function ChristovTimes(fs: real): (t: Times)
    requires fs > 0.0
    ensures 0 <= t.ms50 <= t.ms350 && WindowsOk(t.ms200, t.ms1200)
    ensures t == Times(Int(0.05 * fs), Int(0.2 * fs), Int(1.2 * fs), Int(0.35 * fs))
  {
    IntMonotone(0.05 * fs, 0.35 * fs);
    IntMonotone(0.2 * fs, 1.2 * fs);
    Times(Int(0.05 * fs), Int(0.2 * fs), Int(1.2 * fs), Int(0.35 * fs))
  }

  /** The `# F` block: once `i > ms350`, `F` grows by the difference between
      the largest of the last `ms50` samples before `i` and the largest of
      the first `ms50` samples of the `ms350` window, over 150. With
      `ms50 == 0` the slice `F_section[:0]` is empty and `np.max` raises. */
  function FStep(x: seq<real>, ms50: int, ms350: int, f: real, i: int): (r: Result<real>)
    requires 0 <= i < |x| && 0 <= ms50 <= ms350
    ensures r.Err? <==> i > ms350 && ms50 == 0
    ensures r.Err? ==> r.error == ValueError
    ensures i <= ms350 ==> r == Ok(f)
    ensures r.Ok? && i > ms350 ==>
              r.value == f + (Max(x[i - ms50..i]) - Max(x[i - ms350..i - ms350 + ms50])) / 150.0
  {
    if i > ms350 then
      var section := PySlice(x, i - ms350, i);
      var latest := PySlice(section, -ms50, |section|);
      var earliest := PySlice(section, 0, ms50);
      if |latest| == 0 || |earliest| == 0 then Err(ValueError)
      else
        assert latest == x[i - ms50..i];
        assert earliest == x[i - ms350..i - ms350 + ms50];
        Ok(f + (Max(latest) - Max(earliest)) / 150.0)
    else Ok(f)
  }

  /** The `# R` block: zero during the first two thirds of the mean RR
      interval `Rm` after the last detection, then the gap between `M` and
      the mean of `MM` over 1.4 until `Rm`; unchanged otherwise. When `M`
      does not exceed the mean of `MM`, `R` never raises the threshold. */
  function RStep(qrs: seq<int>, rm: int, m: real, mm: seq<real>, r: real, i: int): (next: real)
    requires |qrs| > 0 ==> |mm| > 0
    ensures |qrs| > 0 && r <= 0.0 && m <= Mean(mm) ==> next <= 0.0
    ensures |qrs| == 0 ==> next == r
  {
    if |qrs| > 0 && i < qrs[|qrs| - 1] + Int(2.0 / 3.0 * rm as real) then 0.0
    else if |qrs| > 0 && i > qrs[|qrs| - 1] + Int(2.0 / 3.0 * rm as real) && i < qrs[|qrs| - 1] + rm then
      (m - Mean(mm)) / 1.4
    else r
  }

  /** The loop's local variables; `mfr` is `MFR_list`, one threshold per
      sample visited. */
  datatype ChristovState = ChristovState(
    slope: SlopeState, f: real, r: real, rr: seq<int>, rm: int, qrs: seq<int>, mfr: seq<real>)

  /** `MFR = M + F + R`. */
  function Mfr(st: ChristovState): real
  {
    st.slope.m + st.f + st.r
  }

  /** What holds before sample `i`: the `M` state is ready, the RR history
      holds at most five intervals, and the detections are spaced, sound
      and covering against the thresholds so far. */
  predicate ChristovInv(x: seq<real>, ms200: int, st: ChristovState, i: int)
  {
    && SlopeReady(x, st.slope, i)
    && AllBefore(st.qrs, i)
    && |st.rr| <= 5
    && Detected(x, ms200, st.qrs, st.mfr, i)
  }

  /** What the iteration for sample `i` needs: a positive sampling
      rate, a sample to visit, a ready `M` state and detections before
      `i`. */
  predicate ChristovReady(x: seq<real>, fs: real, st: ChristovState, i: int)
  {
    && fs > 0.0 && 0 <= i < |x|
    && SlopeReady(x, st.slope, i)
    && AllBefore(st.qrs, i)
  }

  /** The detection block for sample `i` with threshold `v`: `v` joins
      `MFR_list`; a detection (`Fires`) joins `QRS`, and from the third
      detection on its RR interval enters the five-entry RR history and
      `Rm` becomes the truncated mean of that history. */
  function DetectNext(x: seq<real>, ms200: int, st: ChristovState, i: int, v: real): (next: ChristovState)
    requires 0 <= i < |x|
    ensures next.mfr == st.mfr + [v] && next.slope == st.slope && next.f == st.f && next.r == st.r
    ensures !Fires(x, ms200, st.qrs, v, i) ==> next == st.(mfr := st.mfr + [v])
    ensures Fires(x, ms200, st.qrs, v, i) ==>
              && next.qrs == st.qrs + [i]
              && (|st.qrs| >= 2 ==> next.rr == PushBounded(st.rr, i - st.qrs[|st.qrs| - 1], 5)
                                    && next.rm == IntMean(next.rr))
              && (|st.qrs| < 2 ==> next.rr == st.rr && next.rm == st.rm)
  {
    if Fires(x, ms200, st.qrs, v, i) then
      var grown := st.qrs + [i];
      if |grown| > 2 then
        var rr := PushBounded(st.rr, i - st.qrs[|st.qrs| - 1], 5);
        st.(mfr := st.mfr + [v], qrs := grown, rr := rr, rm := IntMean(rr))
      else st.(mfr := st.mfr + [v], qrs := grown)
    else st.(mfr := st.mfr + [v])
  }

  /** The detection block keeps the detections spaced, sound and covering,
      and the RR history within five entries. */
  lemma DetectKeeps(x: seq<real>, ms200: int, st: ChristovState, i: int, v: real)
    requires 0 <= i < |x| && 0 <= ms200
    requires |st.rr| <= 5 && Detected(x, ms200, st.qrs, st.mfr, i)
    ensures var next := DetectNext(x, ms200, st, i, v);
      |next.rr| <= 5 && Detected(x, ms200, next.qrs, next.mfr, i + 1)
  {
    DetectedStep(x, ms200, st.qrs, st.mfr, v, i);
  }

  /** The rest of the iteration for sample `i` once the `M` block has
      produced the new `M` state `m`: the `F` block (which may raise), the
      `R` block from the new `M` and `MM`, and the detection block against
      `MFR = M + F + R`. It raises `ValueError` exactly when the `F` block
      does: past sample `int(0.35*fs)` with `int(0.05*fs) == 0`. */
  function ChristovTail(x: seq<real>, fs: real, st: ChristovState, m: SlopeState, i: int): (r: Result<ChristovState>)
    requires fs > 0.0 && 0 <= i < |x| && SlopeReady(x, m, i + 1)
    ensures r.Err? <==> i > Int(0.35 * fs) && Int(0.05 * fs) == 0
    ensures r.Err? ==> r.error == ValueError
    ensures var t := ChristovTimes(fs);
      r.Ok? ==>
        && r.value.slope == m
        && FStep(x, t.ms50, t.ms350, st.f, i) == Ok(r.value.f)
        && r.value.r == RStep(st.qrs, st.rm, m.m, m.mm, st.r, i)
    ensures r.Ok? ==> r.value.mfr == st.mfr + [Mfr(r.value)]
    ensures r.Ok? ==>
      r.value == DetectNext(x, ChristovTimes(fs).ms200, st.(slope := m, f := r.value.f, r := r.value.r), i, Mfr(r.value))
  {
    var t := ChristovTimes(fs);
    var f := FStep(x, t.ms50, t.ms350, st.f, i);
    if f.Err? then Err(f.error)
    else
      var updated := st.(slope := m, f := f.value, r := RStep(st.qrs, st.rm, m.m, m.mm, st.r, i));
      var next := DetectNext(x, t.ms200, updated, i, Mfr(updated));
      assert Mfr(next) == Mfr(updated);
      assert st.(slope := m, f := next.f, r := next.r) == updated;
      Ok(next)
  }

  /** The tail of an iteration keeps the invariant. */
  lemma ChristovTailKeeps(x: seq<real>, fs: real, st: ChristovState, m: SlopeState, i: int)
    requires fs > 0.0 && 0 <= i < |x| && SlopeReady(x, m, i + 1)
    requires ChristovInv(x, Int(0.2 * fs), st, i)
    ensures var r := ChristovTail(x, fs, st, m, i);
      r.Ok? ==> ChristovInv(x, Int(0.2 * fs), r.value, i + 1)
  {
    var r := ChristovTail(x, fs, st, m, i);
    if r.Ok? {
      var updated := st.(slope := m, f := r.value.f, r := r.value.r);
      DetectKeeps(x, ChristovTimes(fs).ms200, updated, i, Mfr(r.value));
    }
  }

  /** The `M` block of Christov's detector: the steep-slope update with the
      decay factors `np.linspace(1, 0.6, ms1200 - ms200)`. */
  function ChristovSlope(x: seq<real>, fs: real, st: ChristovState, i: int): (m: SlopeState)
    requires ChristovReady(x, fs, st, i)
    ensures SlopeReady(x, m, i + 1)
  {
    var t := ChristovTimes(fs);
    SlopeNext(ChristovVariant, x, fs, t.ms200, t.ms1200, Linspace(1.0, 0.6, t.ms1200 - t.ms200), st.qrs, st.slope, i)
  }

  /** One iteration of the sample loop: `M`, then `F`, `R` and the
      detection. */
  function ChristovNext(x: seq<real>, fs: real, st: ChristovState, i: int): (r: Result<ChristovState>)
    requires ChristovReady(x, fs, st, i)
  {
    ChristovTail(x, fs, st, ChristovSlope(x, fs, st, i), i)
  }

  /** The state before the loop: everything zero or empty. */
  function ChristovStart(): ChristovState
  {
    ChristovState(SlopeState(0.0, 0.0, []), 0.0, 0.0, [], 0, [], [])
  }

  /** Whether the first `n` iterations raise: the `F` block raises once
      the loop gets past sample `int(0.35*fs)` with `int(0.05*fs) == 0`. */
  predicate Raises(fs: real, n: int)
  {
    Int(0.05 * fs) == 0 && n > Int(0.35 * fs) + 1
  }

  /** The first `n` iterations of the sample loop. They raise `ValueError`
      exactly when `Raises(fs, n)`; otherwise the invariant holds after
      them. */
  function ChristovRun(x: seq<real>, fs: real, n: int): (r: Result<ChristovState>)
    requires fs > 0.0 && 0 <= n <= |x|
    ensures r.Err? <==> Raises(fs, n)
    ensures r.Err? ==> r.error == ValueError
    ensures r.Ok? ==> ChristovInv(x, Int(0.2 * fs), r.value, n)
    decreases n
  {
    if n == 0 then Ok(ChristovStart())
    else
      var prev := ChristovRun(x, fs, n - 1);
      if prev.Err? then prev
      else
        ChristovTailKeeps(x, fs, prev.value, ChristovSlope(x, fs, prev.value, n - 1), n - 1);
        ChristovNext(x, fs, prev.value, n - 1)
  }

  /** One more iteration after `n - 1` that did not raise. */
  lemma ChristovRunStep(x: seq<real>, fs: real, n: int)
    requires fs > 0.0 && 0 < n <= |x|
    ensures var prev := ChristovRun(x, fs, n - 1);
      prev.Ok? ==> ChristovRun(x, fs, n) == ChristovNext(x, fs, prev.value, n - 1)
  {
  }

  /** `MFR_list` after `n` iterations, stated per iteration: entry `k` is
      `M + F + R` of the state after the iteration for sample `k`. */
  function ChristovThresholds(x: seq<real>, fs: real, n: int): (ths: seq<real>)
    requires fs > 0.0 && 0 <= n <= |x| && !Raises(fs, n)
    ensures |ths| == n
    decreases n
  {
    if n == 0 then [] else ChristovThresholds(x, fs, n - 1) + [Mfr(ChristovRun(x, fs, n).value)]
  }

  /** The iterations record exactly those thresholds in `MFR_list`. */
  lemma {:induction false} ChristovRunThresholds(x: seq<real>, fs: real, n: int)
    requires fs > 0.0 && 0 <= n <= |x| && !Raises(fs, n)
    ensures ChristovRun(x, fs, n).value.mfr == ChristovThresholds(x, fs, n)
    decreases n
  {
    if n > 0 {
      ChristovRunThresholds(x, fs, n - 1);
      ChristovRunStep(x, fs, n);
    }
  }

  /** The detections of the sample loop and the thresholds it compared
      against. */
  datatype Trace = Trace(qrs: seq<int>, mfr: seq<real>)

  /** The sample loop of `christov_detector` over `MA3`, before the final
      `QRS.pop(0)`: the iterations of `ChristovRun`. It raises `ValueError`
      exactly when `int(0.05*fs)` is 0 and the loop gets past sample
      `int(0.35*fs)`. Otherwise `MFR_list` is `ChristovThresholds(x, fs, |x|)`, and the
      detections are increasing, more than `int(0.2*fs)` apart, each above
      its threshold, and every sample above its threshold is a detection or
      lies within `int(0.2*fs)` samples after one. */
  method ChristovScan(x: seq<real>, fs: real) returns (r: Result<Trace>)
    requires fs > 0.0
    ensures var run := ChristovRun(x, fs, |x|);
      && (run.Err? ==> r == Err(run.error))
      && (run.Ok? ==> r == Ok(Trace(run.value.qrs, run.value.mfr)))
    ensures r.Ok? ==> !Raises(fs, |x|) && r.value.mfr == ChristovThresholds(x, fs, |x|)
  {
    var st := ChristovStart();
    var i := 0;
    r := Ok(Trace([], []));
    while i < |x| && r.Ok?
      invariant 0 <= i <= |x|
      invariant r.Ok? ==> ChristovRun(x, fs, i) == Ok(st)
      invariant r.Err? ==> ChristovRun(x, fs, |x|) == Err(r.error)
      decreases |x| - i, if r.Ok? then 1 else 0
    {
      var step := ChristovNext(x, fs, st, i);
      ChristovRunStep(x, fs, i + 1);
      if step.Err? {
        r := Err(step.error);
      } else {
        st := step.value;
        i := i + 1;
      }
    }
    if r.Ok? {
      ChristovRunThresholds(x, fs, |x|);
      r := Ok(Trace(st.qrs, st.mfr));
    }
  }

  /** The sample loop followed by `QRS.pop(0)`: the first detection only
      primes the threshold, and popping an empty list raises `IndexError`.
      Every reported beat exceeded its threshold and lies more than
      `int(0.2*fs)` samples after the dropped first detection. */
  method ChristovDecide(x: seq<real>, fs: real) returns (r: Result<seq<int>>)
    requires fs > 0.0
    ensures var run := ChristovRun(x, fs, |x|);
      && (r == Err(ValueError) <==> run.Err?)
      && (r == Err(IndexError) <==> run.Ok? && |run.value.qrs| == 0)
      && (r.Ok? ==> run.Ok? && r.value == run.value.qrs[1..])
    ensures r == Err(ValueError) <==> Raises(fs, |x|)
    ensures r.Err? ==> r.error == ValueError || r.error == IndexError
    ensures r.Ok? ==> StrictlyIncreasing(r.value) && GapsExceed(r.value, Int(0.2 * fs) as real)
    ensures r.Ok? ==> forall k :: 0 <= k < |r.value| ==>
              Int(0.2 * fs) < r.value[k] < |x| && x[r.value[k]] > ChristovThresholds(x, fs, |x|)[r.value[k]]
  {
    var scan := ChristovScan(x, fs);
    if scan.Err? {
      r := Err(scan.error);
    } else if |scan.value.qrs| == 0 {
      r := Err(IndexError);
    } else {
      var qrs := scan.value.qrs;
      AfterFirst(qrs, Int(0.2 * fs), |x|);
      r := Ok(qrs[1..]);
      forall k | 0 <= k < |qrs[1..]|
        ensures x[qrs[1..][k]] > ChristovThresholds(x, fs, |x|)[qrs[1..][k]]
      {
        assert qrs[1..][k] == qrs[k + 1];
      }
    }
  }

  /** `MA3` of `christov_detector`: causal means over `int(0.02*fs)` and
      `int(0.028*fs)` samples, the central absolute difference, a causal mean
      over `int(0.040*fs)` samples, and the first `total_taps` samples
      cleared. */
  function ChristovSignal(x: seq<real>, fs: real): (ma3: seq<real>)
    requires 0.02 * fs >= 1.0
    ensures |ma3| == if |x| < 2 then 0 else |x| - 2
    ensures forall k :: 0 <= k < |ma3| ==> ma3[k] >= 0.0
  {
    var taps1, taps2, taps3 := Int(0.02 * fs), Int(0.028 * fs), Int(0.040 * fs);
    var y := CentralAbsDiff(CausalMean(CausalMean(x, taps1), taps2));
    CausalMeanNonNegative(y, taps3);
    ZeroPrefix(CausalMean(y, taps3), taps1 + taps2 + taps3)
  }

  /** `christov_detector` on the raw signal. An empty signal makes the
      first FIR filter raise ValueError, and one of one or two samples leaves
      `Y` empty so that the third does (numpy's convolution refuses an empty
      operand). Otherwise its averaging windows need `int(0.02*fs) >= 1`,
      which makes `int(0.05*fs) >= 2`, so the `F` block cannot raise: the
      loop always completes, and the only failure left is an empty
      detection list. */
  method ChristovDetector(x: seq<real>, fs: real) returns (r: Result<seq<int>>)
    requires 0.02 * fs >= 1.0
    ensures |x| <= 2 ==> r == Err(ValueError)
    ensures |x| > 2 ==>
      var ma3 := ChristovSignal(x, fs);
      var run := ChristovRun(ma3, fs, |ma3|);
      && run.Ok?
      && (r.Err? <==> |run.value.qrs| == 0)
      && (r.Err? ==> r.error == IndexError)
      && (r.Ok? ==> r.value == run.value.qrs[1..])
    ensures r.Ok? ==> StrictlyIncreasing(r.value) && GapsExceed(r.value, Int(0.2 * fs) as real)
    ensures r.Ok? ==> forall k :: 0 <= k < |r.value| ==>
              Int(0.2 * fs) < r.value[k] < |ChristovSignal(x, fs)|
  {
    if |x| <= 2 {
      return Err(ValueError);
    }
    IntMonotone(2.0, 0.05 * fs);
    r := ChristovDecide(ChristovSignal(x, fs), fs);
  }
}
