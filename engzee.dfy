/** Engzee's detector (ecgdetectors.py, `engzee_detector`) as modified by
    Lourenco et al.: a threshold crossing of the low-passed lag-4
    difference against the steep-slope threshold `M` opens a 160 ms window;
    enough consecutive samples below `-M` in it confirm the QRS, and the
    R-peak is the largest raw sample from 10 ms before the crossing. */
module Engzee {
  import opened Common
  import opened SteepSlope
  import opened Transforms
  import opened Detections

  /** `int(0.2*fs)`, `int(1.2*fs)`, `int(0.16*fs)` and `int(0.01*fs)`; the
      last is both `neg_threshold` and the look-back of the R-peak search. */
  datatype Times = Times(ms200: int, ms1200: int, ms160: int, ms10: int)

  function EngzeeTimes(fs: real): (t: Times)
    requires fs > 0.0
    ensures WindowsOk(t.ms200, t.ms1200) && 0 <= t.ms160 && 0 <= t.ms10
    ensures t.ms160 + t.ms10 <= t.ms200
    ensures t == Times(Int(0.2 * fs), Int(1.2 * fs), Int(0.16 * fs), Int(0.01 * fs))
  {
    IntMonotone(0.2 * fs, 1.2 * fs);
    IntSuperAdditive(0.16 * fs, 0.01 * fs);
    IntMonotone(0.16 * fs + 0.01 * fs, 0.2 * fs);
    Times(Int(0.2 * fs), Int(1.2 * fs), Int(0.16 * fs), Int(0.01 * fs))
  }

  /** The search-window flags: `thi` (a crossing opened the window), `thf`
      (the signal has fallen through `-M` in it) and `counter`. */
  datatype Window = Window(thi: bool, thf: bool, counter: int)

  /** The loop's local variables; `mList` is `M_list`, one threshold per
      sample visited. `thi_list` always equals `QRS` (both are appended
      together), so it is not kept twice. */
  datatype EngzeeState = EngzeeState(
    slope: SlopeState, qrs: seq<int>, win: Window, rPeaks: seq<int>, mList: seq<real>)

  /** The window flags are consistent with the crossings: the counter is
      non-negative and only runs inside an open window, and a window is
      only open after a crossing. */
  predicate WindowOk(w: Window, qrs: seq<int>)
  {
    && 0 <= w.counter
    && (w.counter > 0 ==> w.thi)
    && (w.thi ==> |qrs| > 0)
  }

  /** The crossings after the crossing test of sample `i` against `m`: the
      first sample above `M`, or a sample above `M` more than `ms200` after
      the last crossing, is a crossing (the detection rule `Fires`). */
  function Crossings(x: seq<real>, ms200: int, qrs: seq<int>, m: real, i: int): (next: seq<int>)
    requires 0 <= i < |x|
    ensures |next| > 0 ==> next[|next| - 1] <= i || (|qrs| > 0 && next[|next| - 1] == qrs[|qrs| - 1])
    ensures Fires(x, ms200, qrs, m, i) ==> next == qrs + [i]
    ensures !Fires(x, ms200, qrs, m, i) ==> next == qrs
  {
    if (|qrs| == 0 && x[i] > m) || (|qrs| > 0 && i > qrs[|qrs| - 1] + ms200 && x[i] > m) then qrs + [i]
    else qrs
  }

  /** Crossings before sample `i` stay before `i + 1` after its test. */
  lemma CrossingsBefore(x: seq<real>, ms200: int, qrs: seq<int>, m: real, i: int)
    requires 0 <= i < |x| && AllBefore(qrs, i)
    ensures AllBefore(Crossings(x, ms200, qrs, m, i), i + 1)
  {
  }

  /** The debounce block: inside the window of the last crossing `c`, a
      fall through `-M` (`low_pass[i-1]`, which for `i == 0` is the LAST
      sample, above it) arms `thf`; while armed, every sample below `-M`
      counts and a sample above `-M` closes the window; past the window it
      closes too. With no window open, at sample `c + ms160` exactly, or on
      a sample equal to `-M`, nothing changes. */
  function Debounce(x: seq<real>, ms160: int, qrs: seq<int>, w: Window, i: int, m: real): (next: Window)
    requires 0 <= i < |x| && WindowOk(w, qrs)
    ensures WindowOk(next, qrs)
    ensures next.thi ==> w.thi
    ensures next.counter <= w.counter + 1
    ensures next.counter > w.counter ==> next.thi && i < qrs[|qrs| - 1] + ms160
    ensures !w.thi ==> next == w
    ensures w.thi ==>
              var c := qrs[|qrs| - 1];
              && (i > c + ms160 ==> next == Window(false, false, 0))
              && (i == c + ms160 ==> next == w)
              && (i < c + ms160 ==>
                    var armed := w.thf || (x[i] < -m && PyIndex(x, i - 1) > -m);
                    && (armed && x[i] < -m ==> next == Window(true, true, w.counter + 1))
                    && (w.thf && x[i] > -m ==> next == Window(false, false, 0))
                    && (!(armed && x[i] < -m) && !(w.thf && x[i] > -m) ==> next == w))
  {
    if w.thi && i < qrs[|qrs| - 1] + ms160 then
      var thf := w.thf || (x[i] < -m && PyIndex(x, i - 1) > -m);
      if thf && x[i] < -m then w.(thf := thf, counter := w.counter + 1)
      else if x[i] > -m && thf then w.(thi := false, thf := false, counter := 0)
      else w.(thf := thf)
    else if w.thi && i > qrs[|qrs| - 1] + ms160 then
      w.(thi := false, thf := false, counter := 0)
    else w
  }

  /** The outcome of the R-peak search: it did not run, or it found the
      R-peak `at`. */
  datatype Found = NoSearch | Peak(at: int)

  /** Whether the R-peak search at sample `i` runs (more than
      `neg_threshold` samples counted) over an empty slice
      `unfiltered_ecg[c - ms10 : i]`, `c` the last crossing. */
  predicate SearchFails(raw: seq<real>, ms10: int, qrs: seq<int>, w: Window, i: int)
  {
    w.counter > ms10 && |qrs| > 0 && |PySlice(raw, qrs[|qrs| - 1] - ms10, i)| == 0
  }

  /** The R-peak search: once more than `neg_threshold` samples have
      counted, the R-peak is `engzee_fake_delay` plus the position of the
      first largest raw sample of `unfiltered_ecg[c - ms10 : i]`, plus
      `c - ms10`; it lies between `ms10` samples before the crossing and
      sample `i` (plus the delay). An empty search slice makes `np.argmax`
      raise `ValueError`. */
  function Search(raw: seq<real>, ms10: int, delay: int, qrs: seq<int>, w: Window, i: int): (r: Result<Found>)
    requires 0 <= ms10 && 0 <= i <= |raw| && WindowOk(w, qrs)
    ensures r.Err? <==> SearchFails(raw, ms10, qrs, w, i)
    ensures r.Err? ==> r.error == ValueError
    ensures r == Ok(NoSearch) <==> w.counter <= ms10
    ensures r.Ok? && r.value.Peak? ==>
              var c := qrs[|qrs| - 1];
              && r.value.at == delay + FirstArgmax(PySlice(raw, c - ms10, i)) + c - ms10
              && delay + c - ms10 <= r.value.at < delay + i
  {
    if w.counter > ms10 then
      var c := qrs[|qrs| - 1];
      var section := PySlice(raw, c - ms10, i);
      if |section| == 0 then Err(ValueError)
      else
        PySliceWidth(raw, c - ms10, i);
        Ok(Peak(delay + FirstArgmax(section) + c - ms10))
    else Ok(NoSearch)
  }

  /** With a crossing `c` no later than `i`, the search slice is empty
      exactly when the look-back is zero and the crossing is sample `i`
      itself, or when `c - ms10` is negative and Python's count from the
      end of the signal puts the start at or after `i`. */
  lemma SearchEmptyWhen(raw: seq<real>, ms10: int, c: int, i: int)
    requires 0 <= c <= i <= |raw| && 0 <= ms10
    ensures |PySlice(raw, c - ms10, i)| == 0 <==>
              (c >= ms10 && ms10 == 0 && c == i) || (c < ms10 && (i == 0 || |raw| + c - ms10 >= i))
  {
    if c >= ms10 {
      assert PySlice(raw, c - ms10, i) == raw[c - ms10..i];
    }
  }

  /** The crossings after the crossing test of sample `i` with the new `M`
      state `m`. */
  function NewCrossings(x: seq<real>, fs: real, st: EngzeeState, m: SlopeState, i: int): seq<int>
    requires fs > 0.0 && 0 <= i < |x|
  {
    Crossings(x, EngzeeTimes(fs).ms200, st.qrs, m.m, i)
  }

  /** The window flags after the crossing test (which opens the window
      when it fires) and the debounce block of sample `i`. */
  function NewWindow(x: seq<real>, fs: real, st: EngzeeState, m: SlopeState, i: int): (w: Window)
    requires fs > 0.0 && 0 <= i < |x| && WindowOk(st.win, st.qrs)
    ensures WindowOk(w, NewCrossings(x, fs, st, m, i))
  {
    var t := EngzeeTimes(fs);
    var qrs := NewCrossings(x, fs, st, m, i);
    var started := if |qrs| > |st.qrs| then st.win.(thi := true) else st.win;
    Debounce(x, t.ms160, qrs, started, i, m.m)
  }

  /** The rest of the iteration for sample `i` once the `M` block has
      produced the new `M` state `m`: `M` joins `M_list`, the crossing
      test against it, the debounce block and the R-peak search, which
      raises `ValueError` exactly when its slice is empty; a found R-peak
      is appended and closes the window. */
  function EngzeeTail(x: seq<real>, raw: seq<real>, fs: real, delay: int, st: EngzeeState, m: SlopeState, i: int)
    : (r: Result<EngzeeState>)
    requires fs > 0.0 && 0 <= i < |x| && |raw| == |x| && WindowOk(st.win, st.qrs)
    ensures r.Err? <==>
              SearchFails(raw, Int(0.01 * fs), NewCrossings(x, fs, st, m, i), NewWindow(x, fs, st, m, i), i)
    ensures r.Err? ==> r.error == ValueError
    ensures r.Ok? ==> && r.value.slope == m && r.value.mList == st.mList + [r.value.slope.m]
                      && r.value.qrs == NewCrossings(x, fs, st, m, i)
                      && WindowOk(r.value.win, r.value.qrs)
    ensures r.Ok? ==>
              var found := Search(raw, Int(0.01 * fs), delay, NewCrossings(x, fs, st, m, i), NewWindow(x, fs, st, m, i), i);
              && (found.value.Peak? ==> r.value.rPeaks == st.rPeaks + [found.value.at] && r.value.win == Window(false, false, 0))
              && (found.value.NoSearch? ==> r.value.rPeaks == st.rPeaks && r.value.win == NewWindow(x, fs, st, m, i))
  {
    var t := EngzeeTimes(fs);
    var qrs := NewCrossings(x, fs, st, m, i);
    var w := NewWindow(x, fs, st, m, i);
    var found := Search(raw, t.ms10, delay, qrs, w, i);
    if found.Err? then Err(found.error)
    else if found.value.Peak? then
      Ok(EngzeeState(m, qrs, Window(false, false, 0), st.rPeaks + [found.value.at], st.mList + [m.m]))
    else Ok(EngzeeState(m, qrs, w, st.rPeaks, st.mList + [m.m]))
  }

  /** Every R-peak lies between `ms10` samples before its crossing and
      `ms160` samples after it, shifted by the benchmarking delay. */
  predicate NearCrossing(rPeaks: seq<int>, qrs: seq<int>, t: Times, delay: int)
  {
    forall k :: 0 <= k < |rPeaks| ==> NearOne(rPeaks[k], qrs, t, delay)
  }

  /** R-peak `p` lies in the search window of some crossing. */
  predicate NearOne(p: int, qrs: seq<int>, t: Times, delay: int)
  {
    exists q :: q in qrs && delay + q - t.ms10 <= p < delay + q + t.ms160
  }

  /** A further crossing keeps every R-peak near one. */
  lemma NearCrossingGrows(rPeaks: seq<int>, qrs: seq<int>, c: int, t: Times, delay: int)
    requires NearCrossing(rPeaks, qrs, t, delay)
    ensures NearCrossing(rPeaks, qrs + [c], t, delay)
  {
    forall k | 0 <= k < |rPeaks|
      ensures NearOne(rPeaks[k], qrs + [c], t, delay)
    {
      var q :| q in qrs && delay + q - t.ms10 <= rPeaks[k] < delay + q + t.ms160;
      assert q in qrs + [c];
    }
  }

  /** What holds of the window and the R-peaks: the flags are consistent,
      R-peaks are increasing, near their crossings, before the end of the
      last crossing's window and — while a window is open — before its
      look-back start, so that the next R-peak comes after all of them. */
  predicate Core(t: Times, delay: int, qrs: seq<int>, w: Window, rPeaks: seq<int>)
  {
    && WindowOk(w, qrs)
    && (|rPeaks| > 0 ==> |qrs| > 0)
    && StrictlyIncreasing(rPeaks)
    && NearCrossing(rPeaks, qrs, t, delay)
    && (|qrs| > 0 ==> forall k :: 0 <= k < |rPeaks| ==> rPeaks[k] < delay + qrs[|qrs| - 1] + t.ms160)
    && (w.thi ==> forall k :: 0 <= k < |rPeaks| ==> rPeaks[k] < delay + qrs[|qrs| - 1] - t.ms10)
  }

  /** What holds before sample `i`: the `M` state is ready, the crossings
      are spaced, sound and covering against `M_list`, the window and the
      R-peaks satisfy `Core`, and the counter has not passed
      `neg_threshold`. */
  predicate EngzeeInv(x: seq<real>, t: Times, delay: int, st: EngzeeState, i: int)
  {
    && SlopeReady(x, st.slope, i)
    && Detected(x, t.ms200, st.qrs, st.mList, i)
    && Core(t, delay, st.qrs, st.win, st.rPeaks)
    && st.win.counter <= t.ms10
  }

  /** A crossing more than `ms200` after the previous one opens a window
      and keeps `Core`: every R-peak so far lies before the new window's
      look-back start. */
  lemma CrossKeeps(t: Times, delay: int, qrs: seq<int>, w: Window, rPeaks: seq<int>, i: int)
    requires Core(t, delay, qrs, w, rPeaks) && t.ms160 + t.ms10 <= t.ms200
    requires |qrs| > 0 ==> i > qrs[|qrs| - 1] + t.ms200
    ensures Core(t, delay, qrs + [i], w.(thi := true), rPeaks)
  {
    NearCrossingGrows(rPeaks, qrs, i, t, delay);
    assert forall k :: 0 <= k < |rPeaks| ==> rPeaks[k] < delay + i - t.ms10;
  }

  /** Appending an R-peak found in the look-back window of the open
      crossing, and closing the window, keeps `Core`. */
  lemma EmitKeeps(t: Times, delay: int, qrs: seq<int>, w: Window, rPeaks: seq<int>, i: int, peak: int)
    requires Core(t, delay, qrs, w, rPeaks) && w.thi
    requires i < qrs[|qrs| - 1] + t.ms160
    requires delay + qrs[|qrs| - 1] - t.ms10 <= peak < delay + i
    ensures Core(t, delay, qrs, Window(false, false, 0), rPeaks + [peak])
  {
    var last := qrs[|qrs| - 1];
    var grown := rPeaks + [peak];
    assert last in qrs;
    forall j, k | 0 <= j < k < |grown|
      ensures grown[j] < grown[k]
    {
      if k == |rPeaks| {
        assert grown[j] == rPeaks[j];
      }
    }
    forall k | 0 <= k < |grown|
      ensures NearOne(grown[k], qrs, t, delay)
    {
      if k < |rPeaks| {
        assert grown[k] == rPeaks[k];
      }
    }
  }

  /** The crossing test and the debounce block keep `Core`; the counter
      grows by at most one, and only inside the window of the last
      crossing. */
  lemma NewWindowKeeps(x: seq<real>, fs: real, delay: int, st: EngzeeState, m: SlopeState, i: int)
    requires fs > 0.0 && 0 <= i < |x| && Core(EngzeeTimes(fs), delay, st.qrs, st.win, st.rPeaks)
    ensures var qrs, w := NewCrossings(x, fs, st, m, i), NewWindow(x, fs, st, m, i);
      && Core(EngzeeTimes(fs), delay, qrs, w, st.rPeaks)
      && w.counter <= st.win.counter + 1
      && (w.counter > st.win.counter ==> w.thi && i < qrs[|qrs| - 1] + EngzeeTimes(fs).ms160)
  {
    var t := EngzeeTimes(fs);
    if Fires(x, t.ms200, st.qrs, m.m, i) {
      CrossKeeps(t, delay, st.qrs, st.win, st.rPeaks, i);
    }
  }

  /** The tail of an iteration keeps the crossings spaced, sound and
      covering against `M_list`. */
  lemma TailKeepsDetected(x: seq<real>, raw: seq<real>, fs: real, delay: int, st: EngzeeState, m: SlopeState, i: int)
    requires fs > 0.0 && 0 <= i < |x| && |raw| == |x| && WindowOk(st.win, st.qrs)
    requires Detected(x, EngzeeTimes(fs).ms200, st.qrs, st.mList, i)
    ensures var r := EngzeeTail(x, raw, fs, delay, st, m, i);
      r.Ok? ==> Detected(x, EngzeeTimes(fs).ms200, r.value.qrs, r.value.mList, i + 1)
  {
    DetectedStep(x, EngzeeTimes(fs).ms200, st.qrs, st.mList, m.m, i);
  }

  /** The R-peak search keeps `Core`: a found R-peak closes the window,
      and without a search the counter has not passed `neg_threshold`. */
  lemma SearchKeeps(t: Times, delay: int, raw: seq<real>, qrs: seq<int>, w: Window, rPeaks: seq<int>, i: int)
    requires 0 <= t.ms10 && 0 <= i <= |raw| && Core(t, delay, qrs, w, rPeaks)
    requires w.counter > t.ms10 ==> i < qrs[|qrs| - 1] + t.ms160
    ensures var found := Search(raw, t.ms10, delay, qrs, w, i);
      && (found.Ok? && found.value.Peak? ==> Core(t, delay, qrs, Window(false, false, 0), rPeaks + [found.value.at]))
      && (found.Ok? && found.value.NoSearch? ==> w.counter <= t.ms10)
  {
    var found := Search(raw, t.ms10, delay, qrs, w, i);
    if found.Ok? && found.value.Peak? {
      EmitKeeps(t, delay, qrs, w, rPeaks, i, found.value.at);
    }
  }

  /** The tail of an iteration keeps `Core` and the counter at most
      `neg_threshold`: a counter that passes it triggers the search, which
      either raises or closes the window. */
  lemma TailKeepsCore(x: seq<real>, raw: seq<real>, fs: real, delay: int, st: EngzeeState, m: SlopeState, i: int)
    requires fs > 0.0 && 0 <= i < |x| && |raw| == |x|
    requires Core(EngzeeTimes(fs), delay, st.qrs, st.win, st.rPeaks) && st.win.counter <= EngzeeTimes(fs).ms10
    ensures var r := EngzeeTail(x, raw, fs, delay, st, m, i);
      r.Ok? ==> Core(EngzeeTimes(fs), delay, r.value.qrs, r.value.win, r.value.rPeaks)
                && r.value.win.counter <= EngzeeTimes(fs).ms10
  {
    var t := EngzeeTimes(fs);
    NewWindowKeeps(x, fs, delay, st, m, i);
    SearchKeeps(t, delay, raw, NewCrossings(x, fs, st, m, i), NewWindow(x, fs, st, m, i), st.rPeaks, i);
  }

  /** What the iteration for sample `i` needs: a positive sampling rate, a
      sample to visit with its raw counterpart, a ready `M` state,
      crossings before `i` and consistent window flags. */
  predicate EngzeeReady(x: seq<real>, raw: seq<real>, fs: real, st: EngzeeState, i: int)
  {
    && fs > 0.0 && 0 <= i < |x| && |raw| == |x|
    && SlopeReady(x, st.slope, i)
    && AllBefore(st.qrs, i)
    && WindowOk(st.win, st.qrs)
  }

  /** The `M` block of Engzee's detector: the steep-slope update with the
      decay factors `np.linspace(1, 0.6, ms1200 - ms200)`, whose commit
      step is skipped while `newM5` is zero. */
  function EngzeeSlope(x: seq<real>, raw: seq<real>, fs: real, st: EngzeeState, i: int): (m: SlopeState)
    requires EngzeeReady(x, raw, fs, st, i)
    ensures SlopeReady(x, m, i + 1)
  {
    var t := EngzeeTimes(fs);
    SlopeNext(EngzeeVariant, x, fs, t.ms200, t.ms1200, Linspace(1.0, 0.6, t.ms1200 - t.ms200), st.qrs, st.slope, i)
  }

  /** One iteration of the sample loop: `M`, then the crossing test, the
      debounce block and the R-peak search. */
  function EngzeeNext(x: seq<real>, raw: seq<real>, fs: real, delay: int, st: EngzeeState, i: int)
    : (r: Result<EngzeeState>)
    requires EngzeeReady(x, raw, fs, st, i)
    ensures r.Err? ==> r.error == ValueError
    ensures r.Ok? ==> SlopeReady(x, r.value.slope, i + 1) && AllBefore(r.value.qrs, i + 1)
                      && WindowOk(r.value.win, r.value.qrs)
  {
    var m := EngzeeSlope(x, raw, fs, st, i);
    CrossingsBefore(x, EngzeeTimes(fs).ms200, st.qrs, m.m, i);
    EngzeeTail(x, raw, fs, delay, st, m, i)
  }

  /** An iteration that does not raise keeps the invariant. */
  lemma EngzeeNextKeeps(x: seq<real>, raw: seq<real>, fs: real, delay: int, st: EngzeeState, i: int)
    requires EngzeeReady(x, raw, fs, st, i) && EngzeeInv(x, EngzeeTimes(fs), delay, st, i)
    ensures var r := EngzeeNext(x, raw, fs, delay, st, i);
      r.Ok? ==> EngzeeInv(x, EngzeeTimes(fs), delay, r.value, i + 1)
  {
    var m := EngzeeSlope(x, raw, fs, st, i);
    TailKeepsDetected(x, raw, fs, delay, st, m, i);
    TailKeepsCore(x, raw, fs, delay, st, m, i);
  }

  /** The state before the loop: everything zero, false or empty. */
  function EngzeeStart(): EngzeeState
  {
    EngzeeState(SlopeState(0.0, 0.0, []), [], Window(false, false, 0), [], [])
  }

  /** The invariant holds before the first sample. */
  lemma EngzeeStartInv(x: seq<real>, fs: real, delay: int)
    requires fs > 0.0
    ensures SlopeReady(x, EngzeeStart().slope, 0) && AllBefore(EngzeeStart().qrs, 0)
    ensures WindowOk(EngzeeStart().win, EngzeeStart().qrs)
    ensures EngzeeInv(x, EngzeeTimes(fs), delay, EngzeeStart(), 0)
  {
  }

  /** The first `n` iterations of the sample loop; the only error is
      `ValueError`, and otherwise the next iteration can run. */
  function EngzeeRun(x: seq<real>, raw: seq<real>, fs: real, delay: int, n: int): (r: Result<EngzeeState>)
    requires fs > 0.0 && 0 <= n <= |x| && |raw| == |x|
    ensures r.Err? ==> r.error == ValueError
    ensures r.Ok? ==> SlopeReady(x, r.value.slope, n) && AllBefore(r.value.qrs, n) && WindowOk(r.value.win, r.value.qrs)
  {
    EngzeeIterations(x, raw, fs, delay, n)
  }

  /** The recursion behind `EngzeeRun`. */
  function EngzeeIterations(x: seq<real>, raw: seq<real>, fs: real, delay: int, n: int): (r: Result<EngzeeState>)
    requires fs > 0.0 && 0 <= n <= |x| && |raw| == |x|
    ensures r.Err? ==> r.error == ValueError
    ensures r.Ok? ==> SlopeReady(x, r.value.slope, n) && AllBefore(r.value.qrs, n) && WindowOk(r.value.win, r.value.qrs)
    decreases n, 2
  {
    if n == 0 then Ok(EngzeeStart()) else EngzeeIteration(x, raw, fs, delay, n - 1)
  }

  /** The iteration for sample `i` after the first `i`: an error stays,
      otherwise `EngzeeNext` runs. */
  function EngzeeIteration(x: seq<real>, raw: seq<real>, fs: real, delay: int, i: int): (r: Result<EngzeeState>)
    requires fs > 0.0 && 0 <= i < |x| && |raw| == |x|
    ensures r.Err? ==> r.error == ValueError
    ensures r.Ok? ==> SlopeReady(x, r.value.slope, i + 1) && AllBefore(r.value.qrs, i + 1) && WindowOk(r.value.win, r.value.qrs)
    decreases i + 1, 1
  {
    if EngzeeIterations(x, raw, fs, delay, i).Err? then EngzeeIterations(x, raw, fs, delay, i)
    else EngzeeAdvance(x, raw, fs, delay, i)
  }

  /** `EngzeeNext` on the state after the first `i` iterations. */
  function EngzeeAdvance(x: seq<real>, raw: seq<real>, fs: real, delay: int, i: int): (r: Result<EngzeeState>)
    requires fs > 0.0 && 0 <= i < |x| && |raw| == |x| && EngzeeIterations(x, raw, fs, delay, i).Ok?
    ensures r.Err? ==> r.error == ValueError
    ensures r.Ok? ==> SlopeReady(x, r.value.slope, i + 1) && AllBefore(r.value.qrs, i + 1) && WindowOk(r.value.win, r.value.qrs)
    decreases i + 1, 0
  {
    EngzeeNext(x, raw, fs, delay, EngzeeIterations(x, raw, fs, delay, i).value, i)
  }

  /** One more iteration after the first `n` that did not raise: the
      iteration for sample `n` runs, that is `EngzeeNext` on the state
      after `n` iterations. */
  lemma EngzeeRunStep(x: seq<real>, raw: seq<real>, fs: real, delay: int, n: int)
    requires fs > 0.0 && 0 <= n < |x| && |raw| == |x|
    ensures EngzeeRun(x, raw, fs, delay, n).Ok? ==>
      EngzeeRun(x, raw, fs, delay, n + 1) == EngzeeAdvance(x, raw, fs, delay, n)
  {
    assert n + 1 - 1 == n;
    assert EngzeeIterations(x, raw, fs, delay, n + 1) == EngzeeIteration(x, raw, fs, delay, n);
    if EngzeeRun(x, raw, fs, delay, n).Ok? {
      assert EngzeeIteration(x, raw, fs, delay, n) == EngzeeAdvance(x, raw, fs, delay, n);
    }
  }

  /** Once an iteration has raised, the next one raises too: the loop
      has stopped. */
  lemma EngzeeRunSticks(x: seq<real>, raw: seq<real>, fs: real, delay: int, n: int)
    requires fs > 0.0 && 0 <= n < |x| && |raw| == |x| && EngzeeRun(x, raw, fs, delay, n).Err?
    ensures EngzeeRun(x, raw, fs, delay, n + 1).Err?
  {
    assert n + 1 - 1 == n;
    assert EngzeeIterations(x, raw, fs, delay, n + 1) == EngzeeIteration(x, raw, fs, delay, n);
  }

  /** A run of `n` iterations that did not raise extends one that did
      not raise either. */
  lemma EngzeeRunPrefixOk(x: seq<real>, raw: seq<real>, fs: real, delay: int, n: int)
    requires fs > 0.0 && 0 < n <= |x| && |raw| == |x| && EngzeeRun(x, raw, fs, delay, n).Ok?
    ensures EngzeeRun(x, raw, fs, delay, n - 1).Ok?
  {
    assert EngzeeIterations(x, raw, fs, delay, n) == EngzeeIteration(x, raw, fs, delay, n - 1);
  }

  /** `M_list` after `n` iterations, stated per iteration: entry `k` is
      the `M` of the state after the iteration for sample `k`. */
  function EngzeeThresholds(x: seq<real>, raw: seq<real>, fs: real, delay: int, n: int): (ths: seq<real>)
    requires fs > 0.0 && 0 <= n <= |x| && |raw| == |x| && EngzeeRun(x, raw, fs, delay, n).Ok?
    ensures |ths| == n
    decreases n
  {
    if n == 0 then []
    else
      EngzeeRunPrefixOk(x, raw, fs, delay, n);
      EngzeeThresholds(x, raw, fs, delay, n - 1) + [EngzeeRun(x, raw, fs, delay, n).value.slope.m]
  }

  /** The iterations record exactly those thresholds in `M_list`. */
  lemma {:induction false} EngzeeRunThresholds(x: seq<real>, raw: seq<real>, fs: real, delay: int, n: int)
    requires fs > 0.0 && 0 <= n <= |x| && |raw| == |x| && EngzeeRun(x, raw, fs, delay, n).Ok?
    ensures EngzeeRun(x, raw, fs, delay, n).value.mList == EngzeeThresholds(x, raw, fs, delay, n)
    decreases n
  {
    if n > 0 {
      EngzeeRunPrefixOk(x, raw, fs, delay, n);
      EngzeeRunThresholds(x, raw, fs, delay, n - 1);
      EngzeeRunStep(x, raw, fs, delay, n - 1);
      assert n - 1 + 1 == n;
    }
  }

  /** The crossings, R-peaks and thresholds of the sample loop. */
  datatype Trace = Trace(crossings: seq<int>, rPeaks: seq<int>, mList: seq<real>)

  /** The body of the sample loop for sample `i`: the run one sample
      further. */
  method EngzeeStep(x: seq<real>, raw: seq<real>, fs: real, delay: int, st: EngzeeState, i: int)
    returns (r: Result<EngzeeState>)
    requires fs > 0.0 && 0 <= i < |x| && |raw| == |x|
    requires EngzeeRun(x, raw, fs, delay, i) == Ok(st)
    ensures r == EngzeeRun(x, raw, fs, delay, i + 1)
  {
    r := EngzeeNext(x, raw, fs, delay, st, i);
    EngzeeRunStep(x, raw, fs, delay, i);
  }

  /** Every state the iterations reach keeps the invariant. */
  lemma {:induction false} EngzeeRunInv(x: seq<real>, raw: seq<real>, fs: real, delay: int, n: int)
    requires fs > 0.0 && 0 <= n <= |x| && |raw| == |x| && EngzeeRun(x, raw, fs, delay, n).Ok?
    ensures EngzeeInv(x, EngzeeTimes(fs), delay, EngzeeRun(x, raw, fs, delay, n).value, n)
    decreases n
  {
    if n == 0 {
      EngzeeStartInv(x, fs, delay);
      assert EngzeeIterations(x, raw, fs, delay, 0) == Ok(EngzeeStart());
    } else {
      EngzeeRunPrefixOk(x, raw, fs, delay, n);
      EngzeeRunInv(x, raw, fs, delay, n - 1);
      EngzeeRunKeeps(x, raw, fs, delay, n - 1);
      assert n - 1 + 1 == n;
    }
  }

  /** An iteration after `n` that did not raise keeps the invariant. */
  lemma EngzeeRunKeeps(x: seq<real>, raw: seq<real>, fs: real, delay: int, n: int)
    requires fs > 0.0 && 0 <= n < |x| && |raw| == |x| && EngzeeRun(x, raw, fs, delay, n).Ok?
    requires EngzeeInv(x, EngzeeTimes(fs), delay, EngzeeRun(x, raw, fs, delay, n).value, n)
    ensures EngzeeRun(x, raw, fs, delay, n + 1).Ok? ==>
      EngzeeInv(x, EngzeeTimes(fs), delay, EngzeeRun(x, raw, fs, delay, n + 1).value, n + 1)
  {
    EngzeeRunStep(x, raw, fs, delay, n);
    EngzeeNextKeeps(x, raw, fs, delay, EngzeeRun(x, raw, fs, delay, n).value, n);
  }

  /** The sample loop of `engzee_detector`, before the final
      `r_peaks.pop(0)`: the iterations of `EngzeeRun`. It raises
      `ValueError` exactly when some iteration's R-peak search slice is
      empty. Otherwise `M_list` is `EngzeeThresholds(x, raw, fs, delay, |x|)`; the
      crossings are increasing, more than `int(0.2*fs)` apart, each above
      its threshold, and every sample above its threshold is a crossing or
      lies within `int(0.2*fs)` samples after one; the R-peaks are
      strictly increasing and each lies between `int(0.01*fs)` samples
      before a crossing and `int(0.16*fs)` after it (plus the delay). */
  method EngzeeScan(x: seq<real>, raw: seq<real>, fs: real, delay: int) returns (r: Result<Trace>)
    requires fs > 0.0 && |raw| == |x|
    ensures var run := EngzeeRun(x, raw, fs, delay, |x|);
      && (run.Err? ==> r == Err(run.error))
      && (run.Ok? ==> r == Ok(Trace(run.value.qrs, run.value.rPeaks, run.value.mList)))
    ensures r.Err? ==> r.error == ValueError
    ensures r.Ok? ==> r.value.mList == EngzeeThresholds(x, raw, fs, delay, |x|)
    ensures r.Ok? ==> Detected(x, Int(0.2 * fs), r.value.crossings, r.value.mList, |x|)
    ensures r.Ok? ==> StrictlyIncreasing(r.value.rPeaks)
                      && NearCrossing(r.value.rPeaks, r.value.crossings, EngzeeTimes(fs), delay)
  {
    var st := EngzeeStart();
    var i := 0;
    assert EngzeeIterations(x, raw, fs, delay, 0) == Ok(st);
    while i < |x|
      invariant 0 <= i <= |x|
      invariant EngzeeRun(x, raw, fs, delay, i) == Ok(st)
    {
      var step := EngzeeStep(x, raw, fs, delay, st, i);
      if step.Err? {
        EngzeeRunStaysFailed(x, raw, fs, delay, i + 1);
        return Err(step.error);
      }
      st := step.value;
      i := i + 1;
    }
    EngzeeScanDone(x, raw, fs, delay, st);
    r := Ok(Trace(st.qrs, st.rPeaks, st.mList));
  }

  /** What the invariant says once every sample has been processed. */
  lemma EngzeeScanDone(x: seq<real>, raw: seq<real>, fs: real, delay: int, st: EngzeeState)
    requires fs > 0.0 && |raw| == |x|
    requires EngzeeRun(x, raw, fs, delay, |x|) == Ok(st)
    ensures st.mList == EngzeeThresholds(x, raw, fs, delay, |x|)
    ensures Detected(x, Int(0.2 * fs), st.qrs, st.mList, |x|)
    ensures StrictlyIncreasing(st.rPeaks) && NearCrossing(st.rPeaks, st.qrs, EngzeeTimes(fs), delay)
  {
    EngzeeRunInv(x, raw, fs, delay, |x|);
    EngzeeRunThresholds(x, raw, fs, delay, |x|);
  }

  /** A run that raised before sample `n` raises for the whole signal. */
  lemma {:induction false} EngzeeRunStaysFailed(x: seq<real>, raw: seq<real>, fs: real, delay: int, n: int)
    requires fs > 0.0 && 0 <= n <= |x| && |raw| == |x| && EngzeeRun(x, raw, fs, delay, n).Err?
    ensures EngzeeRun(x, raw, fs, delay, |x|).Err?
    decreases |x| - n
  {
    if n < |x| {
      EngzeeRunSticks(x, raw, fs, delay, n);
      EngzeeRunStaysFailed(x, raw, fs, delay, n + 1);
    } else {
      assert n == |x|;
    }
  }

  /** Dropping the first R-peak keeps the rest increasing and near their
      crossings. */
  lemma DropFirstKeeps(rPeaks: seq<int>, qrs: seq<int>, t: Times, delay: int)
    requires |rPeaks| > 0 && StrictlyIncreasing(rPeaks) && NearCrossing(rPeaks, qrs, t, delay)
    ensures StrictlyIncreasing(rPeaks[1..]) && NearCrossing(rPeaks[1..], qrs, t, delay)
  {
    assert forall k :: 0 <= k < |rPeaks| - 1 ==> rPeaks[1..][k] == rPeaks[k + 1];
  }

  /** The sample loop followed by `r_peaks.pop(0)`: the first R-peak only
      primes the threshold, and popping an empty list raises `IndexError`.
      The reported R-peaks are strictly increasing and each lies in the
      search window of a crossing. */
  method EngzeeDecide(x: seq<real>, raw: seq<real>, fs: real, delay: int) returns (r: Result<seq<int>>)
    requires fs > 0.0 && |raw| == |x|
    ensures var run := EngzeeRun(x, raw, fs, delay, |x|);
      && (r == Err(ValueError) <==> run.Err?)
      && (r == Err(IndexError) <==> run.Ok? && |run.value.rPeaks| == 0)
      && (r.Ok? ==> run.Ok? && r.value == run.value.rPeaks[1..])
    ensures r.Err? ==> r.error == ValueError || r.error == IndexError
    ensures r.Ok? ==> StrictlyIncreasing(r.value)
                      && NearCrossing(r.value, EngzeeRun(x, raw, fs, delay, |x|).value.qrs, EngzeeTimes(fs), delay)
  {
    var scan := EngzeeScan(x, raw, fs, delay);
    if scan.Err? {
      r := Err(scan.error);
    } else if |scan.value.rPeaks| == 0 {
      r := Err(IndexError);
    } else {
      DropFirstKeeps(scan.value.rPeaks, scan.value.crossings, EngzeeTimes(fs), delay);
      r := Ok(scan.value.rPeaks[1..]);
    }
  }

  /** `signal.lfilter([1, 4, 6, 4, 1], 1, diff)`: a causal binomial FIR
      filter with zero initial state. */
  function LowPass(x: seq<real>): (y: seq<real>)
    ensures |y| == |x|
  {
    seq(|x|, k requires 0 <= k < |x| =>
      Tap(x, k, 0) + 4.0 * Tap(x, k, 1) + 6.0 * Tap(x, k, 2) + 4.0 * Tap(x, k, 3) + Tap(x, k, 4))
  }

  /** The sample `j` steps before `k`, or 0 before the start. */
  function Tap(x: seq<real>, k: int, j: nat): real
    requires k < |x|
  {
    if k - j >= 0 then x[k - j] else 0.0
  }

  /** Once its five taps are filled, the low-pass filter has gain 16; on
      a zero input it outputs zero from the start. */
  lemma LowPassGain(x: seq<real>, c: real, k: int)
    requires 0 <= k < |x|
    requires forall j :: k - 4 <= j <= k && 0 <= j ==> x[j] == c
    ensures 4 <= k ==> LowPass(x)[k] == 16.0 * c
    ensures c == 0.0 ==> LowPass(x)[k] == 0.0
  {
  }

  /** `low_pass` of `engzee_detector`: the lag-4 difference of the notch
      filtered signal, low-passed, with its first `int(0.2*fs)` samples
      cleared. */
  function EngzeeSignal(filtered: seq<real>, fs: real): (lp: seq<real>)
    requires fs > 0.0
    ensures |lp| == |filtered|
    ensures forall k :: 0 <= k < Int(0.2 * fs) && k < |lp| ==> lp[k] == 0.0
    ensures forall k :: Int(0.2 * fs) <= k < |lp| ==> lp[k] == LowPass(Lag4Diff(filtered))[k]
  {
    ZeroPrefix(LowPass(Lag4Diff(filtered)), Int(0.2 * fs))
  }

  /** `engzee_detector` after its notch filter; `raw` is the signal the
      R-peak search reads and `delay` is `engzee_fake_delay`. An empty
      signal makes the FIR low-pass raise ValueError (numpy's convolution
      refuses an empty operand). */
  method EngzeeDetector(filtered: seq<real>, raw: seq<real>, fs: real, delay: int) returns (r: Result<seq<int>>)
    requires fs > 0.0 && |raw| == |filtered|
    ensures |filtered| == 0 ==> r == Err(ValueError)
    ensures |filtered| > 0 ==>
      var lp := EngzeeSignal(filtered, fs);
      var run := EngzeeRun(lp, raw, fs, delay, |lp|);
      && (r == Err(ValueError) <==> run.Err?)
      && (r == Err(IndexError) <==> run.Ok? && |run.value.rPeaks| == 0)
      && (r.Ok? ==> run.Ok? && r.value == run.value.rPeaks[1..])
    ensures r.Ok? ==> StrictlyIncreasing(r.value)
                      && NearCrossing(r.value, EngzeeRun(EngzeeSignal(filtered, fs), raw, fs, delay, |filtered|).value.qrs,
                                      EngzeeTimes(fs), delay)
  {
    if |filtered| == 0 {
      return Err(ValueError);
    }
    r := EngzeeDecide(EngzeeSignal(filtered, fs), raw, fs, delay);
  }
}
