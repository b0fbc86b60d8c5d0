# ECG QRS detectors: a Dafny model

This project models the decision logic of `ecgdetectors.py`, a library of
six QRS (heart-beat) detectors for electrocardiograms. A `Detectors` object
is built with a sampling rate `fs`. It offers these detectors:

- Hamilton;
- Christov;
- Engzee with the Lourenco modifications;
- Pan–Tompkins;
- Elgendi's two-average detector;
- WQRS.

Each detector turns a sampled signal into the list of sample indices where
it places a beat. The model covers the following:

- **Moving-window average engine** (`MovingAverage`). It covers `MWA_from_name`
  and the three implementations `MWA_cumulative`, `MWA_original` and
  `MWA_convolve`. Each implementation is a method over arrays or sequences,
  proved equal to one reference definition `MwaSpec`. Each one's
  Python/numpy failure on short inputs is modelled as an error result.
- **Signal transforms** (`Transforms`): differences, squaring, absolute
  values, causal FIR means, the Engzee lag-4 difference and its
  `[1,4,6,4,1]` low pass, and the zeroing of a start-up prefix.
- **The decision loops**:
  - `panPeakDetect` with the `pan_tompkins_detector` front end (`PanTompkins`);
  - the Hamilton loop (`Hamilton`);
  - the Christov M/F/R threshold loop (`Christov`);
  - the Engzee crossing / debounce / emission loop (`Engzee`);
  - the two-average block scan (`TwoAverage`);
  - the WQRS length transform and threshold (`Wqrs`).

  Each loop is a state record advanced by small step methods. Each step
  preserves a named invariant. The invariants are:
  - detections are increasing;
  - detections are separated by the refractory gap;
  - each detection lies on a local peak, or above the threshold;
  - and, where the source guarantees it, every qualifying sample is
    covered by a detection.
- **The steep-slope threshold `M`** shared by Christov and Engzee (`SteepSlope`):
  - `np.linspace(1.0, 0.6, …)` and its monotonicity;
  - the five-entry `MM` buffer;
  - the decay factor in [0.6, 1] that scales `mean(MM)` between 200 ms and
    1.2 s after a beat.
- **The registry** `detector_list` / `get_detector_list` (`Registry`), and
  **`normalise`** (`Normalisation`).

Python's semantics are written out:
- `int()` truncates toward zero (`Common.Int`);
- a slice clamps its bounds (`Common.PySlice`);
- a negative index counts from the end (`Common.PyIndex`);
- `append` followed by `pop(0)` keeps a bounded buffer (`Common.PushBounded`);
- `np.argmax` takes the first maximum (`Common.FirstArgmax`);
- exceptions become `Result` values (`IndexError`, `ValueError`,
  `RuntimeError`, `TypeError`, `UnboundLocalError`).

Samples are mathematical reals.

Where the code and its description differ, the model follows the code:

- **Hamilton never pops its signal-peak list.** Hamilton's `s_pks` is
  trimmed only when `len(n_pks) > 8`. The noise list itself is capped at 8,
  so that condition is never true. As a result, `s_pks_ave` is the mean of
  every accepted peak, not of the last eight, and
  `Hamilton.AcceptedFields` states exactly this.
- **Hamilton's missed-beat search indexes `peaks` by sample numbers.**
  `idx` records the sample number `i` of each accepted beat, but
  `peaks[idx[-2]+1:idx[-1]]` and `peaks[idx[-2]]` use those numbers as
  positions in the list of candidates. A sample number is never smaller
  than the candidate's position, so the slice can reach the end of
  `peaks`. The lookup `peaks[idx[-2]]` is evaluated only inside the loop
  over that slice, so the slice is non-empty, `idx[-2]` is a valid
  position, and the lookup cannot raise (`Hamilton.FirstMissedPeak`).
- **Hamilton can record a beat twice.** Because the slice can end at the
  last candidate, it can hold the beat just accepted. That beat lies above
  the threshold and therefore above half of it, so recovery can insert it
  into `QRS` a second time. `Hamilton.RecoveryCanRepeatCurrentBeat`
  exhibits such a state. The detections are therefore sorted, not
  strictly increasing, and `Hamilton.HamiltonLoop` states exactly that.
- **Engzee's two crossing lists are the same list.** `thi_list` grows
  exactly when `QRS` does, so the model keeps a single list of crossings.
- **Engzee's M update differs from Christov's in one branch.** At 200 ms
  after a crossing, Engzee commits `newM5` only when it is non-zero, while
  Christov replaces a zero `newM5` by `MM[-1]` and commits it
  (`SteepSlope.SlopeNext`).
- **Engzee reads Python's negative indices.** At sample 0 the debounce
  test reads `low_pass[-1]`, the last sample. The R-peak search slice
  `unfiltered_ecg[c - int(0.01*fs) : i]` starts from the end of the
  signal when `c < int(0.01*fs)`, and an empty slice makes `np.argmax`
  raise `ValueError` (`Engzee.Search`, `Engzee.SearchEmptyWhen`).
- **Elgendi's two-average detector never reaches `np.max` on an empty
  signal.** Its 600 ms moving average fails first with `IndexError`,
  unless `MWA_convolve` with a one-sample window already failed with
  `ValueError` (`TwoAverage.TwoAverageDetector`).
- **Very short signals make an FIR filter raise.** `signal.lfilter` with
  an FIR filter convolves, and numpy refuses an empty operand with
  `ValueError`. Hamilton's `np.diff` is empty for a signal of at most one
  sample, and Christov's `Y` is empty for one of at most two. Engzee's
  low-pass gets the empty signal itself (`Hamilton.HamiltonDetector`,
  `Christov.ChristovDetector`, `Engzee.EngzeeDetector`).
- **WQRS needs an integer `fs`.** `MWA_convolve(x, 10*fs)` hands `10*fs` to
  `np.pad` as a pad width. numpy accepts only an integer there, so WQRS
  fails with `TypeError` when `fs` is a float. `Wqrs.Rate` records which
  kind of number `fs` is.

## Model

| member | source | states |
|---|---|---|
| Common.Int | labs/lab10/code/lab1_fetal_ecg/ecgdetectors.py:185-188 | `int()` of a real truncates toward zero: for x ≥ 0 the result is the floor, for x < 0 the ceiling |
| Common.PySlice | labs/lab10/code/lab1_fetal_ecg/ecgdetectors.py:118 | a Python slice with in-range bounds is the Dafny subsequence; otherwise it is never longer than b − a and holds only elements of the list |
| Common.PyIndex | labs/lab10/code/lab1_fetal_ecg/ecgdetectors.py:366 | a negative index counts from the end of the list |
| Common.PushBounded | labs/lab10/code/lab1_fetal_ecg/ecgdetectors.py:212-214 | `append` then `pop(0)` when over capacity: below capacity the new element is appended, at or above it the oldest entry is also dropped; the buffer stays within capacity |
| Common.FirstArgmax | labs/lab10/code/lab1_fetal_ecg/ecgdetectors.py:385-387 | `np.argmax` returns an index whose value no element exceeds, and every earlier element is strictly smaller (the first maximum) |
| Common.InsertSorted | labs/lab10/code/lab1_fetal_ecg/ecgdetectors.py:121-122 | `append` then `sort()` yields a sorted list that is a permutation of the old list plus the new element |
| MovingAverage.MwaSpec | labs/lab10/code/lab1_fetal_ecg/ecgdetectors.py:540-553 | the reference moving average: one entry per sample, each the mean of the last `min(w, k+1)` samples |
| MovingAverage.MwaIdentity | labs/lab10/code/lab1_fetal_ecg/ecgdetectors.py:540-553 | a window of one sample leaves the signal unchanged |
| MovingAverage.MwaFirst | labs/lab10/code/lab1_fetal_ecg/ecgdetectors.py:543 | the first average is the first sample |
| MovingAverage.MwaBounds | labs/lab10/code/lab1_fetal_ecg/ecgdetectors.py:540-553 | every average lies between the signal's minimum and maximum |
| MovingAverage.MwaSlide | labs/lab10/code/lab1_fetal_ecg/ecgdetectors.py:531 | once the window is full, consecutive averages differ by (entering sample − leaving sample)/w: the sliding update `MWA_cumulative` relies on |
| MovingAverage.CumSum | labs/lab10/code/lab1_fetal_ecg/ecgdetectors.py:530 | `np.cumsum`: entry k is the sum of the first k+1 samples |
| MovingAverage.DivideByWindowLength | labs/lab10/code/lab1_fetal_ecg/ecgdetectors.py:533-535 | the two division loops succeed exactly when `ret[i-1]` stays in range for i < w, and then divide entry k by the window length min(w, k+1) |
| MovingAverage.MwaCumulative | labs/lab10/code/lab1_fetal_ecg/ecgdetectors.py:528-537 | fails with IndexError exactly when w ≥ len+2, otherwise equals the reference average |
| MovingAverage.MwaOriginal | labs/lab10/code/lab1_fetal_ecg/ecgdetectors.py:540-553 | fails with IndexError on an empty signal (`mwa[0]`), otherwise equals the reference average |
| MovingAverage.PaddedWindowSum | labs/lab10/code/lab1_fetal_ecg/ecgdetectors.py:558-559 | a valid-mode window over the zero-padded signal sums exactly the samples of the moving window |
| MovingAverage.SumRange | labs/lab10/code/lab1_fetal_ecg/ecgdetectors.py:559 | one output of `np.convolve` with a kernel of ones: the sum of the samples under the kernel |
| MovingAverage.ConvolveOnes | labs/lab10/code/lab1_fetal_ecg/ecgdetectors.py:559 | `np.convolve(p, ones(w), 'valid')`: length max(n,w) − min(n,w) + 1, entry k the sum of the window at k (the whole of p when p is shorter) |
| MovingAverage.MwaConvolve | labs/lab10/code/lab1_fetal_ecg/ecgdetectors.py:556-565 | on an empty signal: ValueError for w = 1, IndexError for w ≥ 4, `[0, 0]` otherwise; IndexError when w ≥ len+2; otherwise the reference average |
| MovingAverage.MwaFromName | labs/lab10/code/lab1_fetal_ecg/ecgdetectors.py:517-525 | succeeds exactly for "cumulative", "convolve", "original"; any other name raises RuntimeError |
| MovingAverage.MwaNameRoundTrip | labs/lab10/code/lab1_fetal_ecg/ecgdetectors.py:517-525 | name lookup and naming are inverse: each implementation is found by its own name and only by it |
| MovingAverage.ApplyMwa | labs/lab10/code/lab1_fetal_ecg/ecgdetectors.py:517-565 | on non-empty input every implementation that succeeds returns the reference average, and a window of len+2 or more fails (IndexError) exactly for the cumulative and convolve versions; on empty input: IndexError for the original, `[]` for cumulative only with w = 1 (IndexError otherwise), and for convolve ValueError with w = 1, `[0, 0]` with w = 2 or 3, IndexError from w = 4 |
| Transforms.Diff | labs/lab10/code/lab1_fetal_ecg/ecgdetectors.py:413 | `np.diff`: one entry fewer, entry k is x[k+1] − x[k] |
| Transforms.Squared | labs/lab10/code/lab1_fetal_ecg/ecgdetectors.py:415 | elementwise square, never negative |
| Transforms.Abs | labs/lab10/code/lab1_fetal_ecg/ecgdetectors.py:77 | elementwise absolute value, never negative |
| Transforms.ZeroPrefix | labs/lab10/code/lab1_fetal_ecg/ecgdetectors.py:85 | slice assignment `x[:n] = 0` for n >= 0: the first n samples become 0, the rest are kept |
| Transforms.CausalMean | labs/lab10/code/lab1_fetal_ecg/ecgdetectors.py:79-83 | `lfilter(ones(n)/n, 1, x)` keeps the length of its input |
| Transforms.CausalMeanVersusMwa | labs/lab10/code/lab1_fetal_ecg/ecgdetectors.py:79-83 | the FIR mean equals the moving average once n samples are in, and is the moving average scaled by (k+1)/n before that |
| Transforms.CentralAbsDiff | labs/lab10/code/lab1_fetal_ecg/ecgdetectors.py:169-174 | Christov's Y: two entries fewer, entry k is \|x[k+2] − x[k]\| |
| Transforms.Lag4Diff | labs/lab10/code/lab1_fetal_ecg/ecgdetectors.py:291-293 | Engzee's difference: zero for the first four samples, x[k] − x[k−4] after |
| Transforms.MwaNonNegative | labs/lab10/code/lab1_fetal_ecg/ecgdetectors.py:418 | a moving average of a non-negative signal is non-negative |
| Transforms.CausalMeanNonNegative | labs/lab10/code/lab1_fetal_ecg/ecgdetectors.py:83 | a FIR mean of a non-negative signal is non-negative |
| Transforms.WindowSumNonNegative | labs/lab10/code/lab1_fetal_ecg/ecgdetectors.py:83 | the window sum behind a FIR mean of a non-negative signal is non-negative |
| Transforms.NoPeakInClearedPrefix | labs/lab10/code/lab1_fetal_ecg/ecgdetectors.py:85 | after zeroing a prefix of a non-negative signal no local peak lies inside the prefix |
| Registry.DetectorList | labs/lab10/code/lab1_fetal_ecg/ecgdetectors.py:45-52 | six (description, detector) pairs with distinct descriptions and distinct detectors, each detector at its position |
| Registry.Position | labs/lab10/code/lab1_fetal_ecg/ecgdetectors.py:45-52 | every detector has a position among the six |
| Registry.PositionInverse | labs/lab10/code/lab1_fetal_ecg/ecgdetectors.py:54-62 | position and list are inverse: entry k holds detector d exactly when k is d's position |
| Normalisation.Normalise | labs/lab10/code/lab1_fetal_ecg/ecgdetectors.py:568-572 | ValueError exactly on an empty signal; all-NaN exactly when the signal is constant; otherwise one value per sample |
| Normalisation.NormaliseRange | labs/lab10/code/lab1_fetal_ecg/ecgdetectors.py:568-572 | every normalised value lies in [0, 1] and both 0 and 1 occur |
| Normalisation.NormaliseMonotone | labs/lab10/code/lab1_fetal_ecg/ecgdetectors.py:568-572 | normalising keeps the order of any two samples, in both directions |
| Normalisation.NormaliseIdempotent | labs/lab10/code/lab1_fetal_ecg/ecgdetectors.py:568-572 | normalising a normalised signal returns it unchanged |
| PanTompkins.UpdateLevel | labs/lab10/code/lab1_fetal_ecg/ecgdetectors.py:604 | SPKI/NPKI update 0.125·peak + 0.875·level moves the level toward the peak without passing it, and changes it exactly when they differ |
| PanTompkins.ThresholdI1 | labs/lab10/code/lab1_fetal_ecg/ecgdetectors.py:625 | threshold I1 lies between NPKI and SPKI, a quarter of the way from NPKI |
| PanTompkins.IndexDiffs | labs/lab10/code/lab1_fetal_ecg/ecgdetectors.py:629 | `np.diff` of the last beat indices: successive RR intervals |
| PanTompkins.IntervalsTelescope | labs/lab10/code/lab1_fetal_ecg/ecgdetectors.py:629-630 | the RR intervals of a beat list sum to the span from its first to its last beat |
| PanTompkins.MeanIntervalTelescopes | labs/lab10/code/lab1_fetal_ecg/ecgdetectors.py:629-630 | the mean RR interval is that span over the number of intervals |
| PanTompkins.RRMissedSpan | labs/lab10/code/lab1_fetal_ecg/ecgdetectors.py:628-631 | `RR_missed` is `int(1.66 · int(span of the last 9 beats / 8))` |
| PanTompkins.RecoverableCandidates | labs/lab10/code/lab1_fetal_ecg/ecgdetectors.py:608-611 | the filter keeps, in order, exactly the candidates of the section that are far enough from both beats and above I2; it is empty exactly when none is |
| PanTompkins.BestAtUnique | labs/lab10/code/lab1_fetal_ecg/ecgdetectors.py:613-616 | the `np.argmax` choice among the recoverable candidates is unique |
| PanTompkins.BestOfCandidates | labs/lab10/code/lab1_fetal_ecg/ecgdetectors.py:613-616 | the first largest of the filtered candidates is the first recoverable candidate of the section that no recoverable candidate exceeds |
| PanTompkins.BestMissedPeak | labs/lab10/code/lab1_fetal_ecg/ecgdetectors.py:607-616 | finds a candidate exactly when some peak in the section is recoverable, and then returns the one `np.argmax` picks: recoverable, none higher, every earlier recoverable one strictly lower |
| PanTompkins.BestIndex | labs/lab10/code/lab1_fetal_ecg/ecgdetectors.py:613-616 | the position `np.argmax` picks among the recoverable candidates of a section prefix: -1 exactly when none is recoverable, otherwise a recoverable one that none exceeds and that every earlier recoverable one is below |
| PanTompkins.BestIndexIsBestAt | labs/lab10/code/lab1_fetal_ecg/ecgdetectors.py:613-616 | the `BestIndex` choice is the `np.argmax` choice, and it is the only one |
| PanTompkins.AppendOrdered | labs/lab10/code/lab1_fetal_ecg/ecgdetectors.py:602 | appending a beat more than the refractory gap after the last keeps beats increasing and spaced |
| PanTompkins.InsertOrdered | labs/lab10/code/lab1_fetal_ecg/ecgdetectors.py:617-619 | inserting a missed beat between the last two, far from both, keeps beats increasing and spaced |
| PanTompkins.BeatsAfterSeed | labs/lab10/code/lab1_fetal_ecg/ecgdetectors.py:635 | after dropping the seed 0, beats are peaks, increasing, spaced by more than `int(0.25 fs)` and the first is past 0.3 fs |
| PanTompkins.AppendedValid | labs/lab10/code/lab1_fetal_ecg/ecgdetectors.py:600-604 | appending a candidate more than 0.3 fs after the last beat, with its index and the SPKI update, keeps the beat invariant |
| PanTompkins.AppendBeat | labs/lab10/code/lab1_fetal_ecg/ecgdetectors.py:602-604 | accepting a beat appends it and its index and moves SPKI toward its height; nothing else changes and the beat invariant is kept |
| PanTompkins.SearchBackShape | labs/lab10/code/lab1_fetal_ecg/ecgdetectors.py:605-619 | the search-back changes nothing, or, when armed, inserts before the new beat one candidate of `peaks[indexes[-2]+1:indexes[-1]]` lying more than `int(0.25 fs)` from both beats and records it as missed |
| PanTompkins.SearchBackExact | labs/lab10/code/lab1_fetal_ecg/ecgdetectors.py:605-619 | the search-back function is the one state meeting the search-back outcome: not armed, unchanged; armed, unchanged exactly when no candidate is recoverable, otherwise the `np.argmax` choice inserted |
| PanTompkins.SearchBackKeepsValid | labs/lab10/code/lab1_fetal_ecg/ecgdetectors.py:617-619 | inserting a recoverable candidate before the new beat and recording it as missed keeps the beat invariant |
| PanTompkins.SearchBackValid | labs/lab10/code/lab1_fetal_ecg/ecgdetectors.py:605-619 | the search-back keeps the beat invariant |
| PanTompkins.SearchBackFound | labs/lab10/code/lab1_fetal_ecg/ecgdetectors.py:605-619 | when `RR_missed` is set and exceeded, inserting the `np.argmax` choice among the recoverable candidates before the beat is the search-back outcome |
| PanTompkins.SearchBackNone | labs/lab10/code/lab1_fetal_ecg/ecgdetectors.py:605-613 | when the search is not armed, or no candidate is recoverable, leaving the state unchanged is the search-back outcome |
| PanTompkins.RecoverMissed | labs/lab10/code/lab1_fetal_ecg/ecgdetectors.py:605-619 | the state after the search-back is the search-back function of the state before it: nothing changes unless `RR_missed ≠ 0` and the interval to the previous beat exceeds it; then nothing changes exactly when no candidate of `peaks[indexes[-2]+1:indexes[-1]]` is recoverable, and otherwise the `np.argmax` choice is inserted before the new beat and recorded as missed |
| PanTompkins.AcceptBeat | labs/lab10/code/lab1_fetal_ecg/ecgdetectors.py:600-619 | the accepted branch is the append followed by the search-back, exactly: the peak ends the beat list, SPKI moves toward it, noise state is untouched, at most one missed beat is inserted before it, and the beat invariant is kept |
| PanTompkins.AcceptedValid | labs/lab10/code/lab1_fetal_ecg/ecgdetectors.py:600-619 | the accepted branch keeps the beat invariant and `RR_missed`, and counts the candidate in `peaks` |
| PanTompkins.RejectedValid | labs/lab10/code/lab1_fetal_ecg/ecgdetectors.py:621-623 | the noise branch keeps the beat invariant and `RR_missed`, and counts the candidate in `peaks` |
| PanTompkins.ClassifiedValid | labs/lab10/code/lab1_fetal_ecg/ecgdetectors.py:598-623 | either branch keeps the beat invariant |
| PanTompkins.Classify | labs/lab10/code/lab1_fetal_ecg/ecgdetectors.py:598-623 | the candidate joins `peaks` and is accepted exactly when above I1 and more than 0.3 fs after the last beat (append plus search-back), otherwise recorded as noise; the result is that classification, with the invariant kept |
| PanTompkins.ClassifiedFields | labs/lab10/code/lab1_fetal_ecg/ecgdetectors.py:598-623 | what classification changes: an accepted candidate becomes the last beat (possibly after one recovered beat), raises SPKI and is indexed; a rejected one joins the noise peaks and raises NPKI; the thresholds, `RR_missed` and the counter are untouched |
| PanTompkins.Rethreshold | labs/lab10/code/lab1_fetal_ecg/ecgdetectors.py:625-633 | recomputes I1/I2 from the levels; once more than eight beats exist `RR_missed` is `int(1.66 · int(mean of the last eight RR intervals))`, otherwise unchanged; advances the index; nothing else changes |
| PanTompkins.OnCandidate | labs/lab10/code/lab1_fetal_ecg/ecgdetectors.py:596-633 | one local peak: the state after the loop body is the classification followed by the threshold and `RR_missed` update, and the loop invariant is kept |
| PanTompkins.PanNextKeeps | labs/lab10/code/lab1_fetal_ecg/ecgdetectors.py:596-633 | the loop body keeps the loop invariant |
| PanTompkins.PanRun | labs/lab10/code/lab1_fetal_ecg/ecgdetectors.py:595-633 | the state after any prefix of the samples, each strict local maximum taken in order through the loop body, satisfies the loop invariant |
| PanTompkins.PanRunSkips | labs/lab10/code/lab1_fetal_ecg/ecgdetectors.py:595-596 | a sample that is not a strict local maximum leaves the state unchanged |
| PanTompkins.PanPeakDetect | labs/lab10/code/lab1_fetal_ecg/ecgdetectors.py:575-637 | the result is the beat list after the whole signal with the seed dropped (missed beats included); every beat is a local peak of the detection signal, beats are strictly increasing, spaced by more than `int(0.25 fs)`, the first lies past 0.3 fs, and a signal of at most two samples gives none |
| PanTompkins.PanDetectionSignal | labs/lab10/code/lab1_fetal_ecg/ecgdetectors.py:413-419 | the squared-difference moving average with the first 0.3 fs cleared, one entry per difference |
| PanTompkins.PanTompkinsDetector | labs/lab10/code/lab1_fetal_ecg/ecgdetectors.py:397-423 | an unknown average name raises RuntimeError; with at most one sample the result is what the chosen average makes of an empty signal; otherwise it fails (IndexError) exactly when the average is not the original one and its window exceeds the difference signal by two, and on success returns the beats of `panPeakDetect` over the detection signal: increasing, spaced, local peaks past `int(0.3 fs)` |
| Hamilton.InsertPeak | labs/lab10/code/lab1_fetal_ecg/ecgdetectors.py:121-122 | inserting a local peak into the sorted detections keeps them sorted peaks (after the seed) |
| Hamilton.FirstQualifyingIndex | labs/lab10/code/lab1_fetal_ecg/ecgdetectors.py:118-123 | the position of the first candidate of a slice prefix more than `int(0.360 fs)` after the base and above half the threshold, or -1 exactly when none qualifies |
| Hamilton.FirstMissedPeak | labs/lab10/code/lab1_fetal_ecg/ecgdetectors.py:118-123 | when it finds a peak, `peaks[idx[-2]]` is in range and the peak is the first of `peaks[idx[-2]+1:idx[-1]]` more than `int(0.360 fs)` after it and above half the threshold; otherwise the slice is empty or (with the lookup in range) no candidate qualifies |
| Hamilton.AppendedValid | labs/lab10/code/lab1_fetal_ecg/ecgdetectors.py:108-114 | appending a local peak at or after the last QRS entry, with its index and height, keeps the detector invariant |
| Hamilton.AppendBeat | labs/lab10/code/lab1_fetal_ecg/ecgdetectors.py:109-114 | appends the beat and its index and records its height (the `s_pks` trim never runs); nothing else changes and the detector invariant is kept |
| Hamilton.RecoveryKeepsValid | labs/lab10/code/lab1_fetal_ecg/ecgdetectors.py:121-122 | inserting a candidate into QRS keeps the detector invariant |
| Hamilton.RecoveryFound | labs/lab10/code/lab1_fetal_ecg/ecgdetectors.py:116-123 | on a late interval, inserting the first qualifying candidate is the recovery outcome |
| Hamilton.RecoveryNone | labs/lab10/code/lab1_fetal_ecg/ecgdetectors.py:116-123 | on an interval that is not late, or with no qualifying candidate, leaving the state unchanged is the recovery outcome |
| Hamilton.RecoveryExact | labs/lab10/code/lab1_fetal_ecg/ecgdetectors.py:116-123 | the recovery function is the one state meeting the recovery outcome: unchanged unless the interval is late and the slice non-empty, then unchanged exactly when no candidate qualifies, otherwise the first qualifying one inserted |
| Hamilton.RecoveryShape | labs/lab10/code/lab1_fetal_ecg/ecgdetectors.py:116-123 | recovery changes nothing or inserts one of the candidates into the sorted QRS |
| Hamilton.RecoveryFields | labs/lab10/code/lab1_fetal_ecg/ecgdetectors.py:116-123 | recovery touches only QRS, which keeps its entries and gains at most one candidate |
| Hamilton.RecoveryValid | labs/lab10/code/lab1_fetal_ecg/ecgdetectors.py:116-123 | recovery keeps the detector invariant |
| Hamilton.RecoverMissed | labs/lab10/code/lab1_fetal_ecg/ecgdetectors.py:116-123 | the state after recovery is the recovery function of the state before it: nothing changes unless the last RR interval exceeds 1.5·RR_ave and the slice is non-empty; then nothing changes exactly when no candidate qualifies, and otherwise the first qualifying candidate is inserted into the sorted QRS |
| Hamilton.RecoveryCanRepeatCurrentBeat | labs/lab10/code/lab1_fetal_ecg/ecgdetectors.py:116-123 | a valid detector state where recovery re-inserts the beat just accepted, so QRS holds it twice |
| Hamilton.RecordedValid | labs/lab10/code/lab1_fetal_ecg/ecgdetectors.py:125-129 | recording an RR interval keeps the detector invariant |
| Hamilton.RecordedFields | labs/lab10/code/lab1_fetal_ecg/ecgdetectors.py:125-129 | recording changes only the RR buffer and RR_ave, and only when QRS has more than two entries: the last interval enters the eight-entry buffer and RR_ave is its truncated mean |
| Hamilton.RecordRR | labs/lab10/code/lab1_fetal_ecg/ecgdetectors.py:125-129 | appends the last RR interval to the eight-entry buffer, sets RR_ave to the truncated mean of the buffer, and changes nothing else |
| Hamilton.RecoveredFields | labs/lab10/code/lab1_fetal_ecg/ecgdetectors.py:108-123 | after appending and recovery QRS holds the old entries, the beat and at most one recovered candidate (none while QRS held only the seed); the other fields are those of the append |
| Hamilton.AcceptedValid | labs/lab10/code/lab1_fetal_ecg/ecgdetectors.py:108-129 | the accepted branch keeps the detector invariant |
| Hamilton.AcceptedFields | labs/lab10/code/lab1_fetal_ecg/ecgdetectors.py:108-129 | an accepted peak is added to QRS with at most one recovered candidate, to `idx`, and to the never-trimmed signal-peak heights; noise state, candidates and threshold are untouched |
| Hamilton.AcceptedIntervals | labs/lab10/code/lab1_fetal_ecg/ecgdetectors.py:125-129 | once QRS held two entries, an accepted peak puts the last interval of the final QRS into the eight-entry RR buffer and RR_ave becomes its truncated mean; before that both stay |
| Hamilton.AcceptBeat | labs/lab10/code/lab1_fetal_ecg/ecgdetectors.py:108-129 | the accepted branch is exactly the append, the recovery when RR_ave is set, and the RR record, and keeps the detector invariant |
| Hamilton.RejectedValid | labs/lab10/code/lab1_fetal_ecg/ecgdetectors.py:131-135 | the noise branch keeps the detector invariant |
| Hamilton.NoiseBeat | labs/lab10/code/lab1_fetal_ecg/ecgdetectors.py:131-135 | a rejected peak enters the eight-entry noise buffer and the noise average follows; nothing else changes and the invariant is kept |
| Hamilton.ClassifiedValid | labs/lab10/code/lab1_fetal_ecg/ecgdetectors.py:108-135 | either branch keeps the detector invariant |
| Hamilton.RethresholdValid | labs/lab10/code/lab1_fetal_ecg/ecgdetectors.py:137 | the detector invariant does not depend on the threshold |
| Hamilton.HamiltonNextKeeps | labs/lab10/code/lab1_fetal_ecg/ecgdetectors.py:103-137 | the loop body keeps the detector invariant and leaves the threshold 45% of the way from the noise to the signal average |
| Hamilton.HamiltonOnPeak | labs/lab10/code/lab1_fetal_ecg/ecgdetectors.py:103-137 | a local peak is accepted exactly when above the threshold and more than 0.3 fs after the last QRS entry, otherwise it is noise; the result is that classification with the threshold recomputed, the invariant kept |
| Hamilton.HamiltonRun | labs/lab10/code/lab1_fetal_ecg/ecgdetectors.py:101-137 | the state after any prefix of the samples, each strict local maximum taken in order through the loop body, satisfies the detector invariant |
| Hamilton.HamiltonLoop | labs/lab10/code/lab1_fetal_ecg/ecgdetectors.py:87-143 | the result is QRS after the whole signal with the seed dropped (recovered beats included); it is sorted and holds local peaks of the averaged signal (repeats allowed, as the source allows them) |
| Hamilton.HamiltonSignal | labs/lab10/code/lab1_fetal_ecg/ecgdetectors.py:77-85 | the averaged absolute difference: one entry per difference, never negative |
| Hamilton.HamiltonDetector | labs/lab10/code/lab1_fetal_ecg/ecgdetectors.py:64-143 | ValueError exactly when the signal has at most one sample, so that `np.diff` is empty and the FIR filter rejects it; otherwise the result is the loop over the averaged signal: sorted local peaks, none inside the cleared start-up prefix |
| SteepSlope.Linspace | labs/lab10/code/lab1_fetal_ecg/ecgdetectors.py:194 | `np.linspace`: n entries |
| SteepSlope.LinspaceEntry | labs/lab10/code/lab1_fetal_ecg/ecgdetectors.py:194 | entry k is start + (stop − start)·k/(n − 1) |
| SteepSlope.LinspaceEnds | labs/lab10/code/lab1_fetal_ecg/ecgdetectors.py:194 | the first entry is the start and, with two or more entries, the last is the stop |
| SteepSlope.LinspaceFalls | labs/lab10/code/lab1_fetal_ecg/ecgdetectors.py:194 | a descending linspace stays within [stop, start] and strictly decreases |
| SteepSlope.LinspaceStep | labs/lab10/code/lab1_fetal_ecg/ecgdetectors.py:194 | a later entry of a descending linspace is strictly smaller |
| SteepSlope.PushAtMost | labs/lab10/code/lab1_fetal_ecg/ecgdetectors.py:212-214 | pushing a value below a bound into a buffer below that bound keeps the buffer below it |
| SteepSlope.MeanAtMost | labs/lab10/code/lab1_fetal_ecg/ecgdetectors.py:227 | the mean of values below a bound is below it |
| SteepSlope.EarlyNext | labs/lab10/code/lab1_fetal_ecg/ecgdetectors.py:210-214 | during the first five seconds M is 0.6 times the maximum so far and is pushed into the five-entry MM buffer; newM5 is kept |
| SteepSlope.TrackNext | labs/lab10/code/lab1_fetal_ecg/ecgdetectors.py:216-219 | within 200 ms of a beat, newM5 is 1.1·MM[-1] exactly when 0.6 times the maximum since the beat exceeds 1.5·MM[-1], and that 0.6 times the maximum otherwise; M and MM are kept |
| SteepSlope.CommitNext | labs/lab10/code/lab1_fetal_ecg/ecgdetectors.py:221-227 | 200 ms after a beat a zero newM5 becomes MM[-1], newM5 is pushed into MM, and M becomes mean(MM) |
| SteepSlope.DecayNext | labs/lab10/code/lab1_fetal_ecg/ecgdetectors.py:229-234 | between 200 ms and 1.2 s after a beat M is mean(MM)·M_slope[i − (QRS[-1] + ms200)], a factor in [0.6, 1]; after 1.2 s it is 0.6·mean(MM); at exactly 1.2 s it is kept; MM and newM5 are kept |
| SteepSlope.DecayFactor | labs/lab10/code/lab1_fetal_ecg/ecgdetectors.py:231-234 | the decay factor lies in [0.6, 1]: the linspace entry before 1.2 s and 0.6 after |
| SteepSlope.DecayFactorFalls | labs/lab10/code/lab1_fetal_ecg/ecgdetectors.py:229-234 | the decay factor never grows with the time since the beat, and strictly falls before 1.2 s |
| SteepSlope.DecayFalls | labs/lab10/code/lab1_fetal_ecg/ecgdetectors.py:229-231 | with a positive mean(MM), M strictly decreases between 200 ms and 1.2 s after a beat |
| SteepSlope.DecayEndsLowest | labs/lab10/code/lab1_fetal_ecg/ecgdetectors.py:229-234 | with a positive mean(MM), M after 1.2 s is no larger than at any time of the decay |
| SteepSlope.SlopeNext | labs/lab10/code/lab1_fetal_ecg/ecgdetectors.py:209-234 | one update of M, MM and newM5 selects exactly one of the five branches by time since start and since the last beat (Engzee skips the commit while newM5 is zero); MM stays at most five entries, and MM, newM5 (when non-zero) and M (when the maximum is non-negative) stay at most 0.6 times the signal's maximum |
| Christov.ChristovTimes | labs/lab10/code/lab1_fetal_ecg/ecgdetectors.py:185-188 | the four window lengths as truncated multiples of fs, ordered so the slope table is well defined |
| Christov.FStep | labs/lab10/code/lab1_fetal_ecg/ecgdetectors.py:237-241 | after 350 ms F grows by (max of the latest 50 ms − max of the earliest 50 ms)/150, and `np.max` of an empty slice raises ValueError exactly when 50 ms is zero samples |
| Christov.RStep | labs/lab10/code/lab1_fetal_ecg/ecgdetectors.py:244-251 | R is unchanged before the first beat, and stays non-positive while M is below mean(MM) |
| Christov.ChristovSlope | labs/lab10/code/lab1_fetal_ecg/ecgdetectors.py:209-234 | the M block with Christov's commit rule keeps the M state bounded |
| Christov.DetectNext | labs/lab10/code/lab1_fetal_ecg/ecgdetectors.py:260-269 | MFR joins `MFR_list`; the sample becomes a detection exactly when it is above MFR and is the first or more than 200 ms after the last; from the third detection its RR interval enters the five-entry RR buffer and Rm becomes the truncated mean; nothing else changes |
| Christov.DetectKeeps | labs/lab10/code/lab1_fetal_ecg/ecgdetectors.py:260-269 | the detection block keeps the detections increasing, spaced, each above its own threshold, every sample above its threshold covered, and RR within five entries |
| Christov.ChristovTail | labs/lab10/code/lab1_fetal_ecg/ecgdetectors.py:236-269 | after the M block: ValueError exactly when past 350 ms with a zero 50 ms window; otherwise F follows FStep, R follows RStep, `MFR_list` gains M + F + R, and the detection block follows DetectNext |
| Christov.ChristovTailKeeps | labs/lab10/code/lab1_fetal_ecg/ecgdetectors.py:236-269 | the rest of an iteration keeps the loop invariant |
| Christov.ChristovRun | labs/lab10/code/lab1_fetal_ecg/ecgdetectors.py:207-269 | the first n iterations raise ValueError exactly when the loop passes 350 ms with a zero 50 ms window; otherwise the loop invariant holds |
| Christov.ChristovRunStep | labs/lab10/code/lab1_fetal_ecg/ecgdetectors.py:207-269 | an iteration after n that did not raise is one more step of the loop body |
| Christov.ChristovThresholds | labs/lab10/code/lab1_fetal_ecg/ecgdetectors.py:254-258 | one threshold per visited sample: entry k is M + F + R of iteration k |
| Christov.ChristovRunThresholds | labs/lab10/code/lab1_fetal_ecg/ecgdetectors.py:254-258 | `MFR_list` after n iterations is exactly those thresholds |
| Christov.ChristovScan | labs/lab10/code/lab1_fetal_ecg/ecgdetectors.py:207-269 | the loop's outcome is that of the iterations: ValueError propagated, otherwise the detections and `MFR_list`, which equals the per-sample M + F + R |
| Christov.ChristovDecide | labs/lab10/code/lab1_fetal_ecg/ecgdetectors.py:207-273 | ValueError exactly when the loop raises; IndexError exactly when it completes with no detection; otherwise the detections without the first, increasing, spaced by more than `int(0.2 fs)`, after `int(0.2 fs)`, each above its own M + F + R |
| Christov.ChristovSignal | labs/lab10/code/lab1_fetal_ecg/ecgdetectors.py:153-183 | MA3: two entries fewer than the input, never negative |
| Christov.ChristovDetector | labs/lab10/code/lab1_fetal_ecg/ecgdetectors.py:146-273 | ValueError when the signal has at most two samples, so that the first or the third FIR filter gets an empty input; otherwise the loop never raises, so the only failure is IndexError, exactly when there is no detection; otherwise the detections without the first, increasing, spaced by more than 200 ms and after 200 ms within MA3 |
| Detections.SpacedAppend | labs/lab10/code/lab1_fetal_ecg/ecgdetectors.py:263-264 | appending a detection more than the gap after the last keeps detections increasing and spaced |
| Detections.SoundExtend | labs/lab10/code/lab1_fetal_ecg/ecgdetectors.py:254-264 | a new sample above its threshold may join the detections without breaking "every detection exceeded its threshold" |
| Detections.CoveredStep | labs/lab10/code/lab1_fetal_ecg/ecgdetectors.py:260-264 | if a sample above threshold has a detection within the gap before it, coverage extends by one sample |
| Detections.DetectedFires | labs/lab10/code/lab1_fetal_ecg/ecgdetectors.py:260-264 | a sample that fires is recorded and keeps the detections spaced, sound and covering |
| Detections.DetectedQuiet | labs/lab10/code/lab1_fetal_ecg/ecgdetectors.py:260-264 | a sample that does not fire is covered by the last detection when above its threshold, so the detections stay spaced, sound and covering |
| Detections.DetectedStep | labs/lab10/code/lab1_fetal_ecg/ecgdetectors.py:260-264 | the detection rule keeps the detections spaced, sound and covering one sample further |
| Detections.AfterFirst | labs/lab10/code/lab1_fetal_ecg/ecgdetectors.py:271 | dropping the first detection leaves an increasing, spaced list, all more than the gap after the start |
| Engzee.EngzeeTimes | labs/lab10/code/lab1_fetal_ecg/ecgdetectors.py:300-303 | the window lengths as truncated multiples of fs; 160 ms plus 10 ms never exceeds 200 ms |
| Engzee.Crossings | labs/lab10/code/lab1_fetal_ecg/ecgdetectors.py:355-363 | a sample becomes a crossing exactly when it is above M and is the first or more than 200 ms after the last crossing; otherwise the crossings are unchanged |
| Engzee.CrossingsBefore | labs/lab10/code/lab1_fetal_ecg/ecgdetectors.py:355-363 | crossings stay before the next sample |
| Engzee.Debounce | labs/lab10/code/lab1_fetal_ecg/ecgdetectors.py:365-382 | inside the last crossing's 160 ms window a fall through −M (reading `low_pass[-1]` at sample 0) arms the count; while armed a sample below −M counts and one above −M closes the window; past the window it closes; at exactly 160 ms or with no window nothing changes |
| Engzee.Search | labs/lab10/code/lab1_fetal_ecg/ecgdetectors.py:384-390 | no search exactly while the counter is at most 10 ms; ValueError exactly when the search slice is empty; otherwise the R peak is the delay plus the first maximum of `unfiltered_ecg[c − ms10 : i]` plus `c − ms10`, between 10 ms before the crossing and the current sample |
| Engzee.SearchEmptyWhen | labs/lab10/code/lab1_fetal_ecg/ecgdetectors.py:385 | the search slice is empty exactly when the look-back is zero and the crossing is the current sample, or when a negative start counted from the end lies at or after the current sample |
| Engzee.NewWindow | labs/lab10/code/lab1_fetal_ecg/ecgdetectors.py:355-382 | the crossing test and the debounce block leave the window flags consistent with the crossings |
| Engzee.EngzeeTail | labs/lab10/code/lab1_fetal_ecg/ecgdetectors.py:351-390 | after the M block: M joins `M_list`, the crossings follow Crossings, ValueError exactly when the search slice is empty, a found R peak is appended and closes the window, otherwise the R peaks and the debounced window are kept |
| Engzee.NearCrossingGrows | labs/lab10/code/lab1_fetal_ecg/ecgdetectors.py:360-363 | more crossings never remove an R peak's nearby crossing |
| Engzee.CrossKeeps | labs/lab10/code/lab1_fetal_ecg/ecgdetectors.py:355-363 | a crossing more than 200 ms after the last opens a window and keeps the R peaks increasing and near crossings |
| Engzee.EmitKeeps | labs/lab10/code/lab1_fetal_ecg/ecgdetectors.py:384-390 | an R peak found in the open crossing's window, appended with the window closed, keeps the R peaks increasing and near crossings |
| Engzee.NewWindowKeeps | labs/lab10/code/lab1_fetal_ecg/ecgdetectors.py:355-382 | the crossing test and debounce block keep that invariant; the counter grows by at most one and only inside the last crossing's window |
| Engzee.TailKeepsDetected | labs/lab10/code/lab1_fetal_ecg/ecgdetectors.py:351-363 | an iteration keeps the crossings spaced, each above its own M, and every sample above its M covered |
| Engzee.SearchKeeps | labs/lab10/code/lab1_fetal_ecg/ecgdetectors.py:384-390 | a found R peak keeps the invariant; without a search the counter has not passed 10 ms |
| Engzee.TailKeepsCore | labs/lab10/code/lab1_fetal_ecg/ecgdetectors.py:351-390 | an iteration keeps the R-peak invariant and the counter at most 10 ms |
| Engzee.EngzeeSlope | labs/lab10/code/lab1_fetal_ecg/ecgdetectors.py:324-349 | the M block with Engzee's commit rule keeps the M state bounded |
| Engzee.EngzeeNext | labs/lab10/code/lab1_fetal_ecg/ecgdetectors.py:324-390 | one iteration raises only ValueError and keeps the M state, the crossings and the flags consistent |
| Engzee.EngzeeNextKeeps | labs/lab10/code/lab1_fetal_ecg/ecgdetectors.py:324-390 | an iteration that does not raise keeps the loop invariant |
| Engzee.EngzeeStartInv | labs/lab10/code/lab1_fetal_ecg/ecgdetectors.py:305-320 | the initial state satisfies the loop invariant |
| Engzee.EngzeeRun | labs/lab10/code/lab1_fetal_ecg/ecgdetectors.py:322-390 | the first n iterations raise only ValueError and otherwise leave a consistent state |
| Engzee.EngzeeRunStep | labs/lab10/code/lab1_fetal_ecg/ecgdetectors.py:322-390 | an iteration after n that did not raise is one more step of the loop body |
| Engzee.EngzeeRunSticks | labs/lab10/code/lab1_fetal_ecg/ecgdetectors.py:322-390 | once an iteration raised, the loop has stopped with that error |
| Engzee.EngzeeRunPrefixOk | labs/lab10/code/lab1_fetal_ecg/ecgdetectors.py:322-390 | a run that did not raise extends one that did not raise |
| Engzee.EngzeeRunStaysFailed | labs/lab10/code/lab1_fetal_ecg/ecgdetectors.py:322-390 | a run that raised before sample n raises for the whole signal |
| Engzee.EngzeeThresholds | labs/lab10/code/lab1_fetal_ecg/ecgdetectors.py:351 | one threshold per visited sample: entry k is the M of iteration k |
| Engzee.EngzeeRunThresholds | labs/lab10/code/lab1_fetal_ecg/ecgdetectors.py:351 | `M_list` after n iterations is exactly those thresholds |
| Engzee.EngzeeRunInv | labs/lab10/code/lab1_fetal_ecg/ecgdetectors.py:322-390 | every state the iterations reach satisfies the loop invariant |
| Engzee.EngzeeRunKeeps | labs/lab10/code/lab1_fetal_ecg/ecgdetectors.py:322-390 | an iteration after a state with the invariant keeps it |
| Engzee.EngzeeStep | labs/lab10/code/lab1_fetal_ecg/ecgdetectors.py:324-390 | the loop body for sample i yields the run one sample further |
| Engzee.EngzeeScan | labs/lab10/code/lab1_fetal_ecg/ecgdetectors.py:322-390 | the loop's outcome is that of the iterations, with only ValueError; otherwise `M_list` is the per-sample M, the crossings are increasing, more than `int(0.2 fs)` apart, each above its M, every sample above its M is within `int(0.2 fs)` after a crossing, and the R peaks are increasing, each from 10 ms before to 160 ms after a crossing (plus the delay) |
| Engzee.EngzeeScanDone | labs/lab10/code/lab1_fetal_ecg/ecgdetectors.py:322-390 | what the invariant says after the last sample |
| Engzee.DropFirstKeeps | labs/lab10/code/lab1_fetal_ecg/ecgdetectors.py:393 | dropping the first R peak keeps the rest increasing and near crossings |
| Engzee.EngzeeDecide | labs/lab10/code/lab1_fetal_ecg/ecgdetectors.py:322-394 | ValueError exactly when the loop raises; IndexError exactly when it completes with no R peak; otherwise the R peaks without the first, increasing and each near a crossing |
| Engzee.LowPass | labs/lab10/code/lab1_fetal_ecg/ecgdetectors.py:295-296 | the `[1,4,6,4,1]` FIR keeps the length of its input |
| Engzee.LowPassGain | labs/lab10/code/lab1_fetal_ecg/ecgdetectors.py:295-296 | on a constant stretch of five samples the low pass outputs 16 times the constant |
| Engzee.EngzeeSignal | labs/lab10/code/lab1_fetal_ecg/ecgdetectors.py:291-298 | the low-passed lag-4 difference, same length, zero for the first 200 ms |
| Engzee.EngzeeDetector | labs/lab10/code/lab1_fetal_ecg/ecgdetectors.py:276-394 | ValueError for an empty signal, which the FIR low-pass rejects; otherwise ValueError exactly when the loop over `low_pass` raises; IndexError exactly when it finds no R peak; otherwise the R peaks without the first, increasing and each near a crossing |
| TwoAverage.BlockLevels | labs/lab10/code/lab1_fetal_ecg/ecgdetectors.py:448-455 | each block entry is 0 or the block height, and equals the height exactly when the QRS average exceeds the beat average (or the height is 0) |
| TwoAverage.FillBlocks | labs/lab10/code/lab1_fetal_ecg/ecgdetectors.py:448-455 | the fill loop writes exactly the block levels into a fresh array |
| TwoAverage.Candidate | labs/lab10/code/lab1_fetal_ecg/ecgdetectors.py:467 | `argmax(filtered[start:end+1]) + start`: inside the block, at its maximum, the first such |
| TwoAverage.BlockUnique | labs/lab10/code/lab1_fetal_ecg/ecgdetectors.py:459-464 | a block's end determines its start |
| TwoAverage.OrderedAppend | labs/lab10/code/lab1_fetal_ecg/ecgdetectors.py:468-472 | appending a detection more than `int(0.3 fs)` after the last keeps detections increasing and spaced |
| TwoAverage.FromBlocksAppend | labs/lab10/code/lab1_fetal_ecg/ecgdetectors.py:466-472 | a block wider than the minimum contributes its candidate as a valid detection |
| TwoAverage.CoveredClose | labs/lab10/code/lab1_fetal_ecg/ecgdetectors.py:463-472 | closing a wide block whose candidate has a detection at most `int(0.3 fs)` before it extends coverage |
| TwoAverage.CoveredNoEdge | labs/lab10/code/lab1_fetal_ecg/ecgdetectors.py:459-463 | a sample that closes no block keeps coverage |
| TwoAverage.CloseAppend | labs/lab10/code/lab1_fetal_ecg/ecgdetectors.py:469-472 | appending the candidate of a wide, far enough block keeps the scan invariant |
| TwoAverage.CloseSkip | labs/lab10/code/lab1_fetal_ecg/ecgdetectors.py:466-470 | skipping a narrow block, or a candidate too close to the last detection, keeps the scan invariant |
| TwoAverage.CloseKeepsInv | labs/lab10/code/lab1_fetal_ecg/ecgdetectors.py:463-472 | after a falling edge the scan invariant holds whatever the closing step appended, provided it kept the detections spaced and sound |
| TwoAverage.CloseBlock | labs/lab10/code/lab1_fetal_ecg/ecgdetectors.py:463-472 | a falling edge appends the block's candidate only if the block is wider than the minimum; the scan invariant is kept |
| TwoAverage.ScanStep | labs/lab10/code/lab1_fetal_ecg/ecgdetectors.py:459-472 | one sample of the block scan keeps the scan invariant |
| TwoAverage.BlockScan | labs/lab10/code/lab1_fetal_ecg/ecgdetectors.py:457-474 | UnboundLocalError only when the first block is already raised; a height of 0 gives no detections; otherwise detections are increasing, spaced, each a block's candidate, and every wide block has a detection at most `int(0.3 fs)` before its candidate |
| TwoAverage.TwoAverageDetector | labs/lab10/code/lab1_fetal_ecg/ecgdetectors.py:426-474 | unknown average name: RuntimeError; empty signal: IndexError, or ValueError for `MWA_convolve` with a one-sample QRS window; non-empty signal: IndexError exactly when the 600 ms window exceeds len+1 and the method is not `MWA_original`, otherwise increasing, spaced detections drawn from and covering the wide blocks |
| Wqrs.Ceil | labs/lab10/code/lab1_fetal_ecg/ecgdetectors.py:514 | `int(np.ceil(x))` is the least integer not below x |
| Wqrs.ChunkLengthNonNegative | labs/lab10/code/lab1_fetal_ecg/ecgdetectors.py:497-499 | a curve length is never negative |
| Wqrs.CurveLengths | labs/lab10/code/lab1_fetal_ecg/ecgdetectors.py:493-503 | one curve length per sample |
| Wqrs.LengthTransform | labs/lab10/code/lab1_fetal_ecg/ecgdetectors.py:493-503 | IndexError (`tmp[0]`) exactly when the signal is no longer than the window; otherwise the curve lengths: same length, entry k ≥ w is the curve length of the w samples before k, earlier entries repeat the first length |
| Wqrs.ShadowedGrows | labs/lab10/code/lab1_fetal_ecg/ecgdetectors.py:509-510 | accepting another sample never un-shadows an earlier one |
| Wqrs.AcceptSound | labs/lab10/code/lab1_fetal_ecg/ecgdetectors.py:509-510 | accepting a sample above the average and past the gap keeps the accepted list sound |
| Wqrs.AcceptKeeps | labs/lab10/code/lab1_fetal_ecg/ecgdetectors.py:509-510 | accepting a sample keeps the accepted list sound and complete |
| Wqrs.RejectKeeps | labs/lab10/code/lab1_fetal_ecg/ecgdetectors.py:509 | passing over a sample keeps completeness |
| Wqrs.Threshold | labs/lab10/code/lab1_fetal_ecg/ecgdetectors.py:506-511 | accepted samples are increasing, above the average, and spaced by more than the gap; every sample above the average was accepted or lies within the gap after an accepted one |
| Wqrs.WqrsThreshold | labs/lab10/code/lab1_fetal_ecg/ecgdetectors.py:505-511 | float fs: TypeError; integer fs: IndexError exactly when the 10 s window is at least two samples longer than the signal (so always on an empty one), and otherwise the accepted list is sound and complete against that moving average with gap 0.35 fs |
| Wqrs.WqrsDetector | labs/lab10/code/lab1_fetal_ecg/ecgdetectors.py:513-515 | too short a signal: IndexError; then float fs: TypeError; then IndexError exactly when the 10 s window is two samples longer than the signal; otherwise the detections are sound and complete against the moving average of the curve lengths, increasing, spaced by more than 0.35 fs and in range |

## Left out

- The Butterworth band-pass, band-stop and low-pass filters (`signal.butter` followed by `signal.lfilter` with an IIR denominator) are not modelled. Each detector takes the filtered signal as its input, and only the FIR moving sums that follow are modelled. How scipy's IIR filter treats an empty signal is not modelled either: an empty filtered signal goes on to the first FIR filter, which raises ValueError.
- Floating point: samples are exact reals. Rounding, NaN propagation (other than `normalise`'s 0/0) and overflow are not modelled.
- `Wqrs.ChunkLength`: `sqrt((1/fs)**2 + d**2)` is a parameter `arc` of the curve length. Dafny has no square root on reals, so only non-negativity of `arc` is assumed where needed.
- The lists the loops fill but never read are not modelled: `M_list`, `F_list`, `R_list` in Christov, and `neg_m`, `thf_list` in Engzee. They do not affect the returned detections. Christov's `MFR_list` and Engzee's `M_list` are kept, as the thresholds the detections are proved against.
- `engzee_fake_delay` is a parameter `delay` of the Engzee methods. It is 0 unless set for benchmarking.
- The `Detectors` constructor's `fs=False` default is not modelled. Every detector requires a positive `fs`.
- Whether `fs` is a Python int or float is modelled only where it changes the outcome, namely WQRS's `np.pad` (`Wqrs.Rate`).
- Registry: the detector entries are an enumeration, not bound methods. Calling through the list is the same as calling the detector.
- PanTompkins.PanTompkinsDetector: requires `0.15*fs >= 1`. Below that, `int(0.15*fs)` is 0, and `MWA_*` with a window of 0 divides by zero or slices oddly; this is not modelled.
- Hamilton.HamiltonDetector: requires `0.08*fs >= 1`. Otherwise `np.ones(0)/0` makes an empty filter, which scipy rejects.
- Christov.ChristovDetector: requires `0.02*fs >= 1`. Otherwise the first moving-average filter is empty. The 28 ms and 40 ms filters then have at least one tap too.
- TwoAverage.TwoAverageDetector: requires `0.12*fs >= 1`. Otherwise the QRS window is 0.
- The plotting, SVD and file-loading scripts of the other labs are not modelled. They are outside the detector library.
