/** The Pan–Tompkins detector: its front end (derivative, squaring,
    moving-window integration) and the adaptive-threshold state machine
    `panPeakDetect` (ecgdetectors.py). */
module PanTompkins {
  import opened Common
  import opened MovingAverage
  import opened Transforms

  /** Running signal/noise level update `0.125*peak + 0.875*level`. */
  function UpdateLevel(level: real, peak: real): (r: real)
    ensures level <= peak ==> level <= r <= peak
    ensures peak <= level ==> peak <= r <= level
    ensures r == level <==> peak == level
  {
    0.125 * peak + 0.875 * level
  }

  /** `threshold_I1`: a quarter of the way from the noise level to the signal level. */
  function ThresholdI1(npki: real, spki: real): (t: real)
    ensures npki <= spki ==> npki <= t <= spki
    ensures spki <= npki ==> spki <= t <= npki
    ensures (t - npki) * 4.0 == spki - npki
  {
    npki + 0.25 * (spki - npki)
  }

  /** `np.diff` of a list of sample indices. */
  function IndexDiffs(s: seq<int>): (d: seq<real>)
    requires |s| >= 1
    ensures |d| == |s| - 1
    ensures forall k :: 0 <= k < |d| ==> d[k] == (s[k + 1] - s[k]) as real
  {
    seq(|s| - 1, k requires 0 <= k < |s| - 1 => (s[k + 1] - s[k]) as real)
  }

  /** The RR intervals of a beat list telescope: their mean is the span
      from the first to the last beat over the number of intervals. */
  lemma {:induction false} IntervalsTelescope(s: seq<int>)
    requires |s| >= 1
    ensures Sum(IndexDiffs(s)) == (s[|s| - 1] - s[0]) as real
    decreases |s|
  {
    if |s| > 1 {
      var d := IndexDiffs(s);
      assert d[..|d| - 1] == IndexDiffs(s[..|s| - 1]);
      IntervalsTelescope(s[..|s| - 1]);
    }
  }

  lemma MeanIntervalTelescopes(s: seq<int>)
    requires |s| >= 2
    ensures Mean(IndexDiffs(s)) == (s[|s| - 1] - s[0]) as real / (|s| - 1) as real
  {
    IntervalsTelescope(s);
  }

  /** `RR_missed = int(1.66 * int(np.mean(np.diff(signal_peaks[-9:]))))`. */
  function RRMissed(sp: seq<int>): int
    requires |sp| > 8
  {
    Int(1.66 * Int(Mean(IndexDiffs(sp[|sp| - 9..]))) as real)
  }

  /** By telescoping, `RR_missed` is 1.66 times the truncated eighth of the
      span of the last 9 beats. */
  lemma RRMissedSpan(sp: seq<int>)
    requires |sp| > 8
    ensures RRMissed(sp) == Int(1.66 * Int((sp[|sp| - 1] - sp[|sp| - 9]) as real / 8.0) as real)
  {
    var last9 := sp[|sp| - 9..];
    MeanIntervalTelescopes(last9);
    assert last9[8] == sp[|sp| - 1] && last9[0] == sp[|sp| - 9];
    assert Mean(IndexDiffs(last9)) == (sp[|sp| - 1] - sp[|sp| - 9]) as real / 8.0;
  }

  /** A candidate that the missed-beat search may recover between the beats
      `prev` and `cur`. */
  predicate Recoverable(detection: seq<real>, c: int, prev: int, cur: int, minDistance: int, thresholdI2: real)
    requires 0 <= c < |detection|
  {
    c - prev > minDistance && cur - c > minDistance && detection[c] > thresholdI2
  }

  /** `section[j]` is the candidate `np.argmax` picks among the recoverable
      ones: recoverable, no recoverable candidate is higher, and every
      recoverable candidate before it is strictly lower. */
  predicate BestAt(detection: seq<real>, section: seq<int>, j: int, prev: int, cur: int,
                   minDistance: int, thresholdI2: real)
  {
    && (forall k :: 0 <= k < |section| ==> 0 <= section[k] < |detection|)
    && 0 <= j < |section|
    && Recoverable(detection, section[j], prev, cur, minDistance, thresholdI2)
    && (forall k :: 0 <= k < |section| && Recoverable(detection, section[k], prev, cur, minDistance, thresholdI2)
          ==> detection[section[k]] <= detection[section[j]])
    && (forall k :: 0 <= k < j && Recoverable(detection, section[k], prev, cur, minDistance, thresholdI2)
          ==> detection[section[k]] < detection[section[j]])
  }

  /** The choice is determined: at most one position is the best. */
  lemma BestAtUnique(detection: seq<real>, section: seq<int>, j1: int, j2: int, prev: int, cur: int,
                     minDistance: int, thresholdI2: real)
    requires BestAt(detection, section, j1, prev, cur, minDistance, thresholdI2)
    requires BestAt(detection, section, j2, prev, cur, minDistance, thresholdI2)
    ensures j1 == j2
  {
  }

  /** The candidates of `section` that are `Recoverable`, in order, with
      their positions in `section`. */
  predicate RecoverableAt(detection: seq<real>, section: seq<int>, prev: int, cur: int,
                          minDistance: int, thresholdI2: real, candidates: seq<int>, pos: seq<int>)
    requires forall k :: 0 <= k < |section| ==> 0 <= section[k] < |detection|
  {
    && |pos| == |candidates|
    && (forall p :: 0 <= p < |pos| ==> 0 <= pos[p] < |section| && section[pos[p]] == candidates[p])
    && (forall p, q :: 0 <= p < q < |pos| ==> pos[p] < pos[q])
    && (forall k :: 0 <= k < |section| && Recoverable(detection, section[k], prev, cur, minDistance, thresholdI2)
          ==> k in pos)
    && (forall c :: c in candidates ==> 0 <= c < |detection| && Recoverable(detection, c, prev, cur, minDistance, thresholdI2))
  }

  /** The filter of the missed-beat search: keep the candidates of
      `section` that are `Recoverable`, in order. */
  method RecoverableCandidates(detection: seq<real>, section: seq<int>, prev: int, cur: int,
                               minDistance: int, thresholdI2: real) returns (candidates: seq<int>, ghost pos: seq<int>)
    requires forall k :: 0 <= k < |section| ==> 0 <= section[k] < |detection|
    ensures RecoverableAt(detection, section, prev, cur, minDistance, thresholdI2, candidates, pos)
    ensures |candidates| == 0 <==> forall c :: c in section ==> !Recoverable(detection, c, prev, cur, minDistance, thresholdI2)
  {
    candidates := [];
    pos := [];
    var j := 0;
    while j < |section|
      invariant 0 <= j <= |section|
      invariant |pos| == |candidates|
      invariant forall p :: 0 <= p < |pos| ==> 0 <= pos[p] < j && section[pos[p]] == candidates[p]
      invariant forall p, q :: 0 <= p < q < |pos| ==> pos[p] < pos[q]
      invariant forall k :: 0 <= k < j && Recoverable(detection, section[k], prev, cur, minDistance, thresholdI2)
                  ==> k in pos
      invariant forall c :: c in candidates ==> 0 <= c < |detection| && Recoverable(detection, c, prev, cur, minDistance, thresholdI2)
    {
      var c := section[j];
      if c - prev > minDistance && cur - c > minDistance && detection[c] > thresholdI2 {
        candidates := candidates + [c];
        pos := pos + [j];
      }
      j := j + 1;
    }
    if |candidates| == 0 {
      forall c | c in section
        ensures !Recoverable(detection, c, prev, cur, minDistance, thresholdI2)
      {
        var k :| 0 <= k < |section| && section[k] == c;
      }
    } else {
      assert candidates[0] in candidates;
      assert pos[0] < |section| && section[pos[0]] in section;
    }
  }

  /** The first largest of the recoverable candidates sits at a position
      of `section` that is `BestAt`. */
  lemma BestOfCandidates(detection: seq<real>, section: seq<int>, prev: int, cur: int,
                         minDistance: int, thresholdI2: real, candidates: seq<int>, pos: seq<int>, best: int)
    requires forall k :: 0 <= k < |section| ==> 0 <= section[k] < |detection|
    requires RecoverableAt(detection, section, prev, cur, minDistance, thresholdI2, candidates, pos)
    requires 0 <= best < |candidates|
    requires forall p :: 0 <= p < |candidates| ==> detection[candidates[p]] <= detection[candidates[best]]
    requires forall p :: 0 <= p < best ==> detection[candidates[p]] < detection[candidates[best]]
    ensures BestAt(detection, section, pos[best], prev, cur, minDistance, thresholdI2)
  {
    var at := pos[best];
    assert candidates[best] in candidates;
    forall k | 0 <= k < |section| && Recoverable(detection, section[k], prev, cur, minDistance, thresholdI2)
      ensures detection[section[k]] <= detection[section[at]]
      ensures k < at ==> detection[section[k]] < detection[section[at]]
    {
      var p :| 0 <= p < |pos| && pos[p] == k;
      if k < at {
        assert p < best;
      }
    }
  }

  /** The missed-beat search between the last two directly accepted beats
      `prev` and `cur`: keep the candidates of `section` that are
      `Recoverable`, then take the first one of largest amplitude. */
  method BestMissedPeak(detection: seq<real>, section: seq<int>, prev: int, cur: int,
                        minDistance: int, thresholdI2: real) returns (found: bool, missed: int, ghost at: int)
    requires forall k :: 0 <= k < |section| ==> 0 <= section[k] < |detection|
    ensures found ==> BestAt(detection, section, at, prev, cur, minDistance, thresholdI2) && section[at] == missed
    ensures !found <==> forall c :: c in section ==> !Recoverable(detection, c, prev, cur, minDistance, thresholdI2)
  {
    var candidates, pos := RecoverableCandidates(detection, section, prev, cur, minDistance, thresholdI2);
    if |candidates| == 0 {
      return false, 0, 0;
    }
    var amplitudes := seq(|candidates|, k requires 0 <= k < |candidates| => detection[candidates[k]]);
    var best := FirstArgmax(amplitudes);
    assert forall p :: 0 <= p < |candidates| ==> amplitudes[p] == detection[candidates[p]];
    BestOfCandidates(detection, section, prev, cur, minDistance, thresholdI2, candidates, pos, best);
    missed := candidates[best];
    found := true;
    at := pos[best];
  }

  /** The position in `section[..n]` that `np.argmax` over the recoverable
      candidates picks: the first of largest amplitude, or -1 when none is
      recoverable. */
  function BestIndex(detection: seq<real>, section: seq<int>, prev: int, cur: int,
                     minDistance: int, thresholdI2: real, n: nat): (j: int)
    requires n <= |section|
    requires forall k :: 0 <= k < |section| ==> 0 <= section[k] < |detection|
    ensures -1 <= j < n
    ensures j < 0 <==> forall k :: 0 <= k < n ==> !Recoverable(detection, section[k], prev, cur, minDistance, thresholdI2)
    ensures j >= 0 ==> Recoverable(detection, section[j], prev, cur, minDistance, thresholdI2)
    ensures j >= 0 ==> forall k :: 0 <= k < n && Recoverable(detection, section[k], prev, cur, minDistance, thresholdI2)
                          ==> detection[section[k]] <= detection[section[j]]
    ensures j >= 0 ==> forall k :: 0 <= k < j && Recoverable(detection, section[k], prev, cur, minDistance, thresholdI2)
                          ==> detection[section[k]] < detection[section[j]]
  {
    if n == 0 then -1
    else
      var j := BestIndex(detection, section, prev, cur, minDistance, thresholdI2, n - 1);
      var c := section[n - 1];
      if Recoverable(detection, c, prev, cur, minDistance, thresholdI2) && (j < 0 || detection[c] > detection[section[j]])
      then n - 1
      else j
  }

  lemma AppendOrdered(s: seq<int>, x: int, gap: real)
    requires |s| >= 1 && StrictlyIncreasing(s) && GapsExceed(s, gap)
    requires 0.0 <= gap && (x - s[|s| - 1]) as real > gap
    ensures StrictlyIncreasing(s + [x]) && GapsExceed(s + [x], gap)
  {
  }

  /** `s.append(s[-1]); s[-2] = m`: `m` goes in before the last entry. */
  function InsertBeforeLast(s: seq<int>, m: int): seq<int>
    requires |s| >= 1
  {
    s[..|s| - 1] + [m, s[|s| - 1]]
  }

  lemma InsertOrdered(s: seq<int>, m: int, gap: real)
    requires |s| >= 2 && StrictlyIncreasing(s) && GapsExceed(s, gap)
    requires 0.0 <= gap
    requires (m - s[|s| - 2]) as real > gap && (s[|s| - 1] - m) as real > gap
    ensures StrictlyIncreasing(InsertBeforeLast(s, m)) && GapsExceed(InsertBeforeLast(s, m), gap)
  {
    var t := s[..|s| - 1] + [m, s[|s| - 1]];
    assert forall k :: 0 <= k < |s| - 1 ==> t[k] == s[k];
  }

  /** The state `panPeakDetect` carries from one candidate to the next. */
  datatype PanState = PanState(
    signalPeaks: seq<int>, noisePeaks: seq<int>,
    spki: real, npki: real, thresholdI1: real, thresholdI2: real,
    rrMissed: int, index: int, indexes: seq<int>, missedPeaks: seq<int>, peaks: seq<int>)

  /** What holds of the beat lists between candidates: every beat after the
      seed and every candidate is a strict local maximum, the beats increase
      with gaps above `int(0.25*fs)`, the first real beat is more than
      `0.3*fs` in, and the missed-beat search is armed only once more than
      8 beats are known. */
  predicate BeatsValid(detection: seq<real>, fs: real, st: PanState)
  {
    var sp := st.signalPeaks;
    && |sp| >= 1 && sp[0] == 0
    && (forall k :: 1 <= k < |sp| ==> IsPeak(detection, sp[k]))
    && (forall k :: 0 <= k < |st.peaks| ==> IsPeak(detection, st.peaks[k]))
    && StrictlyIncreasing(sp)
    && GapsExceed(sp, Int(0.25 * fs) as real)
    && (|sp| >= 2 ==> sp[1] as real > 0.3 * fs)
    && (forall k :: 0 <= k < |st.indexes| ==> 0 <= st.indexes[k] < |st.peaks|)
    && (forall j, k :: 0 <= j < k < |st.indexes| ==> st.indexes[j] < st.indexes[k])
    && |sp| == 1 + |st.indexes| + |st.missedPeaks|
    && (|st.missedPeaks| > 0 ==> |st.indexes| >= 8)
    && (st.rrMissed != 0 ==> |st.indexes| >= 8 && |sp| > 8)
  }

  /** What a valid state promises about the beats after the seed. */
  lemma BeatsAfterSeed(detection: seq<real>, fs: real, st: PanState)
    requires BeatsValid(detection, fs, st)
    ensures forall k :: 0 <= k < |st.signalPeaks[1..]| ==> IsPeak(detection, st.signalPeaks[1..][k])
    ensures StrictlyIncreasing(st.signalPeaks[1..])
    ensures GapsExceed(st.signalPeaks[1..], Int(0.25 * fs) as real)
    ensures |st.signalPeaks[1..]| > 0 ==> st.signalPeaks[1..][0] as real > 0.3 * fs
  {
    var sp := st.signalPeaks;
    assert forall k :: 0 <= k < |sp| - 1 ==> sp[1..][k] == sp[k + 1];
  }

  /** The beat invariant reads only the beat lists and `RR_missed`. */
  lemma BeatsOnly(detection: seq<real>, fs: real, st: PanState, st': PanState)
    requires BeatsValid(detection, fs, st)
    requires st'.signalPeaks == st.signalPeaks && st'.peaks == st.peaks && st'.indexes == st.indexes
    requires st'.missedPeaks == st.missedPeaks && st'.rrMissed == st.rrMissed
    ensures BeatsValid(detection, fs, st')
  {
  }

  /** The thresholds as the loop leaves them after every candidate. */
  predicate ThresholdsFollowLevels(st: PanState)
  {
    st.thresholdI1 == ThresholdI1(st.npki, st.spki) && st.thresholdI2 == 0.5 * st.thresholdI1
  }

  /** What holds between candidates: the beat invariant, the thresholds
      set from the levels, and the counter at the number of candidates. */
  predicate PanValid(detection: seq<real>, fs: real, st: PanState)
  {
    BeatsValid(detection, fs, st) && ThresholdsFollowLevels(st) && st.index == |st.peaks|
  }

  /** Acceptance of candidate `peak` as a beat, with the missed-beat search
      it may trigger (the first branch of the loop body). */
  method AcceptBeat(detection: seq<real>, fs: real, st: PanState, peak: int) returns (next: PanState)
    requires fs > 0.0 && BeatsValid(detection, fs, st)
    requires |st.peaks| >= 1 && st.peaks[|st.peaks| - 1] == peak && st.index == |st.peaks| - 1
    requires forall k :: 0 <= k < |st.indexes| ==> st.indexes[k] < st.index
    requires (peak - st.signalPeaks[|st.signalPeaks| - 1]) as real > 0.3 * fs
    ensures BeatsValid(detection, fs, Appended(detection, st, peak))
    ensures SearchBackOutcome(detection, fs, Appended(detection, st, peak), next)
    ensures next == SearchBack(detection, fs, Appended(detection, st, peak))
    ensures BeatsValid(detection, fs, next)
    ensures next.rrMissed == st.rrMissed && next.index == st.index
    ensures next.spki == UpdateLevel(st.spki, detection[peak])
    ensures next.npki == st.npki && next.noisePeaks == st.noisePeaks && next.peaks == st.peaks
    ensures next.indexes == st.indexes + [st.index]
    ensures next.signalPeaks[|next.signalPeaks| - 1] == peak
    ensures next.signalPeaks == st.signalPeaks + [peak]
         || (|next.missedPeaks| == |st.missedPeaks| + 1
             && next.signalPeaks == st.signalPeaks + [next.missedPeaks[|next.missedPeaks| - 1], peak])
  {
    var appended := AppendBeat(detection, fs, st, peak);
    next := RecoverMissed(detection, fs, appended);
    SearchBackValid(detection, fs, appended);
    assert appended.signalPeaks[..|appended.signalPeaks| - 1] == st.signalPeaks;
  }

  /** The state after `signal_peaks.append(peak)`, `indexes.append(index)`
      and the SPKI update. */
  function Appended(detection: seq<real>, st: PanState, peak: int): PanState
    requires 0 <= peak < |detection|
  {
    st.(signalPeaks := st.signalPeaks + [peak], spki := UpdateLevel(st.spki, detection[peak]),
        indexes := st.indexes + [st.index])
  }

  /** Appending a candidate more than `0.3*fs` after the last beat keeps the
      beat invariant. */
  lemma AppendedValid(detection: seq<real>, fs: real, st: PanState, peak: int)
    requires fs > 0.0 && BeatsValid(detection, fs, st)
    requires |st.peaks| >= 1 && st.peaks[|st.peaks| - 1] == peak && st.index == |st.peaks| - 1
    requires forall k :: 0 <= k < |st.indexes| ==> st.indexes[k] < st.index
    requires (peak - st.signalPeaks[|st.signalPeaks| - 1]) as real > 0.3 * fs
    ensures BeatsValid(detection, fs, Appended(detection, st, peak))
  {
    var minDistance := Int(0.25 * fs);
    AppendOrdered(st.signalPeaks, peak, minDistance as real);
    var sp := st.signalPeaks + [peak];
    var indexes := st.indexes + [st.index];
    assert forall k :: 0 <= k < |st.indexes| ==> indexes[k] == st.indexes[k];
    assert forall k :: 1 <= k < |st.signalPeaks| ==> sp[k] == st.signalPeaks[k];
    assert sp[|sp| - 1] == st.peaks[|st.peaks| - 1];
  }

  /** `signal_peaks`, `SPKI` and `indexes` take the accepted beat. */
  method AppendBeat(detection: seq<real>, fs: real, st: PanState, peak: int) returns (next: PanState)
    requires fs > 0.0 && BeatsValid(detection, fs, st)
    requires |st.peaks| >= 1 && st.peaks[|st.peaks| - 1] == peak && st.index == |st.peaks| - 1
    requires forall k :: 0 <= k < |st.indexes| ==> st.indexes[k] < st.index
    requires (peak - st.signalPeaks[|st.signalPeaks| - 1]) as real > 0.3 * fs
    ensures BeatsValid(detection, fs, next)
    ensures next == st.(signalPeaks := st.signalPeaks + [peak], spki := UpdateLevel(st.spki, detection[peak]),
                        indexes := st.indexes + [st.index])
  {
    AppendedValid(detection, fs, st, peak);
    next := st.(signalPeaks := st.signalPeaks + [peak], spki := UpdateLevel(st.spki, detection[peak]),
                indexes := st.indexes + [st.index]);
  }

  /** `peaks[indexes[-2]+1:indexes[-1]]`: the candidates between the last
      two directly accepted beats. */
  function MissedSection(st: PanState): seq<int>
    requires |st.indexes| >= 2
  {
    PySlice(st.peaks, st.indexes[|st.indexes| - 2] + 1, st.indexes[|st.indexes| - 1])
  }

  /** What the search-back reads: the last two beats, the last two entries
      of `indexes` once `RR_missed` is set, and candidates that are samples. */
  predicate SearchReady(detection: seq<real>, st: PanState)
  {
    && |st.signalPeaks| >= 2
    && (st.rrMissed != 0 ==> |st.indexes| >= 2)
    && (forall k :: 0 <= k < |st.peaks| ==> 0 <= st.peaks[k] < |detection|)
  }

  /** The section holds samples of `detection`. */
  lemma SectionInRange(detection: seq<real>, st: PanState)
    requires SearchReady(detection, st) && |st.indexes| >= 2
    ensures forall k :: 0 <= k < |MissedSection(st)| ==> 0 <= MissedSection(st)[k] < |detection|
  {
    var section := MissedSection(st);
    forall k | 0 <= k < |section|
      ensures 0 <= section[k] < |detection|
    {
      assert section[k] in st.peaks;
    }
  }

  /** The search-back runs: `RR_missed` is set and the interval from the
      previous beat to the new one exceeds it. */
  predicate Armed(st: PanState)
    requires |st.signalPeaks| >= 2
  {
    var sp := st.signalPeaks;
    st.rrMissed != 0 && sp[|sp| - 1] - sp[|sp| - 2] > st.rrMissed
  }

  /** `missed_peaks.append(missed_peak)`, `signal_peaks.append(signal_peaks[-1])`
      and `signal_peaks[-2] = missed_peak`: the missed beat goes in before
      the new one. */
  function InsertMissed(st: PanState, missed: int): PanState
    requires |st.signalPeaks| >= 1
  {
    st.(signalPeaks := InsertBeforeLast(st.signalPeaks, missed), missedPeaks := st.missedPeaks + [missed])
  }

  /** The missed-beat search after an accepted beat: when `RR_missed` is
      set and the interval to the previous beat exceeds it, the best
      recoverable candidate among the candidates between the last two
      directly accepted beats is inserted before the new beat; otherwise
      nothing changes. */
  method RecoverMissed(detection: seq<real>, fs: real, st: PanState) returns (next: PanState)
    requires SearchReady(detection, st)
    ensures SearchBackOutcome(detection, fs, st, next)
    ensures next == SearchBack(detection, fs, st)
    ensures next == st || (|next.missedPeaks| == |st.missedPeaks| + 1
                           && next == InsertMissed(st, next.missedPeaks[|next.missedPeaks| - 1]))
  {
    next := st;
    var sp := st.signalPeaks;
    var indexes := st.indexes;
    if st.rrMissed != 0 && sp[|sp| - 1] - sp[|sp| - 2] > st.rrMissed {
      var prev, cur := sp[|sp| - 2], sp[|sp| - 1];
      var section := PySlice(st.peaks, indexes[|indexes| - 2] + 1, indexes[|indexes| - 1]);
      SectionInRange(detection, st);
      var found, missed, at := BestMissedPeak(detection, section, prev, cur, Int(0.25 * fs), st.thresholdI2);
      if found {
        SearchBackFound(detection, fs, st, at, missed);
        next := InsertMissed(st, missed);
      } else {
        SearchBackNone(detection, fs, st);
      }
    } else {
      SearchBackNone(detection, fs, st);
    }
    SearchBackExact(detection, fs, st, next);
    SearchBackShape(detection, fs, st);
  }

  /** What the search-back does, given the state before it: nothing unless
      it is `Armed`; then nothing exactly when no candidate between the
      last two directly accepted beats is recoverable, and otherwise the
      best recoverable candidate is inserted before the new beat and
      recorded as missed. */
  ghost predicate SearchBackOutcome(detection: seq<real>, fs: real, st: PanState, next: PanState)
    requires SearchReady(detection, st)
  {
    var sp := st.signalPeaks;
    && (!Armed(st) ==> next == st)
    && (Armed(st) ==>
          (SectionInRange(detection, st);
           var section := MissedSection(st);
           var prev, cur, gap := sp[|sp| - 2], sp[|sp| - 1], Int(0.25 * fs);
           && (next == st <==> forall k :: 0 <= k < |section| ==> !Recoverable(detection, section[k], prev, cur, gap, st.thresholdI2))
           && (next != st ==> exists j :: BestAt(detection, section, j, prev, cur, gap, st.thresholdI2)
                                            && next == InsertMissed(st, section[j]))))
  }

  /** The search-back as a function of the state before it: when `Armed`,
      the `BestIndex` choice of the section, if any, is inserted. */
  function SearchBack(detection: seq<real>, fs: real, st: PanState): PanState
    requires SearchReady(detection, st)
  {
    if Armed(st) then
      var sp := st.signalPeaks;
      SectionInRange(detection, st);
      var section := MissedSection(st);
      var j := BestIndex(detection, section, sp[|sp| - 2], sp[|sp| - 1], Int(0.25 * fs), st.thresholdI2, |section|);
      if j < 0 then st
      else
        assert section[j] in section;
        InsertMissed(st, section[j])
    else st
  }

  /** The search-back changes nothing, or inserts one candidate of the
      section that lies more than `int(0.25*fs)` from both beats. */
  lemma SearchBackShape(detection: seq<real>, fs: real, st: PanState)
    requires SearchReady(detection, st)
    ensures var next := SearchBack(detection, fs, st);
      next == st || (Armed(st) && |next.missedPeaks| == |st.missedPeaks| + 1 && |st.indexes| >= 2
                     && Picked(detection, fs, st, next.missedPeaks[|next.missedPeaks| - 1])
                     && next == InsertMissed(st, next.missedPeaks[|next.missedPeaks| - 1]))
  {
  }

  /** `missed` is a candidate of the section that may be recovered between
      the last two beats. */
  predicate Picked(detection: seq<real>, fs: real, st: PanState, missed: int)
    requires |st.indexes| >= 2 && |st.signalPeaks| >= 2
  {
    var sp := st.signalPeaks;
    missed in MissedSection(st) && missed - sp[|sp| - 2] > Int(0.25 * fs) && sp[|sp| - 1] - missed > Int(0.25 * fs)
  }

  /** The `BestIndex` choice is the one position that is `BestAt`. */
  lemma BestIndexIsBestAt(detection: seq<real>, section: seq<int>, prev: int, cur: int,
                          minDistance: int, thresholdI2: real)
    requires forall k :: 0 <= k < |section| ==> 0 <= section[k] < |detection|
    ensures var j := BestIndex(detection, section, prev, cur, minDistance, thresholdI2, |section|);
      && (j >= 0 ==> BestAt(detection, section, j, prev, cur, minDistance, thresholdI2))
      && (forall j' :: BestAt(detection, section, j', prev, cur, minDistance, thresholdI2) ==> j' == j)
  {
    var j := BestIndex(detection, section, prev, cur, minDistance, thresholdI2, |section|);
    forall j' | BestAt(detection, section, j', prev, cur, minDistance, thresholdI2)
      ensures j' == j
    {
      BestAtUnique(detection, section, j, j', prev, cur, minDistance, thresholdI2);
    }
  }

  /** `SearchBack` is the one state that meets `SearchBackOutcome`. */
  lemma SearchBackExact(detection: seq<real>, fs: real, st: PanState, next: PanState)
    requires SearchReady(detection, st)
    ensures SearchBackOutcome(detection, fs, st, next) <==> next == SearchBack(detection, fs, st)
  {
    if Armed(st) {
      var sp := st.signalPeaks;
      SectionInRange(detection, st);
      var section := MissedSection(st);
      var prev, cur, gap := sp[|sp| - 2], sp[|sp| - 1], Int(0.25 * fs);
      BestIndexIsBestAt(detection, section, prev, cur, gap, st.thresholdI2);
      var j := BestIndex(detection, section, prev, cur, gap, st.thresholdI2, |section|);
      if j >= 0 {
        var inserted := InsertMissed(st, section[j]);
        assert inserted != st by {
          assert |inserted.missedPeaks| != |st.missedPeaks|;
        }
        assert SearchBack(detection, fs, st) == inserted;
        if SearchBackOutcome(detection, fs, st, next) {
          assert next != st;
          var j' :| BestAt(detection, section, j', prev, cur, gap, st.thresholdI2) && next == InsertMissed(st, section[j']);
          assert j' == j;
        }
      } else {
        assert SearchBack(detection, fs, st) == st;
      }
    }
  }

  /** The search-back keeps the beat invariant. */
  lemma SearchBackValid(detection: seq<real>, fs: real, st: PanState)
    requires fs > 0.0 && BeatsValid(detection, fs, st) && |st.signalPeaks| >= 2
    ensures SearchReady(detection, st)
    ensures BeatsValid(detection, fs, SearchBack(detection, fs, st))
  {
    var next := SearchBack(detection, fs, st);
    SearchBackShape(detection, fs, st);
    if next != st {
      SearchBackKeepsValid(detection, fs, st, next.missedPeaks[|next.missedPeaks| - 1]);
    }
  }

  /** The best recoverable candidate of an armed search is what the
      search-back inserts. */
  lemma SearchBackFound(detection: seq<real>, fs: real, st: PanState, j: int, missed: int)
    requires SearchReady(detection, st) && Armed(st)
    requires var sp := st.signalPeaks;
      BestAt(detection, MissedSection(st), j, sp[|sp| - 2], sp[|sp| - 1], Int(0.25 * fs), st.thresholdI2)
      && MissedSection(st)[j] == missed
    ensures SearchBackOutcome(detection, fs, st, InsertMissed(st, missed))
  {
    assert |st.missedPeaks + [missed]| != |st.missedPeaks|;
  }

  /** A search-back that inserts nothing: not armed, or no recoverable
      candidate. */
  lemma SearchBackNone(detection: seq<real>, fs: real, st: PanState)
    requires SearchReady(detection, st)
    requires Armed(st) ==>
      var sp := st.signalPeaks;
      forall c :: c in MissedSection(st) ==> !Recoverable(detection, c, sp[|sp| - 2], sp[|sp| - 1], Int(0.25 * fs), st.thresholdI2)
    ensures SearchBackOutcome(detection, fs, st, st)
  {
    if Armed(st) {
      var sp := st.signalPeaks;
      var section := MissedSection(st);
      forall k | 0 <= k < |section|
        ensures !Recoverable(detection, section[k], sp[|sp| - 2], sp[|sp| - 1], Int(0.25 * fs), st.thresholdI2)
      {
        assert section[k] in section;
      }
    }
  }

  /** Inserting a recoverable candidate before the new beat keeps the
      beat invariant. */
  lemma SearchBackKeepsValid(detection: seq<real>, fs: real, st: PanState, missed: int)
    requires fs > 0.0 && BeatsValid(detection, fs, st) && |st.signalPeaks| >= 2 && st.rrMissed != 0
    requires Picked(detection, fs, st, missed)
    ensures BeatsValid(detection, fs, InsertMissed(st, missed))
  {
    var sp := st.signalPeaks;
    assert missed in st.peaks;
    InsertOrdered(sp, missed, Int(0.25 * fs) as real);
    var sp' := InsertBeforeLast(sp, missed);
    assert forall k :: 0 <= k < |sp| - 1 ==> sp'[k] == sp[k];
  }

  /** The loop body of `panPeakDetect` for the strict local maximum `i`:
      a beat when above `threshold_I1` and more than `0.3*fs` after the
      last beat (raising SPKI), noise otherwise (raising NPKI); then the
      thresholds are recomputed and, with more than 8 beats, the
      missed-beat interval `int(1.66 * int(mean RR))` over the last 8 RR
      intervals. */
  method OnCandidate(detection: seq<real>, fs: real, st: PanState, i: int) returns (next: PanState)
    requires fs > 0.0 && IsPeak(detection, i)
    requires PanValid(detection, fs, st)
    ensures next == PanNext(detection, fs, st, i)
    ensures PanValid(detection, fs, next)
  {
    var classified := Classify(detection, fs, st, i);
    next := Rethreshold(detection, fs, classified);
  }

  /** The test of the loop body: above `threshold_I1` and more than
      `0.3*fs` after the last beat. */
  predicate Accepts(detection: seq<real>, fs: real, st: PanState, i: int)
    requires 0 <= i < |detection| && |st.signalPeaks| >= 1
  {
    detection[i] > st.thresholdI1 && (i - st.signalPeaks[|st.signalPeaks| - 1]) as real > 0.3 * fs
  }

  /** `peaks.append(i)`. */
  function Grown(st: PanState, i: int): PanState
  {
    st.(peaks := st.peaks + [i])
  }

  /** A new candidate keeps the beat invariant. */
  lemma GrownValid(detection: seq<real>, fs: real, st: PanState, i: int)
    requires IsPeak(detection, i) && BeatsValid(detection, fs, st) && st.index == |st.peaks|
    ensures BeatsValid(detection, fs, Grown(st, i))
    ensures forall k :: 0 <= k < |st.indexes| ==> st.indexes[k] < st.index
  {
    var grown := Grown(st, i);
    assert forall k :: 0 <= k < |st.peaks| ==> grown.peaks[k] == st.peaks[k];
  }

  /** An accepted candidate: appended as a beat, then the search-back. */
  function Accepted(detection: seq<real>, fs: real, st: PanState, i: int): PanState
    requires fs > 0.0 && IsPeak(detection, i)
    requires BeatsValid(detection, fs, st) && st.index == |st.peaks| && Accepts(detection, fs, st, i)
  {
    GrownValid(detection, fs, st, i);
    AppendedValid(detection, fs, Grown(st, i), i);
    SearchBack(detection, fs, Appended(detection, Grown(st, i), i))
  }

  /** A rejected candidate: `noise_peaks.append(i)` and the NPKI update. */
  function Rejected(detection: seq<real>, st: PanState, i: int): PanState
    requires 0 <= i < |detection|
  {
    Grown(st, i).(noisePeaks := st.noisePeaks + [i], npki := UpdateLevel(st.npki, detection[i]))
  }

  /** The first part of the loop body: the candidate joins `peaks` and is
      either accepted as a beat, with the search-back, or recorded as
      noise. */
  function Classified(detection: seq<real>, fs: real, st: PanState, i: int): PanState
    requires fs > 0.0 && IsPeak(detection, i)
    requires BeatsValid(detection, fs, st) && st.index == |st.peaks|
  {
    if Accepts(detection, fs, st, i) then Accepted(detection, fs, st, i) else Rejected(detection, st, i)
  }

  lemma AcceptedValid(detection: seq<real>, fs: real, st: PanState, i: int)
    requires fs > 0.0 && IsPeak(detection, i)
    requires BeatsValid(detection, fs, st) && st.index == |st.peaks| && Accepts(detection, fs, st, i)
    ensures var next := Accepted(detection, fs, st, i);
      BeatsValid(detection, fs, next) && next.index + 1 == |next.peaks| && next.rrMissed == st.rrMissed
  {
    GrownValid(detection, fs, st, i);
    var appended := Appended(detection, Grown(st, i), i);
    AppendedValid(detection, fs, Grown(st, i), i);
    SearchBackValid(detection, fs, appended);
    SearchBackShape(detection, fs, appended);
  }

  lemma RejectedValid(detection: seq<real>, fs: real, st: PanState, i: int)
    requires IsPeak(detection, i) && BeatsValid(detection, fs, st) && st.index == |st.peaks|
    ensures var next := Rejected(detection, st, i);
      BeatsValid(detection, fs, next) && next.index + 1 == |next.peaks| && next.rrMissed == st.rrMissed
  {
    GrownValid(detection, fs, st, i);
    BeatsOnly(detection, fs, Grown(st, i), Rejected(detection, st, i));
  }

  /** A classified candidate keeps the beat invariant. */
  lemma ClassifiedValid(detection: seq<real>, fs: real, st: PanState, i: int)
    requires fs > 0.0 && IsPeak(detection, i)
    requires BeatsValid(detection, fs, st) && st.index == |st.peaks|
    ensures var next := Classified(detection, fs, st, i);
      BeatsValid(detection, fs, next) && next.index + 1 == |next.peaks| && next.rrMissed == st.rrMissed
  {
    if Accepts(detection, fs, st, i) {
      AcceptedValid(detection, fs, st, i);
    } else {
      RejectedValid(detection, fs, st, i);
    }
  }

  /** The first part of the loop body: the candidate joins `peaks` and is
      either accepted as a beat or recorded as noise. */
  method Classify(detection: seq<real>, fs: real, st: PanState, i: int) returns (next: PanState)
    requires fs > 0.0 && IsPeak(detection, i)
    requires BeatsValid(detection, fs, st) && st.index == |st.peaks|
    ensures next == Classified(detection, fs, st, i)
    ensures BeatsValid(detection, fs, next) && next.index + 1 == |next.peaks|
  {
    var grown := Grown(st, i);
    GrownValid(detection, fs, st, i);
    var sp := grown.signalPeaks;
    if detection[i] > grown.thresholdI1 && (i - sp[|sp| - 1]) as real > 0.3 * fs {
      next := AcceptBeat(detection, fs, grown, i);
      assert Accepts(detection, fs, st, i);
      assert next == Accepted(detection, fs, st, i);
      AcceptedValid(detection, fs, st, i);
    } else {
      next := grown.(noisePeaks := grown.noisePeaks + [i], npki := UpdateLevel(grown.npki, detection[i]));
      assert !Accepts(detection, fs, st, i);
      assert next == Rejected(detection, st, i);
      RejectedValid(detection, fs, st, i);
    }
  }

  /** What classifying candidate `i` changes: `i` joins the candidates;
      an accepted one becomes the last beat, possibly with a recovered
      beat before it, raises SPKI and is recorded in `indexes`; a rejected
      one joins the noise peaks and raises NPKI; nothing else changes. */
  lemma ClassifiedFields(detection: seq<real>, fs: real, st: PanState, i: int)
    requires fs > 0.0 && IsPeak(detection, i)
    requires BeatsValid(detection, fs, st) && st.index == |st.peaks|
    ensures var next := Classified(detection, fs, st, i);
      && next.peaks == st.peaks + [i] && next.rrMissed == st.rrMissed && next.index == st.index
      && next.thresholdI1 == st.thresholdI1 && next.thresholdI2 == st.thresholdI2
      && (Accepts(detection, fs, st, i) ==>
            && next.spki == UpdateLevel(st.spki, detection[i]) && next.npki == st.npki
            && next.noisePeaks == st.noisePeaks && next.indexes == st.indexes + [st.index]
            && (next.signalPeaks == st.signalPeaks + [i]
                || (|next.missedPeaks| == |st.missedPeaks| + 1
                    && next.signalPeaks == st.signalPeaks + [next.missedPeaks[|next.missedPeaks| - 1], i])))
      && (!Accepts(detection, fs, st, i) ==>
            && next.npki == UpdateLevel(st.npki, detection[i]) && next.spki == st.spki
            && next.signalPeaks == st.signalPeaks && next.noisePeaks == st.noisePeaks + [i]
            && next.indexes == st.indexes && next.missedPeaks == st.missedPeaks)
  {
    if Accepts(detection, fs, st, i) {
      GrownValid(detection, fs, st, i);
      AppendedValid(detection, fs, Grown(st, i), i);
      var appended := Appended(detection, Grown(st, i), i);
      SearchBackShape(detection, fs, appended);
      assert appended.signalPeaks[..|appended.signalPeaks| - 1] == st.signalPeaks;
    }
  }

  /** After every candidate: the thresholds follow the levels, and with
      more than 8 beats `RR_missed` becomes `int(1.66 * int(mean RR))` over
      the last 8 intervals; the candidate counter advances. */
  method Rethreshold(detection: seq<real>, fs: real, st: PanState) returns (next: PanState)
    requires BeatsValid(detection, fs, st)
    ensures BeatsValid(detection, fs, next) && ThresholdsFollowLevels(next)
    ensures next == st.(thresholdI1 := next.thresholdI1, thresholdI2 := next.thresholdI2,
                        rrMissed := next.rrMissed, index := st.index + 1)
    ensures |st.signalPeaks| <= 8 ==> next.rrMissed == st.rrMissed
    ensures |st.signalPeaks| > 8 ==> next.rrMissed == RRMissed(st.signalPeaks)
  {
    var thresholdI1 := ThresholdI1(st.npki, st.spki);
    next := st.(thresholdI1 := thresholdI1, thresholdI2 := 0.5 * thresholdI1);
    var sp := next.signalPeaks;
    if |sp| > 8 {
      next := next.(rrMissed := RRMissed(sp));
    }
    next := next.(index := next.index + 1);
  }

  /** The state after the loop body for candidate `i`: `Classified`, then
      the thresholds, `RR_missed` and the counter as `Rethreshold` sets them. */
  function PanNext(detection: seq<real>, fs: real, st: PanState, i: int): PanState
    requires fs > 0.0 && IsPeak(detection, i)
    requires BeatsValid(detection, fs, st) && st.index == |st.peaks|
  {
    var c := Classified(detection, fs, st, i);
    var t1 := ThresholdI1(c.npki, c.spki);
    c.(thresholdI1 := t1, thresholdI2 := 0.5 * t1,
       rrMissed := if |c.signalPeaks| > 8 then RRMissed(c.signalPeaks) else c.rrMissed,
       index := c.index + 1)
  }

  /** The loop body keeps the invariant. */
  lemma PanNextKeeps(detection: seq<real>, fs: real, st: PanState, i: int)
    requires fs > 0.0 && IsPeak(detection, i)
    requires BeatsValid(detection, fs, st) && st.index == |st.peaks|
    ensures PanValid(detection, fs, PanNext(detection, fs, st, i))
  {
    ClassifiedValid(detection, fs, st, i);
  }

  /** The state before the first candidate. */
  const PanStart: PanState := PanState([0], [], 0.0, 0.0, 0.0, 0.0, 0, 0, [], [], [])

  /** The state of `panPeakDetect` after the samples before `n`: every
      strict local maximum among them went through `PanNext`, in order. */
  function PanRun(detection: seq<real>, fs: real, n: nat): (st: PanState)
    requires fs > 0.0
    ensures PanValid(detection, fs, st)
    decreases n
  {
    if n == 0 then PanStart
    else
      var prev := PanRun(detection, fs, n - 1);
      if IsPeak(detection, n - 1) then
        PanNextKeeps(detection, fs, prev, n - 1);
        PanNext(detection, fs, prev, n - 1)
      else prev
  }

  /** A sample that is not a strict local maximum leaves the state as it is. */
  lemma PanRunSkips(detection: seq<real>, fs: real, n: nat)
    requires fs > 0.0 && n >= 1 && !IsPeak(detection, n - 1)
    ensures PanRun(detection, fs, n) == PanRun(detection, fs, n - 1)
  {
  }

  /** `panPeakDetect`: the seed 0 starts `signal_peaks`; every strict local
      maximum is a candidate for `OnCandidate`; the seed is dropped from the
      result. */
  method PanPeakDetect(detection: seq<real>, fs: real) returns (beats: seq<int>)
    requires fs > 0.0
    ensures beats == PanRun(detection, fs, |detection|).signalPeaks[1..]
    ensures forall k :: 0 <= k < |beats| ==> IsPeak(detection, beats[k])
    ensures StrictlyIncreasing(beats)
    ensures GapsExceed(beats, Int(0.25 * fs) as real)
    ensures |beats| > 0 ==> beats[0] as real > 0.3 * fs
    ensures |detection| <= 2 ==> beats == []
  {
    var st := PanStart;
    var i := 1;
    PanRunSkips(detection, fs, 1);
    while i < |detection| - 1
      invariant 1 <= i && (i <= |detection| - 1 || i == 1)
      invariant st == PanRun(detection, fs, i)
      invariant |detection| <= 2 ==> st == PanStart
    {
      if detection[i - 1] < detection[i] && detection[i + 1] < detection[i] {
        st := OnCandidate(detection, fs, st, i);
      }
      i := i + 1;
    }
    if |detection| >= 2 {
      PanRunSkips(detection, fs, |detection|);
    }
    BeatsAfterSeed(detection, fs, st);
    beats := st.signalPeaks[1..];
  }

  /** The signal `pan_tompkins_detector` hands to `panPeakDetect`: squared
      derivative, integrated over `int(0.15*fs)` samples, first
      `int(0.3*fs)` samples cleared. */
  function PanDetectionSignal(filtered: seq<real>, fs: real): (s: seq<real>)
    requires 0.15 * fs >= 1.0
    ensures |s| == |Diff(filtered)|
  {
    ZeroPrefix(MwaSpec(Squared(Diff(filtered)), Int(0.15 * fs)), Int(0.15 * fs * 2.0))
  }

  /** `pan_tompkins_detector` after its band-pass filter: derivative,
      squaring, moving-window integration with the selected MWA method,
      clearing of the first `int(0.3*fs)` samples, then `panPeakDetect`. */
  method PanTompkinsDetector(filtered: seq<real>, fs: real, mwaName: string) returns (r: Result<seq<int>>)
    requires fs > 0.0 && 0.15 * fs >= 1.0
    ensures MwaFromName(mwaName).Err? ==> r == Err(RuntimeError)
    ensures MwaFromName(mwaName).Ok? && |filtered| <= 1 ==>
              r == (var e := MwaOfEmpty(MwaFromName(mwaName).value, Int(0.15 * fs));
                    if e.Err? then Err(e.error) else Ok([]))
    ensures MwaFromName(mwaName).Ok? && |filtered| >= 2 ==>
              (r.Err? <==> MwaFromName(mwaName).value != Original && Int(0.15 * fs) >= |filtered| + 1)
    ensures MwaFromName(mwaName).Ok? && |filtered| >= 2 && r.Err? ==> r.error == IndexError
    ensures r.Ok? && |filtered| >= 2 ==>
              r.value == PanRun(PanDetectionSignal(filtered, fs), fs, |filtered| - 1).signalPeaks[1..]
    ensures r.Ok? && |filtered| >= 2 ==> forall k :: 0 <= k < |r.value| ==>
              IsPeak(PanDetectionSignal(filtered, fs), r.value[k]) && r.value[k] >= Int(0.3 * fs)
    ensures r.Ok? ==> StrictlyIncreasing(r.value) && GapsExceed(r.value, Int(0.25 * fs) as real)
  {
    var diff := Diff(filtered);
    var squared := Squared(diff);
    var n := Int(0.15 * fs);
    var method_ := MwaFromName(mwaName);
    if method_.Err? {
      return Err(method_.error);
    }
    var mwa := ApplyMwa(method_.value, squared, n);
    if mwa.Err? {
      return Err(mwa.error);
    }
    var detection := ZeroPrefix(mwa.value, Int(0.15 * fs * 2.0));
    var beats := PanPeakDetect(detection, fs);
    if |filtered| >= 2 {
      assert detection == PanDetectionSignal(filtered, fs);
      MwaNonNegative(squared, n);
      forall k | 0 <= k < |beats|
        ensures beats[k] >= Int(0.3 * fs)
      {
        if beats[k] < Int(0.3 * fs) {
          NoPeakInClearedPrefix(mwa.value, Int(0.15 * fs * 2.0), beats[k]);
        }
      }
    }
    return Ok(beats);
  }
}
