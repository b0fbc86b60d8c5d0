/** Hamilton's detector (ecgdetectors.py, `hamilton_detector`): the decision
    loop over the averaged absolute derivative `ma`, with its noise and
    signal peak histories, RR history and missed-beat recovery. */
module Hamilton {
  import opened Common
  import opened MovingAverage
  import opened Transforms

  /** The loop's local variables, carried from one peak candidate to the next. */
  datatype HamiltonState = HamiltonState(
    nPks: seq<real>, nPksAve: real, sPks: seq<real>, sPksAve: real,
    qrs: seq<int>, rr: seq<int>, rrAve: real, th: real, idx: seq<int>, peaks: seq<int>)

  function MeanOrZero(s: seq<real>): real
  {
    if |s| == 0 then 0.0 else Mean(s)
  }

  /** QRS holds the seed 0 followed by strict local maxima of `ma`. */
  predicate SeededPeaks(ma: seq<real>, qrs: seq<int>)
  {
    |qrs| >= 1 && qrs[0] == 0 && Sorted(qrs)
    && forall k :: 1 <= k < |qrs| ==> IsPeak(ma, qrs[k])
  }

  /** What holds between candidates: QRS is seeded and sorted, every
      candidate is a strict local maximum, the noise and RR histories hold
      at most 8 entries, the signal history is never trimmed (one entry per
      direct acceptance) and the averages are the means of their histories. */
  predicate HamiltonValid(ma: seq<real>, st: HamiltonState)
  {
    && SeededPeaks(ma, st.qrs)
    && (forall k :: 0 <= k < |st.peaks| ==> IsPeak(ma, st.peaks[k]))
    && (forall k :: 0 <= k < |st.idx| ==> st.idx[k] >= 0)
    && |st.nPks| <= 8 && |st.rr| <= 8
    && |st.sPks| == |st.idx|
    && (|st.qrs| <= 2 ==> |st.idx| == |st.qrs| - 1)
    && (|st.qrs| >= 3 ==> |st.idx| >= 2)
    && (st.rrAve != 0.0 ==> |st.idx| >= 2)
    && st.nPksAve == MeanOrZero(st.nPks)
    && st.sPksAve == MeanOrZero(st.sPks)
    && st.rrAve == (if |st.rr| == 0 then 0.0 else IntMean(st.rr) as real)
  }

  /** The threshold sits 45% of the way from the noise average to the
      signal average. */
  predicate ThresholdFollows(st: HamiltonState)
  {
    st.th == st.nPksAve + 0.45 * (st.sPksAve - st.nPksAve)
  }

  /** Inserting a further local maximum into a seeded QRS list keeps the
      seed first and every other entry a local maximum. */
  lemma InsertPeak(ma: seq<real>, qrs: seq<int>, x: int)
    requires SeededPeaks(ma, qrs) && IsPeak(ma, x)
    ensures SeededPeaks(ma, InsertSorted(qrs, x))
  {
    var p := InsertPos(qrs, x);
    var r := InsertSorted(qrs, x);
    assert r == qrs[..p] + [x] + qrs[p..];
    forall k | 1 <= k < |r|
      ensures IsPeak(ma, r[k])
    {
      if k < p {
        assert r[k] == qrs[k];
      } else if k > p {
        assert r[k] == qrs[k - 1];
      }
    }
  }

  /** The test a missed candidate must pass: more than `int(0.360*fs)` after
      `base` and above half the threshold. */
  predicate MissedQualifies(ma: seq<real>, mp: int, base: int, th: real, gap: int)
  {
    0 <= mp < |ma| && mp - base > gap && ma[mp] > 0.5 * th
  }

  /** `mp` is the first entry of `section` that qualifies against `base`. */
  predicate FirstQualifying(ma: seq<real>, section: seq<int>, base: int, th: real, gap: int, mp: int)
  {
    exists j :: 0 <= j < |section| && section[j] == mp && MissedQualifies(ma, mp, base, th, gap)
      && forall j' :: 0 <= j' < j ==> !MissedQualifies(ma, section[j'], base, th, gap)
  }

  /** The position in `section[..n]` of the first candidate that qualifies,
      or -1 when none does. */
  function FirstQualifyingIndex(ma: seq<real>, section: seq<int>, base: int, th: real, gap: int, n: nat): (j: int)
    requires n <= |section|
    ensures -1 <= j < n
    ensures j < 0 <==> forall k :: 0 <= k < n ==> !MissedQualifies(ma, section[k], base, th, gap)
    ensures j >= 0 ==> MissedQualifies(ma, section[j], base, th, gap)
                       && forall k :: 0 <= k < j ==> !MissedQualifies(ma, section[k], base, th, gap)
  {
    if n == 0 then -1
    else
      var j := FirstQualifyingIndex(ma, section, base, th, gap, n - 1);
      if j >= 0 then j
      else if MissedQualifies(ma, section[n - 1], base, th, gap) then n - 1
      else -1
  }

  /** `mp` is the first candidate of `peaks[from+1:to]` that qualifies
      against `peaks[from]`, which is in range. */
  predicate FoundMissed(ma: seq<real>, peaks: seq<int>, from: int, to: int, th: real, gap: int, mp: int)
    requires from >= 0
  {
    from < |peaks| && FirstQualifying(ma, PySlice(peaks, from + 1, to), peaks[from], th, gap, mp)
  }

  /** `peaks[from+1:to]` is empty, or `peaks[from]` is in range and no
      candidate of the slice qualifies against it. */
  predicate NoneMissed(ma: seq<real>, peaks: seq<int>, from: int, to: int, th: real, gap: int)
    requires from >= 0
  {
    var section := PySlice(peaks, from + 1, to);
    |section| == 0 || (from < |peaks| && forall j :: 0 <= j < |section| ==> !MissedQualifies(ma, section[j], peaks[from], th, gap))
  }

  /** `for missed_peak in peaks[idx[-2]+1:idx[-1]]: if ...: ... break`:
      the first candidate of the slice that qualifies. The slice bounds are
      sample indices used as list positions, so the slice may hold any
      earlier candidate, the current one included; `peaks[idx[-2]]` is only
      read when the slice is non-empty, and then it is in range. */
  method FirstMissedPeak(ma: seq<real>, peaks: seq<int>, from: int, to: int, th: real, gap: int)
    returns (found: bool, mp: int)
    requires from >= 0
    ensures found ==> FoundMissed(ma, peaks, from, to, th, gap, mp)
    ensures !found ==> NoneMissed(ma, peaks, from, to, th, gap)
  {
    var section := PySlice(peaks, from + 1, to);
    if |section| == 0 {
      return false, 0;
    }
    var base := peaks[from];
    var j := 0;
    while j < |section|
      invariant 0 <= j <= |section|
      invariant forall j' :: 0 <= j' < j ==> !MissedQualifies(ma, section[j'], base, th, gap)
    {
      var cand := section[j];
      if 0 <= cand < |ma| && cand - base > gap && ma[cand] > 0.5 * th {
        return true, cand;
      }
      j := j + 1;
    }
    return false, 0;
  }

  /** A direct acceptance: QRS, the index list and the signal history grow
      by the new beat. The `s_pks` trim is guarded by the length of the
      noise history, which never exceeds 8, so it is dead. */
  function Appended(ma: seq<real>, st: HamiltonState, i: int): HamiltonState
    requires 0 <= i < |ma|
  {
    st.(qrs := st.qrs + [i], idx := st.idx + [i], sPks := st.sPks + [ma[i]], sPksAve := Mean(st.sPks + [ma[i]]))
  }

  /** A direct acceptance of a local maximum at or after the last QRS
      entry keeps the state valid. */
  lemma AppendedValid(ma: seq<real>, st: HamiltonState, i: int)
    requires HamiltonValid(ma, st) && IsPeak(ma, i) && i >= st.qrs[|st.qrs| - 1]
    ensures HamiltonValid(ma, Appended(ma, st, i))
  {
    SortedAppend(st.qrs, i);
    assert SeededPeaks(ma, st.qrs + [i]);
  }

  method AppendBeat(ma: seq<real>, st: HamiltonState, i: int) returns (next: HamiltonState)
    requires HamiltonValid(ma, st) && IsPeak(ma, i) && i >= st.qrs[|st.qrs| - 1]
    ensures HamiltonValid(ma, next)
    ensures next == Appended(ma, st, i)
  {
    if |st.nPks| > 8 {
      assert false;
    }
    var sPks := st.sPks + [ma[i]];
    next := st.(qrs := st.qrs + [i], idx := st.idx + [i], sPks := sPks, sPksAve := Mean(sPks));
    AppendedValid(ma, st, i);
  }

  /** Inserting a candidate into QRS keeps the state valid. */
  lemma RecoveryKeepsValid(ma: seq<real>, st: HamiltonState, mp: int)
    requires HamiltonValid(ma, st) && |st.idx| >= 2 && mp in st.peaks
    ensures HamiltonValid(ma, st.(qrs := InsertSorted(st.qrs, mp)))
  {
    InsertPeak(ma, st.qrs, mp);
  }

  /** Missed-beat recovery: when the last RR interval exceeds 1.5 times
      the RR average, the first candidate of `peaks[idx[-2]+1:idx[-1]]`
      more than `int(0.360*fs)` after `peaks[idx[-2]]` and above half the
      threshold is inserted into QRS, keeping it sorted; otherwise nothing
      changes. */
  method RecoverMissed(ma: seq<real>, fs: real, st: HamiltonState) returns (next: HamiltonState)
    requires HamiltonValid(ma, st) && |st.idx| >= 2 && |st.qrs| >= 2
    ensures HamiltonValid(ma, next)
    ensures RecoveryOutcome(ma, fs, st, next)
    ensures next == Recovery(ma, fs, st)
    ensures next == st || exists mp :: mp in st.peaks && next == st.(qrs := InsertSorted(st.qrs, mp))
  {
    next := st;
    var qrs := st.qrs;
    if (qrs[|qrs| - 1] - qrs[|qrs| - 2]) as real > 1.5 * st.rrAve {
      var from := st.idx[|st.idx| - 2];
      var found, mp := FirstMissedPeak(ma, st.peaks, from, st.idx[|st.idx| - 1], st.th, Int(0.360 * fs));
      if found {
        RecoveryFound(ma, fs, st, mp);
        RecoveryKeepsValid(ma, st, mp);
        next := st.(qrs := InsertSorted(qrs, mp));
      } else {
        RecoveryNone(ma, fs, st);
      }
    } else {
      RecoveryNone(ma, fs, st);
    }
    RecoveryExact(ma, fs, st, next);
  }

  /** What recovery does, given the state before it: nothing unless the
      last RR interval is late and the slice is non-empty; then nothing
      exactly when no candidate qualifies, and otherwise QRS gains the
      first qualifying candidate. */
  ghost predicate RecoveryOutcome(ma: seq<real>, fs: real, st: HamiltonState, next: HamiltonState)
    requires |st.idx| >= 2 && |st.qrs| >= 2 && st.idx[|st.idx| - 2] >= 0 && Sorted(st.qrs)
  {
    var from := st.idx[|st.idx| - 2];
    var section := PySlice(st.peaks, from + 1, st.idx[|st.idx| - 1]);
    var late := (st.qrs[|st.qrs| - 1] - st.qrs[|st.qrs| - 2]) as real > 1.5 * st.rrAve;
    var gap := Int(0.360 * fs);
    && (!late || |section| == 0 ==> next == st)
    && (late && |section| > 0 ==>
          (next == st <==> forall j :: 0 <= j < |section| ==> !MissedQualifies(ma, section[j], st.peaks[from], st.th, gap))
          && (next != st ==> exists mp :: FirstQualifying(ma, section, st.peaks[from], st.th, gap, mp)
                                 && next == st.(qrs := InsertSorted(st.qrs, mp))))
  }

  /** A first qualifying candidate of a late interval's slice is what
      recovery inserts. */
  lemma RecoveryFound(ma: seq<real>, fs: real, st: HamiltonState, mp: int)
    requires |st.idx| >= 2 && |st.qrs| >= 2 && st.idx[|st.idx| - 2] >= 0 && Sorted(st.qrs)
    requires (st.qrs[|st.qrs| - 1] - st.qrs[|st.qrs| - 2]) as real > 1.5 * st.rrAve
    requires FoundMissed(ma, st.peaks, st.idx[|st.idx| - 2], st.idx[|st.idx| - 1], st.th, Int(0.360 * fs), mp)
    ensures mp in st.peaks
    ensures RecoveryOutcome(ma, fs, st, st.(qrs := InsertSorted(st.qrs, mp)))
  {
    var section := PySlice(st.peaks, st.idx[|st.idx| - 2] + 1, st.idx[|st.idx| - 1]);
    assert |section| > 0 && mp in section;
    assert |InsertSorted(st.qrs, mp)| != |st.qrs|;
  }

  /** Recovery that inserts nothing: an interval that is not late, an
      empty slice, or a slice with no qualifying candidate. */
  lemma RecoveryNone(ma: seq<real>, fs: real, st: HamiltonState)
    requires |st.idx| >= 2 && |st.qrs| >= 2 && st.idx[|st.idx| - 2] >= 0 && Sorted(st.qrs)
    requires || (st.qrs[|st.qrs| - 1] - st.qrs[|st.qrs| - 2]) as real <= 1.5 * st.rrAve
             || NoneMissed(ma, st.peaks, st.idx[|st.idx| - 2], st.idx[|st.idx| - 1], st.th, Int(0.360 * fs))
    ensures RecoveryOutcome(ma, fs, st, st)
  {
  }

  /** Recovery as a function of the state before it: the
      `FirstQualifyingIndex` choice of a late interval's slice, if any, is
      inserted into QRS. */
  function Recovery(ma: seq<real>, fs: real, st: HamiltonState): HamiltonState
    requires |st.idx| >= 2 && |st.qrs| >= 2 && st.idx[|st.idx| - 2] >= 0 && Sorted(st.qrs)
  {
    var from := st.idx[|st.idx| - 2];
    var section := PySlice(st.peaks, from + 1, st.idx[|st.idx| - 1]);
    if (st.qrs[|st.qrs| - 1] - st.qrs[|st.qrs| - 2]) as real > 1.5 * st.rrAve && |section| > 0 then
      var j := FirstQualifyingIndex(ma, section, st.peaks[from], st.th, Int(0.360 * fs), |section|);
      if j < 0 then st else st.(qrs := InsertSorted(st.qrs, section[j]))
    else st
  }

  /** `Recovery` is the one state that meets `RecoveryOutcome`. */
  lemma RecoveryExact(ma: seq<real>, fs: real, st: HamiltonState, next: HamiltonState)
    requires |st.idx| >= 2 && |st.qrs| >= 2 && st.idx[|st.idx| - 2] >= 0 && Sorted(st.qrs)
    ensures RecoveryOutcome(ma, fs, st, next) <==> next == Recovery(ma, fs, st)
  {
    var from := st.idx[|st.idx| - 2];
    var section := PySlice(st.peaks, from + 1, st.idx[|st.idx| - 1]);
    var gap := Int(0.360 * fs);
    if (st.qrs[|st.qrs| - 1] - st.qrs[|st.qrs| - 2]) as real > 1.5 * st.rrAve && |section| > 0 {
      var base := st.peaks[from];
      var j := FirstQualifyingIndex(ma, section, base, st.th, gap, |section|);
      if j >= 0 {
        var inserted := st.(qrs := InsertSorted(st.qrs, section[j]));
        assert inserted != st by {
          assert |inserted.qrs| != |st.qrs|;
        }
        assert Recovery(ma, fs, st) == inserted;
        assert FirstQualifying(ma, section, base, st.th, gap, section[j]);
        if RecoveryOutcome(ma, fs, st, next) {
          var mp :| FirstQualifying(ma, section, base, st.th, gap, mp) && next == st.(qrs := InsertSorted(st.qrs, mp));
          var j' :| 0 <= j' < |section| && section[j'] == mp && MissedQualifies(ma, mp, base, st.th, gap)
                    && forall k :: 0 <= k < j' ==> !MissedQualifies(ma, section[k], base, st.th, gap);
          assert j' == j;
        }
      } else {
        assert Recovery(ma, fs, st) == st;
      }
    }
  }

  /** Recovery changes nothing or inserts one candidate into QRS. */
  lemma RecoveryShape(ma: seq<real>, fs: real, st: HamiltonState)
    requires |st.idx| >= 2 && |st.qrs| >= 2 && st.idx[|st.idx| - 2] >= 0 && Sorted(st.qrs)
    ensures var next := Recovery(ma, fs, st);
      next == st || exists mp :: mp in st.peaks && next == st.(qrs := InsertSorted(st.qrs, mp))
  {
    var from := st.idx[|st.idx| - 2];
    var section := PySlice(st.peaks, from + 1, st.idx[|st.idx| - 1]);
    if (st.qrs[|st.qrs| - 1] - st.qrs[|st.qrs| - 2]) as real > 1.5 * st.rrAve && |section| > 0 {
      var j := FirstQualifyingIndex(ma, section, st.peaks[from], st.th, Int(0.360 * fs), |section|);
      if j >= 0 {
        assert section[j] in st.peaks;
      }
    }
  }

  /** Recovery touches only QRS, which keeps its entries and gains at most
      one candidate. */
  lemma RecoveryFields(ma: seq<real>, fs: real, st: HamiltonState)
    requires |st.idx| >= 2 && |st.qrs| >= 2 && st.idx[|st.idx| - 2] >= 0 && Sorted(st.qrs)
    ensures var next := Recovery(ma, fs, st);
      && next == st.(qrs := next.qrs)
      && |next.qrs| >= |st.qrs|
      && (next.qrs == st.qrs || exists mp :: mp in st.peaks && multiset(next.qrs) == multiset(st.qrs) + multiset{mp})
  {
    RecoveryShape(ma, fs, st);
  }

  /** Recovery keeps the state valid. */
  lemma RecoveryValid(ma: seq<real>, fs: real, st: HamiltonState)
    requires HamiltonValid(ma, st) && |st.idx| >= 2 && |st.qrs| >= 2
    ensures HamiltonValid(ma, Recovery(ma, fs, st))
  {
    var from := st.idx[|st.idx| - 2];
    var section := PySlice(st.peaks, from + 1, st.idx[|st.idx| - 1]);
    if (st.qrs[|st.qrs| - 1] - st.qrs[|st.qrs| - 2]) as real > 1.5 * st.rrAve && |section| > 0 {
      var j := FirstQualifyingIndex(ma, section, st.peaks[from], st.th, Int(0.360 * fs), |section|);
      if j >= 0 {
        RecoveryKeepsValid(ma, st, section[j]);
      }
    }
  }

  lemma SumOfThree(a: real, b: real, c: real)
    ensures Sum([a, b, c]) == a + b + c
  {
    assert [a, b, c][..2] == [a, b] && [a, b][..1] == [a] && [a][..0] == [];
    assert Sum([a]) == a;
    assert Sum([a, b]) == a + b;
  }

  /** A state between candidates (fs = 3): the candidates are the odd
      samples 1..11, the beats 1, 3 and the just accepted 11, RR_ave is 2
      and the prior threshold 0.56. */
  const WitnessMa: seq<real> := [0.0, 1.0, 0.0, 1.0, 0.0, 0.2, 0.0, 0.2, 0.0, 0.2, 0.0, 4.0, 0.0]
  const WitnessState: HamiltonState :=
    HamiltonState([0.2, 0.2, 0.2], 0.2, [1.0, 1.0, 4.0], 2.0,
                  [0, 1, 3, 11], [2], 2.0, 0.56, [1, 3, 11], [1, 3, 5, 7, 9, 11])

  lemma WitnessIsValid()
    ensures HamiltonValid(WitnessMa, WitnessState)
  {
    WitnessPeaks();
    WitnessAverages();
  }

  /** The witness's detections and candidates are strict local maxima. */
  lemma WitnessPeaks()
    ensures SeededPeaks(WitnessMa, WitnessState.qrs)
    ensures forall k :: 0 <= k < |WitnessState.peaks| ==> IsPeak(WitnessMa, WitnessState.peaks[k])
  {
    var ma := WitnessMa;
    assert IsPeak(ma, 1) && IsPeak(ma, 3) && IsPeak(ma, 5) && IsPeak(ma, 7) && IsPeak(ma, 9) && IsPeak(ma, 11);
  }

  /** The witness's averages are the means of its histories. */
  lemma WitnessAverages()
    ensures var st := WitnessState;
      && st.nPksAve == MeanOrZero(st.nPks) && st.sPksAve == MeanOrZero(st.sPks)
      && st.rrAve == IntMean(st.rr) as real
  {
    var st := WitnessState;
    SumOfThree(1.0, 1.0, 4.0);
    SumOfThree(0.2, 0.2, 0.2);
    var rr := seq(1, k requires 0 <= k < 1 => st.rr[k] as real);
    assert rr == [2.0] && rr[..0] == [];
  }

  /** The slice bounds of the missed-beat search are sample numbers, so
      the slice can reach the end of `peaks` and hold the beat just
      accepted. In the witness state the slice is `[9, 11]`, 9 is too low,
      and the first qualifying candidate is the current beat 11, which
      recovery inserts a second time: QRS then holds 11 twice. */
  lemma RecoveryCanRepeatCurrentBeat()
    ensures var st := WitnessState;
      var section := PySlice(st.peaks, st.idx[1] + 1, st.idx[2]);
      && HamiltonValid(WitnessMa, st)
      && (st.qrs[3] - st.qrs[2]) as real > 1.5 * st.rrAve
      && section == [9, 11]
      && FirstQualifying(WitnessMa, section, st.peaks[st.idx[1]], st.th, Int(0.360 * 3.0), 11)
      && InsertSorted(st.qrs, 11) == [0, 1, 3, 11, 11]
  {
    WitnessIsValid();
    var peaks := [1, 3, 5, 7, 9, 11];
    assert Int(0.360 * 3.0) == 1;
    assert PySlice(peaks, 4, 11) == [9, 11];
    assert !MissedQualifies(WitnessMa, 9, 7, 0.56, 1) && MissedQualifies(WitnessMa, 11, 7, 0.56, 1);
    assert FirstQualifying(WitnessMa, [9, 11], 7, 0.56, 1, 11) by {
      assert [9, 11][1] == 11;
    }
    assert InsertPos([0, 1, 3, 11], 11) == 4;
  }

  /** `if len(QRS) > 2`: `RR.append(QRS[-1] - QRS[-2])`, trimmed to 8
      entries, and the RR average truncated to an integer. */
  function Recorded(st: HamiltonState): HamiltonState
  {
    if |st.qrs| > 2 then
      var rr := PushBounded(st.rr, st.qrs[|st.qrs| - 1] - st.qrs[|st.qrs| - 2], 8);
      st.(rr := rr, rrAve := IntMean(rr) as real)
    else st
  }

  /** Recording an RR interval keeps the state valid. */
  lemma RecordedValid(ma: seq<real>, st: HamiltonState)
    requires HamiltonValid(ma, st)
    ensures HamiltonValid(ma, Recorded(st))
  {
    if |st.qrs| > 2 {
      var rr := PushBounded(st.rr, st.qrs[|st.qrs| - 1] - st.qrs[|st.qrs| - 2], 8);
      assert SeededPeaks(ma, Recorded(st).qrs);
    }
  }

  method RecordRR(ma: seq<real>, st: HamiltonState) returns (next: HamiltonState)
    requires HamiltonValid(ma, st) && |st.qrs| > 2
    ensures HamiltonValid(ma, next)
    ensures next == Recorded(st)
    ensures next.rr == PushBounded(st.rr, st.qrs[|st.qrs| - 1] - st.qrs[|st.qrs| - 2], 8)
    ensures next.rrAve == IntMean(next.rr) as real
  {
    var qrs := st.qrs;
    var rr := PushBounded(st.rr, qrs[|qrs| - 1] - qrs[|qrs| - 2], 8);
    next := st.(rr := rr, rrAve := IntMean(rr) as real);
    RecordedValid(ma, st);
  }

  /** Recording an RR interval changes only the RR history and its
      average, and only once QRS has more than two entries. */
  lemma RecordedFields(st: HamiltonState)
    ensures var next := Recorded(st);
      && next == st.(rr := next.rr, rrAve := next.rrAve)
      && (|st.qrs| > 2 ==> next.rr == PushBounded(st.rr, st.qrs[|st.qrs| - 1] - st.qrs[|st.qrs| - 2], 8)
                           && next.rrAve == IntMean(next.rr) as real)
      && (|st.qrs| <= 2 ==> next == st)
  {
  }

  /** Recording after QRS has grown past `st`'s: the RR history of `st`
      gains the last interval once `st` held two entries. */
  lemma RecordedAfter(st: HamiltonState, rec: HamiltonState, next: HamiltonState)
    requires rec.rr == st.rr && rec.rrAve == st.rrAve && |rec.qrs| >= |st.qrs| + 1
    requires |st.qrs| < 2 ==> |rec.qrs| == |st.qrs| + 1
    requires next == Recorded(rec)
    ensures next.qrs == rec.qrs
    ensures |st.qrs| >= 2 ==>
              && |next.qrs| >= 2
              && next.rr == PushBounded(st.rr, next.qrs[|next.qrs| - 1] - next.qrs[|next.qrs| - 2], 8)
              && next.rrAve == IntMean(next.rr) as real
    ensures |st.qrs| < 2 ==> next.rr == st.rr && next.rrAve == st.rrAve
  {
    RecordedFields(rec);
    if |st.qrs| >= 2 {
      var d := rec.qrs[|rec.qrs| - 1] - rec.qrs[|rec.qrs| - 2];
      assert next.rr == PushBounded(rec.rr, d, 8);
      assert next.qrs == rec.qrs;
      assert next.qrs[|next.qrs| - 1] - next.qrs[|next.qrs| - 2] == d;
      assert PushBounded(st.rr, d, 8) == PushBounded(rec.rr, d, 8);
    }
  }

  /** What the accepted branch needs of the state before it: QRS is
      sorted and ends at or before the local maximum `i`, the indexes are
      sample numbers, and the RR average is set only once two beats were
      indexed and QRS holds two entries. */
  predicate AcceptReady(ma: seq<real>, st: HamiltonState, i: int)
  {
    && IsPeak(ma, i) && |st.qrs| >= 1 && Sorted(st.qrs) && i >= st.qrs[|st.qrs| - 1]
    && (forall k :: 0 <= k < |st.idx| ==> st.idx[k] >= 0)
    && (st.rrAve != 0.0 ==> |st.idx| >= 2 && |st.qrs| >= 2)
  }

  /** The beat appended and, when the RR average is set, `Recovery` run. */
  function Recovered(ma: seq<real>, fs: real, st: HamiltonState, i: int): HamiltonState
    requires AcceptReady(ma, st, i)
  {
    SortedAppend(st.qrs, i);
    var appended := Appended(ma, st, i);
    if appended.rrAve != 0.0 then Recovery(ma, fs, appended) else appended
  }

  /** After appending and recovery, QRS holds the old entries, the beat and
      at most one recovered candidate; the rest is the appended state. */
  lemma RecoveredFields(ma: seq<real>, fs: real, st: HamiltonState, i: int)
    requires AcceptReady(ma, st, i)
    ensures var rec := Recovered(ma, fs, st, i);
      && rec == Appended(ma, st, i).(qrs := rec.qrs)
      && (rec.qrs == st.qrs + [i]
          || exists mp :: mp in st.peaks && multiset(rec.qrs) == multiset(st.qrs) + multiset{i, mp})
      && |rec.qrs| >= |st.qrs| + 1
      && (|st.qrs| < 2 ==> rec.qrs == st.qrs + [i])
  {
    SortedAppend(st.qrs, i);
    var appended := Appended(ma, st, i);
    if appended.rrAve != 0.0 {
      RecoveryFields(ma, fs, appended);
    }
  }

  /** The accepted branch as a function of the state before it: append
      the beat, run `Recovery` when the RR average is set, then record the
      RR interval. */
  function Accepted(ma: seq<real>, fs: real, st: HamiltonState, i: int): HamiltonState
    requires AcceptReady(ma, st, i)
  {
    Recorded(Recovered(ma, fs, st, i))
  }

  /** The accepted branch keeps the state valid. */
  lemma AcceptedValid(ma: seq<real>, fs: real, st: HamiltonState, i: int)
    requires HamiltonValid(ma, st) && IsPeak(ma, i) && i >= st.qrs[|st.qrs| - 1]
    ensures HamiltonValid(ma, Accepted(ma, fs, st, i))
  {
    AppendedValid(ma, st, i);
    var appended := Appended(ma, st, i);
    if appended.rrAve != 0.0 {
      RecoveryValid(ma, fs, appended);
    }
    RecordedValid(ma, Recovered(ma, fs, st, i));
  }

  /** What an acceptance changes: QRS gains the beat and at most one
      recovered candidate, the signal history and the index list gain the
      beat; the noise history, the candidates and the threshold stay. */
  lemma AcceptedFields(ma: seq<real>, fs: real, st: HamiltonState, i: int)
    requires AcceptReady(ma, st, i)
    ensures var next := Accepted(ma, fs, st, i);
      && next.peaks == st.peaks && next.nPks == st.nPks && next.nPksAve == st.nPksAve && next.th == st.th
      && next.sPks == st.sPks + [ma[i]] && next.idx == st.idx + [i]
      && (next.qrs == st.qrs + [i]
          || exists mp :: mp in st.peaks && multiset(next.qrs) == multiset(st.qrs) + multiset{i, mp})
  {
    var rec := Recovered(ma, fs, st, i);
    RecoveredFields(ma, fs, st, i);
    RecordedFields(rec);
  }

  /** Once QRS held two entries, an acceptance appends the last interval
      of the final QRS to the RR history, which keeps its last 8 entries,
      and the RR average follows; before that both stay. */
  lemma AcceptedIntervals(ma: seq<real>, fs: real, st: HamiltonState, i: int)
    requires AcceptReady(ma, st, i)
    ensures var next := Accepted(ma, fs, st, i);
      && (|st.qrs| >= 2 ==>
            && |next.qrs| >= 2
            && next.rr == PushBounded(st.rr, next.qrs[|next.qrs| - 1] - next.qrs[|next.qrs| - 2], 8)
            && next.rrAve == IntMean(next.rr) as real)
      && (|st.qrs| < 2 ==> next.rr == st.rr && next.rrAve == st.rrAve)
  {
    var rec := Recovered(ma, fs, st, i);
    RecoveredFields(ma, fs, st, i);
    var next := Accepted(ma, fs, st, i);
    RecordedAfter(st, rec, next);
    if |st.qrs| >= 2 {
      assert next.rr == PushBounded(st.rr, next.qrs[|next.qrs| - 1] - next.qrs[|next.qrs| - 2], 8);
    }
  }

  /** The accepted branch: append the beat, look for a missed beat when
      the RR average is set, then record the RR interval. */
  method AcceptBeat(ma: seq<real>, fs: real, st: HamiltonState, i: int) returns (next: HamiltonState)
    requires HamiltonValid(ma, st) && IsPeak(ma, i) && i >= st.qrs[|st.qrs| - 1]
    ensures next == Accepted(ma, fs, st, i)
    ensures HamiltonValid(ma, next)
  {
    next := AppendBeat(ma, st, i);
    if next.rrAve != 0.0 {
      next := RecoverMissed(ma, fs, next);
    }
    if |next.qrs| > 2 {
      next := RecordRR(ma, next);
    }
  }

  /** The rejected branch: `ma[i]` enters the noise history, which keeps
      its last 8 entries, and the noise average follows. */
  function Rejected(ma: seq<real>, st: HamiltonState, i: int): HamiltonState
    requires 0 <= i < |ma|
  {
    var nPks := PushBounded(st.nPks, ma[i], 8);
    st.(nPks := nPks, nPksAve := Mean(nPks))
  }

  /** The rejected branch keeps the state valid. */
  lemma RejectedValid(ma: seq<real>, st: HamiltonState, i: int)
    requires HamiltonValid(ma, st) && 0 <= i < |ma|
    ensures HamiltonValid(ma, Rejected(ma, st, i))
  {
    var nPks := PushBounded(st.nPks, ma[i], 8);
    assert Mean(nPks) == MeanOrZero(nPks);
    assert SeededPeaks(ma, Rejected(ma, st, i).qrs);
  }

  method NoiseBeat(ma: seq<real>, st: HamiltonState, i: int) returns (next: HamiltonState)
    requires HamiltonValid(ma, st) && 0 <= i < |ma|
    ensures HamiltonValid(ma, next)
    ensures next == Rejected(ma, st, i)
  {
    var nPks := PushBounded(st.nPks, ma[i], 8);
    next := st.(nPks := nPks, nPksAve := Mean(nPks));
    RejectedValid(ma, st, i);
  }

  /** The test of the loop body: above `th` and more than `0.3*fs` after
      the last QRS entry. */
  predicate Accepts(ma: seq<real>, fs: real, st: HamiltonState, i: int)
    requires 0 <= i < |ma| && |st.qrs| >= 1
  {
    ma[i] > st.th && (i - st.qrs[|st.qrs| - 1]) as real > 0.3 * fs
  }

  /** `peaks.append(i)`. */
  function Grown(st: HamiltonState, i: int): HamiltonState
  {
    st.(peaks := st.peaks + [i])
  }

  lemma GrownValid(ma: seq<real>, st: HamiltonState, i: int)
    requires HamiltonValid(ma, st) && IsPeak(ma, i)
    ensures HamiltonValid(ma, Grown(st, i))
  {
    assert SeededPeaks(ma, Grown(st, i).qrs);
  }

  /** The candidate `i` recorded, then accepted as a beat or rejected as
      noise. */
  function Classified(ma: seq<real>, fs: real, st: HamiltonState, i: int): HamiltonState
    requires fs > 0.0 && IsPeak(ma, i) && HamiltonValid(ma, st)
  {
    GrownValid(ma, st, i);
    if Accepts(ma, fs, st, i) then Accepted(ma, fs, Grown(st, i), i) else Rejected(ma, Grown(st, i), i)
  }

  /** Either branch keeps the state valid. */
  lemma ClassifiedValid(ma: seq<real>, fs: real, st: HamiltonState, i: int)
    requires fs > 0.0 && IsPeak(ma, i) && HamiltonValid(ma, st)
    ensures HamiltonValid(ma, Classified(ma, fs, st, i))
  {
    GrownValid(ma, st, i);
    if Accepts(ma, fs, st, i) {
      AcceptedValid(ma, fs, Grown(st, i), i);
    } else {
      RejectedValid(ma, Grown(st, i), i);
    }
  }

  /** The state after the loop body for the strict local maximum `i`:
      the candidate is classified and the threshold follows the new
      averages. */
  function HamiltonNext(ma: seq<real>, fs: real, st: HamiltonState, i: int): HamiltonState
    requires fs > 0.0 && IsPeak(ma, i) && HamiltonValid(ma, st)
  {
    var c := Classified(ma, fs, st, i);
    c.(th := c.nPksAve + 0.45 * (c.sPksAve - c.nPksAve))
  }

  /** Validity does not depend on the threshold. */
  lemma RethresholdValid(ma: seq<real>, st: HamiltonState, th: real)
    requires HamiltonValid(ma, st)
    ensures HamiltonValid(ma, st.(th := th))
  {
    assert SeededPeaks(ma, st.(th := th).qrs);
  }

  /** The loop body keeps the state valid and the threshold in place. */
  lemma HamiltonNextKeeps(ma: seq<real>, fs: real, st: HamiltonState, i: int)
    requires fs > 0.0 && IsPeak(ma, i) && HamiltonValid(ma, st)
    ensures HamiltonValid(ma, HamiltonNext(ma, fs, st, i)) && ThresholdFollows(HamiltonNext(ma, fs, st, i))
  {
    var c := Classified(ma, fs, st, i);
    ClassifiedValid(ma, fs, st, i);
    RethresholdValid(ma, c, c.nPksAve + 0.45 * (c.sPksAve - c.nPksAve));
  }

  /** The loop body for the strict local maximum `i`. A beat needs
      `ma[i] > th` and more than `0.3*fs` since the last QRS; otherwise
      `ma[i]` enters the noise history. The threshold is then recomputed. */
  method HamiltonOnPeak(ma: seq<real>, fs: real, st: HamiltonState, i: int) returns (next: HamiltonState)
    requires fs > 0.0 && IsPeak(ma, i) && HamiltonValid(ma, st)
    ensures next == HamiltonNext(ma, fs, st, i)
    ensures HamiltonValid(ma, next) && ThresholdFollows(next)
  {
    var withPeak := Grown(st, i);
    GrownValid(ma, st, i);
    if ma[i] > st.th && (i - st.qrs[|st.qrs| - 1]) as real > 0.3 * fs {
      next := AcceptBeat(ma, fs, withPeak, i);
      assert Accepts(ma, fs, st, i);
    } else {
      next := NoiseBeat(ma, withPeak, i);
      assert !Accepts(ma, fs, st, i);
    }
    assert next == Classified(ma, fs, st, i);
    next := next.(th := next.nPksAve + 0.45 * (next.sPksAve - next.nPksAve));
    // `i += 1` here has no effect on the enclosing `for` loop
    HamiltonNextKeeps(ma, fs, st, i);
  }

  /** The state before the first sample. */
  const HamiltonStart: HamiltonState := HamiltonState([], 0.0, [], 0.0, [0], [], 0.0, 0.0, [], [])

  /** The state of the decision loop after the samples before `n`: every
      strict local maximum among them went through `HamiltonNext`, in order. */
  function HamiltonRun(ma: seq<real>, fs: real, n: nat): (st: HamiltonState)
    requires fs > 0.0
    ensures HamiltonValid(ma, st)
    decreases n
  {
    if n == 0 then HamiltonStart
    else
      var prev := HamiltonRun(ma, fs, n - 1);
      if IsPeak(ma, n - 1) then
        HamiltonNextKeeps(ma, fs, prev, n - 1);
        HamiltonNext(ma, fs, prev, n - 1)
      else prev
  }

  /** The decision loop of `hamilton_detector` over `ma`; the seed 0 is
      popped before returning. The result is sorted and every entry is a
      strict local maximum of `ma`. */
  method HamiltonLoop(ma: seq<real>, fs: real) returns (qrs: seq<int>)
    requires fs > 0.0
    ensures qrs == HamiltonRun(ma, fs, |ma|).qrs[1..]
    ensures Sorted(qrs)
    ensures forall k :: 0 <= k < |qrs| ==> IsPeak(ma, qrs[k])
  {
    var st := HamiltonStart;
    for i := 0 to |ma|
      invariant st == HamiltonRun(ma, fs, i)
    {
      if i > 0 && i < |ma| - 1 {
        if ma[i - 1] < ma[i] && ma[i + 1] < ma[i] {
          st := HamiltonOnPeak(ma, fs, st, i);
        }
      }
    }
    qrs := st.qrs[1..];
    assert forall k :: 0 <= k < |qrs| ==> qrs[k] == st.qrs[k + 1];
  }

  /** `ma` of `hamilton_detector`: the absolute first difference of the
      band-passed signal, averaged over `int(0.08*fs)` samples by a causal
      FIR filter, with its first `2*int(0.08*fs)` samples cleared. */
  function HamiltonSignal(filtered: seq<real>, fs: real): (ma: seq<real>)
    requires 0.08 * fs >= 1.0
    ensures |ma| == |Diff(filtered)|
    ensures forall k :: 0 <= k < |ma| ==> ma[k] >= 0.0
  {
    var taps := Int(0.08 * fs);
    CausalMeanNonNegative(Abs(Diff(filtered)), taps);
    ZeroPrefix(CausalMean(Abs(Diff(filtered)), taps), 2 * taps)
  }

  /** `hamilton_detector` after its band-pass filter. With at most one
      sample `np.diff` is empty and the FIR filter raises ValueError (numpy's
      convolution refuses an empty operand); otherwise the detections are
      sorted strict local maxima of `ma`, none inside the cleared prefix. */
  method HamiltonDetector(filtered: seq<real>, fs: real) returns (r: Result<seq<int>>)
    requires 0.08 * fs >= 1.0
    ensures r.Err? <==> |filtered| <= 1
    ensures r.Err? ==> r.error == ValueError
    ensures r.Ok? ==> r.value == HamiltonRun(HamiltonSignal(filtered, fs), fs, |filtered| - 1).qrs[1..]
    ensures r.Ok? ==> Sorted(r.value)
    ensures r.Ok? ==> forall k :: 0 <= k < |r.value| ==>
              IsPeak(HamiltonSignal(filtered, fs), r.value[k]) && r.value[k] >= 2 * Int(0.08 * fs)
  {
    if |filtered| <= 1 {
      return Err(ValueError);
    }
    var taps := Int(0.08 * fs);
    var ma := CausalMean(Abs(Diff(filtered)), taps);
    CausalMeanNonNegative(Abs(Diff(filtered)), taps);
    var cleared := ZeroPrefix(ma, 2 * taps);
    var qrs := HamiltonLoop(cleared, fs);
    forall k | 0 <= k < |qrs|
      ensures qrs[k] >= 2 * taps
    {
      if qrs[k] < 2 * taps {
        NoPeakInClearedPrefix(ma, 2 * taps, qrs[k]);
      }
    }
    r := Ok(qrs);
  }
}
