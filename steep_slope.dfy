/** The steep-slope threshold `M` shared by Christov's and Engzee's
    detectors (ecgdetectors.py): during the first five seconds it is 60% of
    the running maximum; afterwards it follows the mean of the last five
    QRS amplitude estimates `MM`, decaying linearly from 100% to 60% between
    200 ms and 1200 ms after the last detection. */
module SteepSlope {
  import opened Common

  /** `np.linspace(start, stop, n)` for `n >= 0`: `n` evenly spaced
      points from `start` to `stop`, or just `start` when `n == 1`. */
  function Linspace(start: real, stop: real, n: int): (r: seq<real>)
    requires n >= 0
    ensures |r| == n
  {
    LinspaceFrom(start, stop, n, 0)
  }

  /** Entries `k` to `n - 1` of `np.linspace(start, stop, n)`. */
  function LinspaceFrom(start: real, stop: real, n: int, k: int): (r: seq<real>)
    requires 0 <= k <= n
    ensures |r| == n - k
    decreases n - k
  {
    if k == n then [] else [LinspacePoint(start, stop, n, k)] + LinspaceFrom(start, stop, n, k + 1)
  }

  /** Entry `k` of `np.linspace(start, stop, n)`. */
  function LinspacePoint(start: real, stop: real, n: int, k: int): real
    requires 0 <= k < n
  {
    if n == 1 then start else start + (stop - start) * Fraction(k, n - 1)
  }

  /** `k / d` as a real. */
  function Fraction(k: int, d: int): real
    requires d > 0
  {
    k as real / d as real
  }

  lemma FractionBounds(k: int, d: int)
    requires 0 <= k <= d && d > 0
    ensures 0.0 <= Fraction(k, d) <= 1.0
    ensures k == d ==> Fraction(k, d) == 1.0
  {
    var t := Fraction(k, d);
    assert t * d as real == k as real;
  }

  lemma FractionMonotone(j: int, k: int, d: int)
    requires j < k && d > 0
    ensures Fraction(j, d) < Fraction(k, d)
  {
    assert Fraction(j, d) * d as real == j as real;
    assert Fraction(k, d) * d as real == k as real;
  }

  lemma ScaleNegative(c: real, s: real, t: real)
    requires c < 0.0 && s < t
    ensures c * t < c * s
  {
    assert c * t - c * s == c * (t - s);
  }

  lemma AffineFalls(start: real, stop: real, s: real, t: real)
    requires stop < start && s < t
    ensures start + (stop - start) * t < start + (stop - start) * s
  {
    ScaleNegative(stop - start, s, t);
  }

  lemma ScaleUnit(c: real, t: real)
    requires c < 0.0 && 0.0 <= t <= 1.0
    ensures c <= c * t <= 0.0
  {
    assert c * t - c == c * (t - 1.0);
  }

  lemma LinspaceEntry(start: real, stop: real, n: int, k: int)
    requires 2 <= n && 0 <= k < n
    ensures Linspace(start, stop, n)[k] == start + (stop - start) * Fraction(k, n - 1)
  {
    LinspaceFromEntry(start, stop, n, 0, k);
  }

  lemma {:induction false} LinspaceFromEntry(start: real, stop: real, n: int, k: int, j: int)
    requires 0 <= k <= j < n
    ensures LinspaceFrom(start, stop, n, k)[j - k] == LinspacePoint(start, stop, n, j)
    decreases j - k
  {
    if k < j {
      LinspaceFromEntry(start, stop, n, k + 1, j);
      assert LinspaceFrom(start, stop, n, k)[j - k] == LinspaceFrom(start, stop, n, k + 1)[j - (k + 1)];
    }
  }

  /** `np.linspace` starts at `start` and, with two or more points, ends
      at `stop`. */
  lemma LinspaceEnds(start: real, stop: real, n: int)
    requires n >= 1
    ensures Linspace(start, stop, n)[0] == start
    ensures n >= 2 ==> Linspace(start, stop, n)[n - 1] == stop
  {
    LinspaceFromEntry(start, stop, n, 0, 0);
    if n >= 2 {
      LinspaceEntry(start, stop, n, n - 1);
      FractionBounds(n - 1, n - 1);
    }
  }

  /** Every entry of a falling `linspace` lies between its end points, and
      the entries fall strictly. */
  lemma LinspaceFalls(start: real, stop: real, n: int)
    requires n >= 0 && stop < start
    ensures forall k :: 0 <= k < n ==> stop <= Linspace(start, stop, n)[k] <= start
    ensures forall j, k :: 0 <= j < k < n ==> Linspace(start, stop, n)[k] < Linspace(start, stop, n)[j]
  {
    if n >= 2 {
      forall k | 0 <= k < n
        ensures stop <= Linspace(start, stop, n)[k] <= start
      {
        LinspaceEntryBounds(start, stop, n, k);
      }
      forall j, k | 0 <= j < k < n
        ensures Linspace(start, stop, n)[k] < Linspace(start, stop, n)[j]
      {
        LinspaceStep(start, stop, n, j, k);
      }
    }
  }

  lemma LinspaceStep(start: real, stop: real, n: int, j: int, k: int)
    requires 2 <= n && 0 <= j < k < n && stop < start
    ensures Linspace(start, stop, n)[k] < Linspace(start, stop, n)[j]
  {
    LinspaceEntry(start, stop, n, j);
    LinspaceEntry(start, stop, n, k);
    FractionMonotone(j, k, n - 1);
    AffineFalls(start, stop, Fraction(j, n - 1), Fraction(k, n - 1));
  }

  lemma LinspaceEntryBounds(start: real, stop: real, n: int, k: int)
    requires 2 <= n && 0 <= k < n && stop < start
    ensures stop <= Linspace(start, stop, n)[k] <= start
  {
    LinspaceEntry(start, stop, n, k);
    var t := Fraction(k, n - 1);
    FractionBounds(k, n - 1);
    var c := stop - start;
    ScaleUnit(c, t);
    assert Linspace(start, stop, n)[k] == start + c * t;
    assert start + c <= start + c * t;
  }

  /** A mean scaled by a factor in [0.6, 1]. */
  lemma ScaledMean(a: real, f: real)
    requires 0.6 <= f <= 1.0
    ensures 0.0 <= a ==> 0.6 * a <= a * f <= a
    ensures a < 0.0 ==> a * f < 0.0
  {
  }

  /** A bounded history stays bounded when a bounded entry is pushed. */
  lemma PushAtMost(s: seq<real>, x: real, cap: nat, hi: real)
    requires cap >= 1 && x <= hi && forall k :: 0 <= k < |s| ==> s[k] <= hi
    ensures forall k :: 0 <= k < |PushBounded(s, x, cap)| ==> PushBounded(s, x, cap)[k] <= hi
  {
    var t := s + [x];
    assert forall k :: 0 <= k < |t| ==> t[k] <= hi;
  }

  /** The two copies of the `M` update differ in one branch: at
      `QRS[-1] + ms200` Christov's substitutes `MM[-1]` for a zero `newM5`,
      while Engzee's skips the branch when `newM5` is zero. */
  datatype Variant = ChristovVariant | EngzeeVariant

  /** `M`, `newM5` and `MM`. */
  datatype SlopeState = SlopeState(m: real, newM5: real, mm: seq<real>)

  /** The detector's time constants, `int(0.2*fs)` and `int(1.2*fs)`. */
  predicate WindowsOk(ms200: int, ms1200: int)
  {
    0 <= ms200 <= ms1200
  }

  /** No amplitude estimate exceeds 60% of the largest sample, and `M`
      does not either when that sample is non-negative. */
  predicate SlopeBounded(x: seq<real>, st: SlopeState)
  {
    |x| > 0 ==>
      && (forall k :: 0 <= k < |st.mm| ==> st.mm[k] <= 0.6 * Max(x))
      && (st.newM5 == 0.0 || st.newM5 <= 0.6 * Max(x))
      && (0.0 <= Max(x) ==> st.m <= 0.6 * Max(x))
  }

  /** The state every iteration starts with. */
  predicate SlopeReady(x: seq<real>, st: SlopeState, i: int)
  {
    |st.mm| <= 5 && (i > 0 ==> |st.mm| >= 1) && SlopeBounded(x, st)
  }

  /** `M_slope[i - (QRS[-1] + ms200)]` between 200 ms and 1200 ms after the
      last detection: the index is never 0 and always in range. */
  function DecayedMean(mm: seq<real>, slope: seq<real>, since: int): (r: real)
    requires |mm| > 0 && 0 < since < |slope|
  {
    Mean(mm) * slope[since]
  }

  /** Scaling by a factor in [0.6, 1] keeps a value under a non-negative bound. */
  lemma ScaledAtMost(a: real, f: real, hi: real)
    requires 0.6 <= f <= 1.0 && a <= hi && 0.0 <= hi
    ensures a * f <= hi
  {
    ScaledMean(a, f);
  }

  lemma MeanAtMost(s: seq<real>, hi: real)
    requires |s| > 0 && forall k :: 0 <= k < |s| ==> s[k] <= hi
    ensures Mean(s) <= hi
  {
    MeanBetween(s, Min(s), hi);
  }

  /** The `# M` block for sample `i`, given the detections so far (all
      before `i`): the first five seconds, then — with a detection at
      `last` — tracking before `last + ms200`, the commit at `last + ms200`
      (skipped by Engzee's copy while `newM5` is zero), and the decay
      after it. Before any detection past five seconds nothing changes.
      The bound on `MM` and `M` is preserved. */
  function SlopeNext(variant: Variant, x: seq<real>, fs: real, ms200: int, ms1200: int,
                     slope: seq<real>, qrs: seq<int>, st: SlopeState, i: int): (next: SlopeState)
    requires 0 <= i < |x| && fs > 0.0 && WindowsOk(ms200, ms1200)
    requires slope == Linspace(1.0, 0.6, ms1200 - ms200)
    requires AllBefore(qrs, i)
    requires SlopeReady(x, st, i)
    ensures SlopeReady(x, next, i + 1)
    ensures (i as real) < 5.0 * fs ==> next == EarlyNext(x, st, i)
    ensures !((i as real) < 5.0 * fs) && |qrs| == 0 ==> next == st
    ensures !((i as real) < 5.0 * fs) && |qrs| > 0 ==>
              var last := qrs[|qrs| - 1];
              && (i < last + ms200 ==> next == TrackNext(x, st, last, i))
              && (i == last + ms200 ==>
                    next == if variant == ChristovVariant || st.newM5 != 0.0 then CommitNext(x, st) else st)
              && (i > last + ms200 ==> next == DecayNext(x, ms200, ms1200, slope, st, i - last))
  {
    if (i as real) < 5.0 * fs then EarlyNext(x, st, i)
    else if |qrs| > 0 then
      var last := qrs[|qrs| - 1];
      if i < last + ms200 then TrackNext(x, st, last, i)
      else if i == last + ms200 && (variant == ChristovVariant || st.newM5 != 0.0) then CommitNext(x, st)
      else if i > last + ms200 then DecayNext(x, ms200, ms1200, slope, st, i - last)
      else st
    else st
  }

  /** The first five seconds: `M` is 60% of the running maximum and enters
      `MM`, which keeps its last five entries. */
  function EarlyNext(x: seq<real>, st: SlopeState, i: int): (next: SlopeState)
    requires 0 <= i < |x| && SlopeReady(x, st, i)
    ensures SlopeReady(x, next, i + 1)
    ensures next.m == 0.6 * Max(x[..i + 1]) && next.mm == PushBounded(st.mm, next.m, 5)
    ensures next.newM5 == st.newM5
  {
    var m := 0.6 * Max(x[..i + 1]);
    MaxOfSlice(x, 0, i + 1);
    PushAtMost(st.mm, m, 5, 0.6 * Max(x));
    SlopeState(m, st.newM5, PushBounded(st.mm, m, 5))
  }

  /** Within 200 ms of the detection at `last`: `newM5` is 60% of the
      maximum of `x[last..i]`, replaced by 1.1 `MM[-1]` exactly when it
      exceeds 1.5 `MM[-1]`; for a non-negative `MM[-1]` the clamp only
      lowers it. `M` and `MM` are untouched. */
  function TrackNext(x: seq<real>, st: SlopeState, last: int, i: int): (next: SlopeState)
    requires 0 <= last < i < |x| && SlopeReady(x, st, i)
    ensures SlopeReady(x, next, i + 1)
    ensures next.mm == st.mm && next.m == st.m
    ensures var tracked := 0.6 * Max(x[last..i]);
      var prev := st.mm[|st.mm| - 1];
      && (tracked > 1.5 * prev ==> next.newM5 == 1.1 * prev)
      && (tracked <= 1.5 * prev ==> next.newM5 == tracked)
      && (0.0 <= prev ==> next.newM5 <= 1.5 * prev && next.newM5 <= tracked)
  {
    var prev := st.mm[|st.mm| - 1];
    var tracked := 0.6 * Max(x[last..i]);
    MaxOfSlice(x, last, i);
    st.(newM5 := if tracked > 1.5 * prev then 1.1 * prev else tracked)
  }

  /** 200 ms after a detection: a zero `newM5` is first replaced by
      `MM[-1]`; `newM5` then enters `MM` (last five kept) and `M` becomes
      the mean of `MM`, so it lies between the smallest and the largest of
      the five estimates. */
  function CommitNext(x: seq<real>, st: SlopeState): (next: SlopeState)
    requires |x| > 0 && SlopeReady(x, st, 1)
    ensures SlopeReady(x, next, 1)
    ensures next.newM5 == if st.newM5 == 0.0 then st.mm[|st.mm| - 1] else st.newM5
    ensures next.mm == PushBounded(st.mm, next.newM5, 5)
    ensures next.m == Mean(next.mm)
    ensures Min(next.mm) <= next.m <= Max(next.mm)
  {
    var hi := 0.6 * Max(x);
    var newM5 := if st.newM5 == 0.0 then st.mm[|st.mm| - 1] else st.newM5;
    var mm := PushBounded(st.mm, newM5, 5);
    PushAtMost(st.mm, newM5, 5, hi);
    MeanAtMost(mm, hi);
    MeanBetween(mm, Min(mm), Max(mm));
    SlopeState(Mean(mm), newM5, mm)
  }

  /** `since` samples after a detection, past 200 ms: until 1200 ms `M` is
      the mean of `MM` scaled by `M_slope[since - ms200]`, after 1200 ms it
      is 60% of that mean, and exactly at 1200 ms it is left unchanged. In
      the decay window the factor lies in [0.6, 1]. */
  function DecayNext(x: seq<real>, ms200: int, ms1200: int, slope: seq<real>, st: SlopeState, since: int)
    : (next: SlopeState)
    requires |x| > 0 && WindowsOk(ms200, ms1200) && slope == Linspace(1.0, 0.6, ms1200 - ms200)
    requires since > ms200 && SlopeReady(x, st, 1)
    ensures SlopeReady(x, next, 1)
    ensures next.mm == st.mm && next.newM5 == st.newM5
    ensures since < ms1200 ==> (next.m == Mean(st.mm) * slope[since - ms200]
                               && 0.6 <= slope[since - ms200] <= 1.0)
    ensures since > ms1200 ==> next.m == 0.6 * Mean(st.mm)
    ensures since == ms1200 ==> next.m == st.m
    ensures since != ms1200 ==> next.m == Mean(st.mm) * DecayFactor(ms200, ms1200, slope, since)
  {
    if since == ms1200 then st else ReplaceM(x, st, DecayFactor(ms200, ms1200, slope, since))
  }

  /** The factor applied to the mean of `MM` `since` samples after a
      detection: `M_slope[since - ms200]` before 1200 ms, 0.6 after. */
  function DecayFactor(ms200: int, ms1200: int, slope: seq<real>, since: int): (f: real)
    requires WindowsOk(ms200, ms1200) && slope == Linspace(1.0, 0.6, ms1200 - ms200)
    requires since > ms200 && since != ms1200
    ensures 0.6 <= f <= 1.0
    ensures since < ms1200 ==> f == slope[since - ms200]
    ensures since > ms1200 ==> f == 0.6
  {
    if since < ms1200 then
      LinspaceEntryBounds(1.0, 0.6, ms1200 - ms200, since - ms200);
      slope[since - ms200]
    else 0.6
  }

  /** `M` replaced by the mean of `MM` scaled by a factor in [0.6, 1]
      keeps the state ready. */
  function ReplaceM(x: seq<real>, st: SlopeState, f: real): (next: SlopeState)
    requires |x| > 0 && SlopeReady(x, st, 1) && 0.6 <= f <= 1.0
    ensures next == st.(m := Mean(st.mm) * f)
    ensures SlopeReady(x, next, 1)
  {
    MeanAtMost(st.mm, 0.6 * Max(x));
    if 0.0 <= Max(x) then
      ScaledAtMost(Mean(st.mm), f, 0.6 * Max(x));
      st.(m := Mean(st.mm) * f)
    else st.(m := Mean(st.mm) * f)
  }

  lemma ScaleStrict(a: real, p: real, q: real)
    requires a > 0.0 && p < q
    ensures a * p < a * q
  {
    assert a * q - a * p == a * (q - p);
  }

  lemma ScaleWeak(a: real, p: real, q: real)
    requires a > 0.0 && p <= q
    ensures a * p <= a * q
  {
    assert a * q - a * p == a * (q - p);
  }

  /** The decay factor never rises with the distance to the last
      detection, and falls strictly inside the decay window. */
  lemma DecayFactorFalls(ms200: int, ms1200: int, slope: seq<real>, s: int, u: int)
    requires WindowsOk(ms200, ms1200) && slope == Linspace(1.0, 0.6, ms1200 - ms200)
    requires ms200 < s < u && s != ms1200 && u != ms1200
    ensures DecayFactor(ms200, ms1200, slope, u) <= DecayFactor(ms200, ms1200, slope, s)
    ensures u < ms1200 ==> DecayFactor(ms200, ms1200, slope, u) < DecayFactor(ms200, ms1200, slope, s)
  {
    if u < ms1200 {
      LinspaceStep(1.0, 0.6, ms1200 - ms200, s - ms200, u - ms200);
    }
  }

  /** Partner of the decay: for a positive mean of `MM`, `M` falls strictly
      as the distance to the last detection grows through the decay
      window. */
  lemma DecayFalls(x: seq<real>, ms200: int, ms1200: int, slope: seq<real>, st: SlopeState, s: int, u: int)
    requires |x| > 0 && WindowsOk(ms200, ms1200) && slope == Linspace(1.0, 0.6, ms1200 - ms200)
    requires SlopeReady(x, st, 1) && Mean(st.mm) > 0.0
    requires ms200 < s < u < ms1200
    ensures DecayNext(x, ms200, ms1200, slope, st, u).m < DecayNext(x, ms200, ms1200, slope, st, s).m
  {
    var a, fs, fu := Mean(st.mm), DecayFactor(ms200, ms1200, slope, s), DecayFactor(ms200, ms1200, slope, u);
    DecayFactorFalls(ms200, ms1200, slope, s, u);
    ScaleStrict(a, fu, fs);
    assert DecayNext(x, ms200, ms1200, slope, st, u).m == a * fu;
    assert DecayNext(x, ms200, ms1200, slope, st, s).m == a * fs;
  }

  /** After the decay window `M` is no higher than anywhere inside it. */
  lemma DecayEndsLowest(x: seq<real>, ms200: int, ms1200: int, slope: seq<real>, st: SlopeState, s: int, u: int)
    requires |x| > 0 && WindowsOk(ms200, ms1200) && slope == Linspace(1.0, 0.6, ms1200 - ms200)
    requires SlopeReady(x, st, 1) && Mean(st.mm) > 0.0
    requires ms200 < s < ms1200 < u
    ensures DecayNext(x, ms200, ms1200, slope, st, u).m <= DecayNext(x, ms200, ms1200, slope, st, s).m
  {
    var a, fs, fu := Mean(st.mm), DecayFactor(ms200, ms1200, slope, s), DecayFactor(ms200, ms1200, slope, u);
    DecayFactorFalls(ms200, ms1200, slope, s, u);
    ScaleWeak(a, fu, fs);
    assert DecayNext(x, ms200, ms1200, slope, st, u).m == a * fu;
    assert DecayNext(x, ms200, ms1200, slope, st, s).m == a * fs;
  }
}
