/** The two-moving-average detector of Elgendi et al.
    (ecgdetectors.py, `two_average_detector`): samples where the 120 ms
    average of the rectified signal exceeds the 600 ms average form blocks
    of interest; each wide enough block contributes the position of its
    largest filtered sample, unless that lies too close to the previous
    detection. */
module TwoAverage {
  import opened Common
  import opened MovingAverage
  import opened Transforms

  /** The block levels: `block_height` where the fast average exceeds the
      slow one, 0 elsewhere. */
  function BlockLevels(fast: seq<real>, slow: seq<real>, height: real): (b: seq<real>)
    requires |fast| == |slow|
    ensures |b| == |fast|
    ensures forall k :: 0 <= k < |b| ==> b[k] == 0.0 || b[k] == height
    ensures forall k :: 0 <= k < |b| ==> (b[k] == height <==> fast[k] > slow[k] || height == 0.0)
  {
    seq(|fast|, k requires 0 <= k < |fast| => if fast[k] > slow[k] then height else 0.0)
  }

  /** The first loop of the detector: `blocks`, a zero array of the
      signal's length, filled slot by slot. */
  method FillBlocks(fast: seq<real>, slow: seq<real>, height: real) returns (blocks: array<real>)
    requires |fast| == |slow|
    ensures fresh(blocks)
    ensures blocks[..] == BlockLevels(fast, slow, height)
  {
    blocks := new real[|fast|](_ => 0.0);
    for i := 0 to |fast|
      invariant forall k :: 0 <= k < i ==> blocks[k] == if fast[k] > slow[k] then height else 0.0
    {
      if fast[i] > slow[i] {
        blocks[i] := height;
      } else {
        blocks[i] := 0.0;
      }
    }
    assert blocks[..] == BlockLevels(fast, slow, height);
  }

  /** A maximal run `[s, e]` of non-zero blocks, closed by a zero on both
      sides. */
  predicate IsBlock(blocks: seq<real>, height: real, s: int, e: int)
  {
    && height != 0.0
    && 1 <= s <= e && e + 1 < |blocks|
    && blocks[s - 1] == 0.0 && blocks[e + 1] == 0.0
    && forall j :: s <= j <= e ==> blocks[j] == height
  }

  /** The detection a block proposes: the first position of the largest
      filtered sample inside it. */
  function Candidate(filtered: seq<real>, s: int, e: int): (c: int)
    requires 0 <= s <= e < |filtered|
    ensures s <= c <= e
    ensures forall j :: s <= j <= e ==> filtered[j] <= filtered[c]
    ensures forall j :: s <= j < c ==> filtered[j] < filtered[c]
  {
    s + FirstArgmax(filtered[s..e + 1])
  }

  /** Each detection is the candidate of a block wider than `minWidth`. */
  ghost predicate FromBlocks(blocks: seq<real>, height: real, filtered: seq<real>, minWidth: int, qrs: seq<int>)
    requires |filtered| == |blocks|
  {
    forall k :: 0 <= k < |qrs| ==> FromBlock(blocks, height, filtered, minWidth, qrs[k])
  }

  /** `d` is the candidate of a block wider than `minWidth`. */
  ghost predicate FromBlock(blocks: seq<real>, height: real, filtered: seq<real>, minWidth: int, d: int)
    requires |filtered| == |blocks|
  {
    exists s, e :: IsBlock(blocks, height, s, e) && e - s > minWidth && d == Candidate(filtered, s, e)
  }

  /** Every block wider than `minWidth` that ended before `i` has a
      detection at its candidate or at most `gap` samples before it. */
  ghost predicate BlocksCovered(blocks: seq<real>, height: real, filtered: seq<real>, minWidth: int, gap: int,
                          qrs: seq<int>, i: int)
    requires |filtered| == |blocks|
  {
    forall s, e :: IsBlock(blocks, height, s, e) && e + 1 < i && e - s > minWidth ==>
      Covers(qrs, Candidate(filtered, s, e), gap)
  }

  /** Some detection lies at `c` or at most `gap` samples before it. */
  ghost predicate Covers(qrs: seq<int>, c: int, gap: int)
  {
    exists d :: d in qrs && c - gap <= d <= c
  }

  /** Two blocks that end at the same place start at the same place. */
  lemma BlockUnique(blocks: seq<real>, height: real, s: int, s': int, e: int)
    requires IsBlock(blocks, height, s, e)
    requires 1 <= s' <= e && blocks[s' - 1] == 0.0 && forall j :: s' <= j <= e ==> blocks[j] == height
    ensures s == s'
  {
  }

  /** `blocks[start..i)` is a run of non-zero blocks opened by a rising edge. */
  predicate Run(blocks: seq<real>, height: real, start: int, i: int)
    requires i <= |blocks|
  {
    1 <= start < i && blocks[start - 1] == 0.0 && forall j :: start <= j < i ==> blocks[j] == height
  }

  /** What holds before position `i` of the block scan. */
  ghost predicate ScanInv(blocks: seq<real>, height: real, filtered: seq<real>, minWidth: int, gap: int,
                          qrs: seq<int>, started: bool, start: int, i: int)
    requires |filtered| == |blocks| && 1 <= i <= |blocks|
  {
    && StrictlyIncreasing(qrs) && GapsExceed(qrs, gap as real)
    && (forall k :: 0 <= k < |qrs| ==> qrs[k] < i - 1)
    && FromBlocks(blocks, height, filtered, minWidth, qrs)
    && BlocksCovered(blocks, height, filtered, minWidth, gap, qrs, i)
    && (started ==> 1 <= start < i && blocks[start - 1] == 0.0)
    && (height != 0.0 && blocks[i - 1] == height && started ==>
          Run(blocks, height, start, i) && forall k :: 0 <= k < |qrs| ==> qrs[k] < start)
    && (height != 0.0 && blocks[i - 1] == height && !started ==>
          forall j :: 0 <= j < i ==> blocks[j] == height)
  }

  /** A falling edge at `i` closes the run that began at `start`: its
      candidate is appended unless it lies within `gap` of the previous
      detection. */
  method CloseBlock(blocks: seq<real>, height: real, filtered: seq<real>, minWidth: int, gap: int,
                    qrs: seq<int>, start: int, i: int) returns (next: seq<int>)
    requires |filtered| == |blocks| && 1 <= i < |blocks| && gap >= 0
    requires forall k :: 0 <= k < |blocks| ==> blocks[k] == 0.0 || blocks[k] == height
    requires height != 0.0 && blocks[i] == 0.0 && blocks[i - 1] == height
    requires Run(blocks, height, start, i) && forall k :: 0 <= k < |qrs| ==> qrs[k] < start
    requires ScanInv(blocks, height, filtered, minWidth, gap, qrs, true, start, i)
    ensures ScanInv(blocks, height, filtered, minWidth, gap, next, true, start, i + 1)
    ensures next == qrs || (next == qrs + [Candidate(filtered, start, i - 1)] && i - 1 - start > minWidth)
  {
    var c := Candidate(filtered, start, i - 1);
    if i - 1 - start > minWidth && (|qrs| == 0 || c - qrs[|qrs| - 1] > gap) {
      CloseAppend(blocks, height, filtered, minWidth, gap, qrs, start, i);
      next := qrs + [c];
    } else {
      CloseSkip(blocks, height, filtered, minWidth, gap, qrs, start, i);
      next := qrs;
    }
  }

  /** A wide enough block far enough from the previous detection adds its
      candidate. */
  lemma CloseAppend(blocks: seq<real>, height: real, filtered: seq<real>, minWidth: int, gap: int,
                    qrs: seq<int>, start: int, i: int)
    requires |filtered| == |blocks| && 1 <= i < |blocks| && gap >= 0
    requires height != 0.0 && blocks[i] == 0.0 && Run(blocks, height, start, i)
    requires forall k :: 0 <= k < |qrs| ==> qrs[k] < start
    requires ScanInv(blocks, height, filtered, minWidth, gap, qrs, true, start, i)
    requires i - 1 - start > minWidth
    requires |qrs| == 0 || Candidate(filtered, start, i - 1) - qrs[|qrs| - 1] > gap
    ensures ScanInv(blocks, height, filtered, minWidth, gap, qrs + [Candidate(filtered, start, i - 1)], true, start, i + 1)
  {
    var c := Candidate(filtered, start, i - 1);
    var next := qrs + [c];
    assert IsBlock(blocks, height, start, i - 1);
    FromBlocksAppend(blocks, height, filtered, minWidth, qrs, start, i - 1);
    OrderedAppend(qrs, c, gap);
    assert c in next;
    assert forall k :: 0 <= k < |qrs| ==> next[k] == qrs[k];
    CloseKeepsInv(blocks, height, filtered, minWidth, gap, qrs, next, start, i);
  }

  /** A narrow block, or one too close to the previous detection, adds
      nothing, and the latter is covered by that detection. */
  lemma CloseSkip(blocks: seq<real>, height: real, filtered: seq<real>, minWidth: int, gap: int,
                  qrs: seq<int>, start: int, i: int)
    requires |filtered| == |blocks| && 1 <= i < |blocks| && gap >= 0
    requires height != 0.0 && blocks[i] == 0.0 && Run(blocks, height, start, i)
    requires forall k :: 0 <= k < |qrs| ==> qrs[k] < start
    requires ScanInv(blocks, height, filtered, minWidth, gap, qrs, true, start, i)
    requires !(i - 1 - start > minWidth && (|qrs| == 0 || Candidate(filtered, start, i - 1) - qrs[|qrs| - 1] > gap))
    ensures ScanInv(blocks, height, filtered, minWidth, gap, qrs, true, start, i + 1)
  {
    if i - 1 - start > minWidth {
      var c := Candidate(filtered, start, i - 1);
      var last := qrs[|qrs| - 1];
      assert last in qrs && c - gap <= last <= c;
    }
    CloseKeepsInv(blocks, height, filtered, minWidth, gap, qrs, qrs, start, i);
  }

  /** The invariant after a falling edge, given what the closing step did. */
  lemma CloseKeepsInv(blocks: seq<real>, height: real, filtered: seq<real>, minWidth: int, gap: int,
                      qrs: seq<int>, next: seq<int>, start: int, i: int)
    requires |filtered| == |blocks| && 1 <= i < |blocks|
    requires blocks[i] == 0.0 && Run(blocks, height, start, i)
    requires ScanInv(blocks, height, filtered, minWidth, gap, qrs, true, start, i)
    requires StrictlyIncreasing(next) && GapsExceed(next, gap as real)
    requires forall k :: 0 <= k < |next| ==> next[k] < i
    requires FromBlocks(blocks, height, filtered, minWidth, next)
    requires forall d :: d in qrs ==> d in next
    requires i - 1 - start > minWidth ==> Covers(next, Candidate(filtered, start, i - 1), gap)
    ensures ScanInv(blocks, height, filtered, minWidth, gap, next, true, start, i + 1)
  {
    CoveredClose(blocks, height, filtered, minWidth, gap, qrs, next, start, i);
  }

  lemma OrderedAppend(qrs: seq<int>, c: int, gap: int)
    requires StrictlyIncreasing(qrs) && GapsExceed(qrs, gap as real) && gap >= 0
    requires |qrs| > 0 ==> c - qrs[|qrs| - 1] > gap
    ensures StrictlyIncreasing(qrs + [c]) && GapsExceed(qrs + [c], gap as real)
  {
    var next := qrs + [c];
    forall j, k | 0 <= j < k < |next|
      ensures next[j] < next[k]
    {
      if k == |qrs| {
        assert next[j] == qrs[j];
      }
    }
  }

  lemma FromBlocksAppend(blocks: seq<real>, height: real, filtered: seq<real>, minWidth: int,
                         qrs: seq<int>, s: int, e: int)
    requires |filtered| == |blocks| && FromBlocks(blocks, height, filtered, minWidth, qrs)
    requires IsBlock(blocks, height, s, e) && e - s > minWidth
    ensures FromBlocks(blocks, height, filtered, minWidth, qrs + [Candidate(filtered, s, e)])
  {
    var next := qrs + [Candidate(filtered, s, e)];
    forall k | 0 <= k < |next|
      ensures FromBlock(blocks, height, filtered, minWidth, next[k])
    {
      if k < |qrs| {
        assert next[k] == qrs[k];
      }
    }
  }

  /** Closing the run `[start, i)` covers it, and the blocks covered before
      stay covered. */
  lemma CoveredClose(blocks: seq<real>, height: real, filtered: seq<real>, minWidth: int, gap: int,
                     qrs: seq<int>, next: seq<int>, start: int, i: int)
    requires |filtered| == |blocks| && 1 <= i < |blocks|
    requires BlocksCovered(blocks, height, filtered, minWidth, gap, qrs, i)
    requires forall d :: d in qrs ==> d in next
    requires Run(blocks, height, start, i) && blocks[i] == 0.0
    requires i - 1 - start > minWidth ==> Covers(next, Candidate(filtered, start, i - 1), gap)
    ensures BlocksCovered(blocks, height, filtered, minWidth, gap, next, i + 1)
  {
    forall s, e | IsBlock(blocks, height, s, e) && e + 1 < i + 1 && e - s > minWidth
      ensures Covers(next, Candidate(filtered, s, e), gap)
    {
      if e + 1 < i {
        var d :| d in qrs && Candidate(filtered, s, e) - gap <= d <= Candidate(filtered, s, e);
        assert d in next;
      } else {
        BlockUnique(blocks, height, s, start, e);
      }
    }
  }

  /** Without a falling edge at `i`, no block ends at `i - 1`. */
  lemma CoveredNoEdge(blocks: seq<real>, height: real, filtered: seq<real>, minWidth: int, gap: int,
                      qrs: seq<int>, i: int)
    requires |filtered| == |blocks| && 1 <= i < |blocks|
    requires BlocksCovered(blocks, height, filtered, minWidth, gap, qrs, i)
    requires !(blocks[i - 1] == height && blocks[i] == 0.0 && height != 0.0)
    ensures BlocksCovered(blocks, height, filtered, minWidth, gap, qrs, i + 1)
  {
  }

  /** The second loop of the detector. Rising edges record `start`;
      falling edges close a block. A falling edge before any rising edge
      reads `start` unbound, which needs `blocks[0]` to be non-zero. With
      `block_height == 0` every sample takes the rising-edge branch and
      nothing is detected. Otherwise the detections are increasing, more
      than `gap` apart, each is the candidate of a block wider than
      `minWidth`, and every such block has a detection at its candidate or
      at most `gap` samples before it. */
  method BlockScan(blocks: seq<real>, height: real, filtered: seq<real>, minWidth: int, gap: int)
    returns (r: Result<seq<int>>)
    requires |filtered| == |blocks| && gap >= 0
    requires forall k :: 0 <= k < |blocks| ==> blocks[k] == 0.0 || blocks[k] == height
    ensures r.Err? ==> r.error == UnboundLocalError && height != 0.0 && |blocks| > 0 && blocks[0] == height
    ensures (|blocks| == 0 || blocks[0] == 0.0) ==> r.Ok?
    ensures height == 0.0 ==> r == Ok([])
    ensures r.Ok? ==> StrictlyIncreasing(r.value) && GapsExceed(r.value, gap as real)
    ensures r.Ok? ==> FromBlocks(blocks, height, filtered, minWidth, r.value)
    ensures r.Ok? ==> BlocksCovered(blocks, height, filtered, minWidth, gap, r.value, |blocks|)
  {
    if |blocks| == 0 {
      return Ok([]);
    }
    var qrs: seq<int> := [];
    var started := false;
    var start := 0;
    var i := 1;
    while i < |blocks|
      invariant 1 <= i <= |blocks|
      invariant ScanInv(blocks, height, filtered, minWidth, gap, qrs, started, start, i)
      invariant height == 0.0 ==> qrs == []
    {
      if !started && blocks[i - 1] == height && blocks[i] == 0.0 && height != 0.0 {
        return Err(UnboundLocalError);
      }
      qrs, started, start := ScanStep(blocks, height, filtered, minWidth, gap, qrs, started, start, i);
      i := i + 1;
    }
    return Ok(qrs);
  }

  /** One position of the block scan. */
  method ScanStep(blocks: seq<real>, height: real, filtered: seq<real>, minWidth: int, gap: int,
                  qrs: seq<int>, started: bool, start: int, i: int)
    returns (qrs': seq<int>, started': bool, start': int)
    requires |filtered| == |blocks| && 1 <= i < |blocks| && gap >= 0
    requires forall k :: 0 <= k < |blocks| ==> blocks[k] == 0.0 || blocks[k] == height
    requires ScanInv(blocks, height, filtered, minWidth, gap, qrs, started, start, i)
    requires started || !(blocks[i - 1] == height && blocks[i] == 0.0 && height != 0.0)
    requires height == 0.0 ==> qrs == []
    ensures ScanInv(blocks, height, filtered, minWidth, gap, qrs', started', start', i + 1)
    ensures height == 0.0 ==> qrs' == []
  {
    qrs', started', start' := qrs, started, start;
    if blocks[i - 1] == 0.0 && blocks[i] == height {
      start', started' := i, true;
      CoveredNoEdge(blocks, height, filtered, minWidth, gap, qrs, i);
      assert ScanInv(blocks, height, filtered, minWidth, gap, qrs', started', start', i + 1);
    } else if blocks[i - 1] == height && blocks[i] == 0.0 {
      qrs' := CloseBlock(blocks, height, filtered, minWidth, gap, qrs, start, i);
    } else {
      CoveredNoEdge(blocks, height, filtered, minWidth, gap, qrs, i);
      assert ScanInv(blocks, height, filtered, minWidth, gap, qrs', started', start', i + 1);
    }
  }

  /** `two_average_detector` after its band-pass filter. Both averages of
      the rectified signal start at `|filtered[0]|`, so `blocks[0]` is 0 and
      `start` is always bound before it is read. The failures left are an
      unknown averaging method and, except for `MWA_original`, a 600 ms
      window too wide for the signal. On an empty signal the 600 ms window
      (at least 5 samples) makes the second average raise `IndexError`,
      unless the first one already raised `ValueError` (`MWA_convolve` with
      a one-sample window); so `np.max` never sees an empty signal. */
  method TwoAverageDetector(filtered: seq<real>, fs: real, mwaName: string) returns (r: Result<seq<int>>)
    requires 0.12 * fs >= 1.0
    ensures MwaFromName(mwaName).Err? ==> r == Err(RuntimeError)
    ensures r.Err? ==> r.error != UnboundLocalError
    ensures MwaFromName(mwaName).Ok? && |filtered| > 0 ==>
              (r.Err? <==> MwaFromName(mwaName) != Ok(Original) && Int(0.6 * fs) >= |filtered| + 2)
    ensures |filtered| > 0 && r.Err? && MwaFromName(mwaName).Ok? ==> r.error == IndexError
    ensures MwaFromName(mwaName).Ok? && |filtered| == 0 ==>
              r == if MwaFromName(mwaName) == Ok(Convolve) && Int(0.12 * fs) == 1 then Err(ValueError)
                   else Err(IndexError)
    ensures r.Ok? ==> StrictlyIncreasing(r.value) && GapsExceed(r.value, Int(0.3 * fs) as real)
    ensures r.Ok? && |filtered| > 0 ==>
              var blocks := BlockLevels(MwaSpec(Abs(filtered), Int(0.12 * fs)), MwaSpec(Abs(filtered), Int(0.6 * fs)),
                                        Max(filtered));
              && FromBlocks(blocks, Max(filtered), filtered, Int(0.08 * fs), r.value)
              && BlocksCovered(blocks, Max(filtered), filtered, Int(0.08 * fs), Int(0.3 * fs), r.value, |blocks|)
  {
    var method_ := MwaFromName(mwaName);
    if method_.Err? {
      return Err(method_.error);
    }
    var rectified := Abs(filtered);
    IntMonotone(0.12 * fs, 0.6 * fs);
    IntMonotone(5.0, 0.6 * fs);
    var fast := ApplyMwa(method_.value, rectified, Int(0.12 * fs));
    if fast.Err? {
      return Err(fast.error);
    }
    var slow := ApplyMwa(method_.value, rectified, Int(0.6 * fs));
    if slow.Err? {
      return Err(slow.error);
    }
    var height := Max(filtered);
    MwaFirst(rectified, Int(0.12 * fs));
    MwaFirst(rectified, Int(0.6 * fs));
    var blocks := FillBlocks(fast.value, slow.value, height);
    IntMonotone(0.0, 0.3 * fs);
    r := BlockScan(blocks[..], height, filtered, Int(0.08 * fs), Int(0.3 * fs));
  }
}
