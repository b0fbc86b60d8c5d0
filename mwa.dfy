/** The moving-window-average (MWA) engine: three interchangeable
    implementations of a trailing mean and the name-based selector that picks
    one of them (ecgdetectors.py, MWA_from_name .. MWA_convolve). */
module MovingAverage {
  import opened Common

  /** First index of the trailing window of width `w` that ends at `k`. */
  function WindowStart(w: nat, k: nat): nat
  {
    if k + 1 >= w then k + 1 - w else 0
  }

  /** Sum over the trailing window that ends at `k`. */
  function WindowSum(x: seq<real>, w: nat, k: nat): real
    requires k < |x|
  {
    Sum(x[WindowStart(w, k)..k + 1])
  }

  /** Number of samples in the trailing window that ends at `k`. */
  function WindowLen(w: nat, k: nat): (n: nat)
    requires w >= 1
    ensures 1 <= n <= w && n <= k + 1
  {
    k + 1 - WindowStart(w, k)
  }

  /** Entry `k` of the MWA: the mean of `x[max(0, k-w+1) .. k]`. */
  function MwaAt(x: seq<real>, w: nat, k: nat): real
    requires w >= 1 && k < |x|
  {
    WindowSum(x, w, k) / WindowLen(w, k) as real
  }

  /** The MWA that all three implementations compute: the first `w-1`
      entries average only the available prefix, never zero padding. */
  function MwaSpec(x: seq<real>, w: nat): (r: seq<real>)
    requires w >= 1
    ensures |r| == |x|
    ensures forall k :: 0 <= k < |x| ==> r[k] == MwaAt(x, w, k)
  {
    seq(|x|, k requires 0 <= k < |x| => MwaAt(x, w, k))
  }

  /** With a window of one sample the average is the input itself. */
  lemma MwaIdentity(x: seq<real>)
    ensures MwaSpec(x, 1) == x
  {
    forall k | 0 <= k < |x|
      ensures MwaSpec(x, 1)[k] == x[k]
    {
      assert x[k..k + 1] == [x[k]];
      assert Sum([x[k]]) == Sum([]) + x[k];
    }
  }

  /** Entry 0 is the first sample, whatever the window. */
  lemma MwaFirst(x: seq<real>, w: nat)
    requires w >= 1 && |x| > 0
    ensures MwaSpec(x, w)[0] == x[0]
  {
    assert x[0..1] == [x[0]];
    assert Sum([x[0]]) == Sum([]) + x[0];
  }

  /** Every average lies between the smallest and the largest sample. */
  lemma MwaBounds(x: seq<real>, w: nat, k: nat)
    requires w >= 1 && k < |x|
    ensures Min(x) <= MwaSpec(x, w)[k] <= Max(x)
  {
    MwaAtWithin(x, w, k, Min(x), Max(x));
  }

  lemma MwaAtWithin(x: seq<real>, w: nat, k: nat, lo: real, hi: real)
    requires w >= 1 && k < |x|
    requires forall j :: 0 <= j < |x| ==> lo <= x[j] <= hi
    ensures lo <= MwaAt(x, w, k) <= hi
  {
    var win := x[WindowStart(w, k)..k + 1];
    SliceWithin(x, WindowStart(w, k), k + 1, lo, hi);
    MeanBetween(win, lo, hi);
  }

  lemma SliceWithin(x: seq<real>, a: nat, b: nat, lo: real, hi: real)
    requires a <= b <= |x|
    requires forall j :: 0 <= j < |x| ==> lo <= x[j] <= hi
    ensures forall j :: 0 <= j < b - a ==> lo <= x[a..b][j] <= hi
  {
    assert forall j :: 0 <= j < b - a ==> x[a..b][j] == x[a + j];
  }

  /** The full-window sums ending at `k` and `k - 1` differ by the sample
      that enters minus the sample that leaves. */
  lemma WindowSumSlide(x: seq<real>, w: nat, k: nat)
    requires w >= 1 && w <= k < |x|
    ensures WindowSum(x, w, k) - WindowSum(x, w, k - 1) == x[k] - x[k - w]
  {
    SumSlice(x, k + 1 - w, k + 1);
    SumSlice(x, k - w, k);
    assert x[..k + 1] == x[..k] + [x[k]];
    SumConcat(x[..k], [x[k]]);
    assert Sum([x[k]]) == Sum([]) + x[k];
    assert x[..k + 1 - w] == x[..k - w] + [x[k - w]];
    SumConcat(x[..k - w], [x[k - w]]);
    assert Sum([x[k - w]]) == Sum([]) + x[k - w];
  }

  /** Once the window is full, consecutive averages differ by the sample
      that enters minus the sample that leaves, divided by the width. */
  lemma MwaSlide(x: seq<real>, w: nat, k: nat)
    requires w >= 1 && w <= k < |x|
    ensures (MwaSpec(x, w)[k] - MwaSpec(x, w)[k - 1]) * w as real == x[k] - x[k - w]
  {
    WindowSumSlide(x, w, k);
    assert WindowLen(w, k) == w && WindowLen(w, k - 1) == w;
    DivDifference(WindowSum(x, w, k), WindowSum(x, w, k - 1), w as real);
  }

  lemma DivDifference(a: real, b: real, d: real)
    requires d != 0.0
    ensures (a / d - b / d) * d == a - b
  {
  }

  /** `np.cumsum`: entry `k` is the sum of `x[0..k]`. */
  method CumSum(x: seq<real>) returns (ret: array<real>)
    ensures fresh(ret) && ret.Length == |x|
    ensures forall k :: 0 <= k < |x| ==> ret[k] == Sum(x[..k + 1])
  {
    ret := new real[|x|];
    var acc := 0.0;
    var i := 0;
    while i < |x|
      invariant 0 <= i <= |x|
      invariant acc == Sum(x[..i])
      invariant forall k :: 0 <= k < i ==> ret[k] == Sum(x[..k + 1])
    {
      assert x[..i + 1][..i] == x[..i];
      acc := acc + x[i];
      ret[i] := acc;
      i := i + 1;
    }
  }

  /** The division step shared by `MWA_cumulative` and `MWA_convolve`:
      `ret[i-1] /= i` for `1 <= i < w`, then `ret[w-1:] /= w`. It fails with
      IndexError, after dividing what it could, when `w >= len(ret) + 2`. */
  method DivideByWindowLength(ret: array<real>, w: nat) returns (ok: bool)
    requires w >= 1
    modifies ret
    ensures ok <==> w <= ret.Length + 1
    ensures ok ==> forall k :: 0 <= k < ret.Length ==> ret[k] == old(ret[k]) / WindowLen(w, k) as real
  {
    var i := 1;
    while i < w
      invariant 1 <= i <= w
      invariant i - 1 <= ret.Length
      invariant forall k :: 0 <= k < ret.Length ==> ret[k] == if k < i - 1 then old(ret[k]) / WindowLen(w, k) as real else old(ret[k])
    {
      if i - 1 >= ret.Length {
        return false;
      }
      ret[i - 1] := ret[i - 1] / i as real;
      i := i + 1;
    }
    i := w - 1;
    while i < ret.Length
      invariant w - 1 <= i
      invariant forall k :: 0 <= k < ret.Length ==> ret[k] == if k < i then old(ret[k]) / WindowLen(w, k) as real else old(ret[k])
    {
      ret[i] := ret[i] / w as real;
      i := i + 1;
    }
    return true;
  }

  /** `MWA_cumulative`: prefix sums, windowed differences, then division by
      the window length. */
  method MwaCumulative(x: seq<real>, w: nat) returns (r: Result<seq<real>>)
    requires w >= 1
    ensures w >= |x| + 2 ==> r == Err(IndexError)
    ensures w <= |x| + 1 ==> r == Ok(MwaSpec(x, w))
  {
    var n := |x|;
    var ret := CumSum(x);
    // ret[w:] = ret[w:] - ret[:-w], the right-hand side read before any write
    var prev := ret[..];
    var i := w;
    while i < n
      invariant w <= i
      invariant forall k :: 0 <= k < n && (k < w || k < i) ==> ret[k] == WindowSum(x, w, k)
      invariant forall k :: i <= k < n ==> ret[k] == prev[k]
    {
      SumSlice(x, i + 1 - w, i + 1);
      ret[i] := prev[i] - prev[i - w];
      i := i + 1;
    }
    var ok := DivideByWindowLength(ret, w);
    if !ok {
      return Err(IndexError);
    }
    assert ret[..] == MwaSpec(x, w);
    return Ok(ret[..]);
  }

  /** `MWA_original`: re-averages the window at every index; the first
      entry is copied, so an empty input fails on `mwa[0]`. */
  method MwaOriginal(x: seq<real>, w: nat) returns (r: Result<seq<real>>)
    requires w >= 1
    ensures |x| == 0 ==> r == Err(IndexError)
    ensures |x| > 0 ==> r == Ok(MwaSpec(x, w))
  {
    var n := |x|;
    var mwa := new real[n];
    if n == 0 {
      return Err(IndexError);
    }
    mwa[0] := x[0];
    assert x[0..1] == [x[0]];
    assert Sum([x[0]]) == Sum([]) + x[0];
    assert mwa[0] == MwaAt(x, w, 0);
    var i := 2;
    while i <= n
      invariant 2 <= i <= n + 1
      invariant forall k :: 0 <= k < i - 1 ==> mwa[k] == MwaAt(x, w, k)
    {
      var section := if i < w then x[0..i] else x[i - w..i];
      assert section == x[WindowStart(w, i - 1)..i];
      mwa[i - 1] := Mean(section);
      i := i + 1;
    }
    assert mwa[..] == MwaSpec(x, w);
    return Ok(mwa[..]);
  }

  function Zeros(n: nat): (z: seq<real>)
    ensures |z| == n && forall k :: 0 <= k < n ==> z[k] == 0.0
  {
    seq(n, _ => 0.0)
  }

  /** The window of the zero-padded signal that the convolution sums at
      output `j` holds the same non-zero samples as the trailing window. */
  lemma PaddedWindowSum(x: seq<real>, w: nat, j: nat)
    requires w >= 1 && j < |x|
    ensures Sum((Zeros(w - 1) + x)[j..j + w]) == WindowSum(x, w, j)
  {
    var p := Zeros(w - 1) + x;
    var s := WindowStart(w, j);
    var z := Zeros(w - 1 - (j - s));
    assert p[j..j + w] == z + x[s..j + 1];
    SumConcat(z, x[s..j + 1]);
    SumZeros(z);
  }

  /** `MWA_convolve`: zero-pad on the left by `w-1`, convolve with `w` ones
      in numpy's 'valid' mode, then divide as `MWA_cumulative` does. numpy
      rejects an empty operand, and when the padded input is shorter than
      the kernel the 'valid' output has `w - len + 1` entries. */
  method MwaConvolve(x: seq<real>, w: nat) returns (r: Result<seq<real>>)
    requires w >= 1
    ensures |x| == 0 ==> r == (if w == 1 then Err(ValueError) else if w >= 4 then Err(IndexError) else Ok([0.0, 0.0]))
    ensures |x| > 0 && w >= |x| + 2 ==> r == Err(IndexError)
    ensures |x| > 0 && w <= |x| + 1 ==> r == Ok(MwaSpec(x, w))
  {
    var n := |x|;
    var padded := Zeros(w - 1) + x;
    var len := |padded|;
    if len == 0 {
      return Err(ValueError);
    }
    var ret := ConvolveOnes(padded, w);
    var ok := DivideByWindowLength(ret, w);
    if !ok {
      return Err(IndexError);
    }
    if n == 0 {
      SumZeros(padded);
      assert ret[..] == [0.0, 0.0];
    } else {
      forall k | 0 <= k < n
        ensures ret[k] == MwaAt(x, w, k)
      {
        PaddedWindowSum(x, w, k);
      }
      assert ret[..] == MwaSpec(x, w);
    }
    return Ok(ret[..]);
  }

  /** The inner product of `p[lo..lo+width]` with a kernel of ones. */
  method SumRange(p: seq<real>, lo: nat, width: nat) returns (acc: real)
    requires lo + width <= |p|
    ensures acc == Sum(p[lo..lo + width])
  {
    acc := 0.0;
    var t := 0;
    while t < width
      invariant 0 <= t <= width
      invariant acc == Sum(p[lo..lo + t])
    {
      assert p[lo..lo + t + 1] == p[lo..lo + t] + [p[lo + t]];
      SumConcat(p[lo..lo + t], [p[lo + t]]);
      assert Sum([p[lo + t]]) == Sum([]) + p[lo + t];
      acc := acc + p[lo + t];
      t := t + 1;
    }
  }

  /** `np.convolve(p, np.ones(w), 'valid')` for a non-empty `p`: every output
      sums the part of `p` that the kernel of ones overlaps. */
  method ConvolveOnes(p: seq<real>, w: nat) returns (ret: array<real>)
    requires w >= 1 && |p| >= 1
    ensures fresh(ret)
    ensures ret.Length == if |p| >= w then |p| - w + 1 else w - |p| + 1
    ensures |p| >= w ==> forall k :: 0 <= k < ret.Length ==> ret[k] == Sum(p[k..k + w])
    ensures |p| < w ==> forall k :: 0 <= k < ret.Length ==> ret[k] == Sum(p)
  {
    var len := |p|;
    var m := if len >= w then len - w + 1 else w - len + 1;
    ret := new real[m];
    var j := 0;
    while j < m
      invariant 0 <= j <= m
      invariant len >= w ==> forall k :: 0 <= k < j ==> ret[k] == Sum(p[k..k + w])
      invariant len < w ==> forall k :: 0 <= k < j ==> ret[k] == Sum(p)
    {
      var lo, width := if len >= w then j else 0, if len >= w then w else len;
      var acc := SumRange(p, lo, width);
      assert len < w ==> p[lo..lo + width] == p;
      ret[j] := acc;
      j := j + 1;
    }
  }

  /** The three method names `MWA_from_name` accepts. */
  datatype MwaMethod = Cumulative | Convolve | Original

  function MwaName(m: MwaMethod): string
  {
    match m
    case Cumulative => "cumulative"
    case Convolve => "convolve"
    case Original => "original"
  }

  /** `MWA_from_name`: an unknown name raises RuntimeError. */
  function MwaFromName(name: string): (r: Result<MwaMethod>)
    ensures r.Ok? <==> name == "cumulative" || name == "convolve" || name == "original"
    ensures r.Err? ==> r.error == RuntimeError
  {
    if name == "cumulative" then Ok(Cumulative)
    else if name == "convolve" then Ok(Convolve)
    else if name == "original" then Ok(Original)
    else Err(RuntimeError)
  }

  /** Name lookup and naming are inverse to each other. */
  lemma MwaNameRoundTrip(m: MwaMethod, name: string)
    ensures MwaFromName(MwaName(m)) == Ok(m)
    ensures MwaFromName(name) == Ok(m) ==> name == MwaName(m)
  {
    assert "cumulative" != "convolve" && "cumulative" != "original" && "convolve" != "original";
  }

  /** What each implementation makes of an empty input: the original loop
      reads `x[0]`; the cumulative one has nothing to divide when `w == 1`
      and divides past the end otherwise; the convolving one convolves an
      empty padded signal when `w == 1`, and otherwise divides the first
      `w - 1` entries of a 'valid' convolution that has only 2, which fails
      from `w == 4`. */
  function MwaOfEmpty(m: MwaMethod, w: nat): Result<seq<real>>
  {
    match m
    case Original => Err(IndexError)
    case Cumulative => if w == 1 then Ok([]) else Err(IndexError)
    case Convolve => if w == 1 then Err(ValueError) else if w >= 4 then Err(IndexError) else Ok([0.0, 0.0])
  }

  /** Calls the selected implementation. All three agree with `MwaSpec`
      whenever `1 <= w <= len(x) + 1` and the input is non-empty. */
  method ApplyMwa(m: MwaMethod, x: seq<real>, w: nat) returns (r: Result<seq<real>>)
    requires w >= 1
    ensures |x| > 0 && w <= |x| + 1 ==> r == Ok(MwaSpec(x, w))
    ensures |x| > 0 && r.Ok? ==> r.value == MwaSpec(x, w)
    ensures |x| > 0 && r.Err? ==> r.error == IndexError && w >= |x| + 2
    ensures r.Err? ==> r.error == IndexError || r.error == ValueError
    ensures |x| == 0 ==> r == MwaOfEmpty(m, w)
    ensures |x| > 0 && w >= |x| + 2 ==> (r.Err? <==> m != Original)
  {
    match m
    case Cumulative => r := MwaCumulative(x, w);
    case Convolve => r := MwaConvolve(x, w);
    case Original => r := MwaOriginal(x, w);
  }
}
