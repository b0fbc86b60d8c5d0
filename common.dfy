/** Shared vocabulary for the detectors: Python's error outcomes, integer
    truncation, sums, means, extrema, first arg-max, Python slicing and the
    bounded history lists that the detectors trim with `pop(0)`. */
module Common {

  /** The Python exceptions the modelled code can raise. */
  datatype Error =
    | IndexError          // list/array index out of range, or `pop` on an empty list
    | ValueError          // numpy reduction over an empty array, shape mismatch
    | RuntimeError        // an unknown moving-average method name
    | TypeError           // a non-integral array size passed to numpy
    | UnboundLocalError   // a local variable read before any assignment

  datatype Result<T> = Ok(value: T) | Err(error: Error)

  /** Python's `int(x)` on a float: truncation toward zero. */
  function Int(x: real): (r: int)
    ensures 0.0 <= x ==> 0 <= r && r as real <= x < r as real + 1.0
    ensures x < 0.0 ==> r <= 0 && r as real - 1.0 < x <= r as real
  {
    if x >= 0.0 then x.Floor else -((-x).Floor)
  }

  /** `int(a) + int(b) <= int(a + b)` for non-negative reals. */
  lemma IntSuperAdditive(a: real, b: real)
    requires 0.0 <= a && 0.0 <= b
    ensures Int(a) + Int(b) <= Int(a + b)
  {
  }

  /** `int` is monotone. */
  lemma IntMonotone(a: real, b: real)
    requires 0.0 <= a <= b
    ensures Int(a) <= Int(b)
  {
  }

  /** Sum of a sequence, accumulated from the left as `np.cumsum` and `np.sum` do. */
  function Sum(s: seq<real>): real
  {
    if |s| == 0 then 0.0 else Sum(s[..|s| - 1]) + s[|s| - 1]
  }

  lemma {:induction false} SumConcat(a: seq<real>, b: seq<real>)
    ensures Sum(a + b) == Sum(a) + Sum(b)
  {
    if |b| == 0 {
      assert a + b == a;
    } else {
      assert (a + b)[..|a + b| - 1] == a + b[..|b| - 1];
      SumConcat(a, b[..|b| - 1]);
    }
  }

  /** The sum of a slice is a difference of two prefix sums. */
  lemma SumSlice(s: seq<real>, i: nat, j: nat)
    requires i <= j <= |s|
    ensures Sum(s[i..j]) == Sum(s[..j]) - Sum(s[..i])
  {
    assert s[..j] == s[..i] + s[i..j];
    SumConcat(s[..i], s[i..j]);
  }

  lemma {:induction false} SumZeros(s: seq<real>)
    requires forall k :: 0 <= k < |s| ==> s[k] == 0.0
    ensures Sum(s) == 0.0
  {
    if |s| > 0 {
      SumZeros(s[..|s| - 1]);
    }
  }

  /** `np.mean` of a non-empty sequence. */
  function Mean(s: seq<real>): real
    requires |s| > 0
  {
    Sum(s) / |s| as real
  }

  /** `int(np.mean(s))` of a list of integers. */
  function IntMean(s: seq<int>): int
    requires |s| > 0
  {
    Int(Mean(seq(|s|, k requires 0 <= k < |s| => s[k] as real)))
  }

  /** `np.max` of a non-empty sequence. */
  function Max(s: seq<real>): (m: real)
    requires |s| > 0
    ensures m in s
    ensures forall k :: 0 <= k < |s| ==> s[k] <= m
  {
    if |s| == 1 then s[0]
    else
      var m' := Max(s[..|s| - 1]);
      assert forall k :: 0 <= k < |s| - 1 ==> s[k] == s[..|s| - 1][k];
      if s[|s| - 1] > m' then s[|s| - 1] else m'
  }

  /** The largest element of a slice is at most the largest element of the whole. */
  lemma MaxOfSlice(s: seq<real>, lo: int, hi: int)
    requires 0 <= lo < hi <= |s|
    ensures Max(s[lo..hi]) <= Max(s)
  {
    var m := Max(s[lo..hi]);
    var k :| 0 <= k < hi - lo && s[lo..hi][k] == m;
    assert s[lo + k] == m;
  }

  /** `np.min` of a non-empty sequence. */
  function Min(s: seq<real>): (m: real)
    requires |s| > 0
    ensures m in s
    ensures forall k :: 0 <= k < |s| ==> m <= s[k]
  {
    if |s| == 1 then s[0]
    else
      var m' := Min(s[..|s| - 1]);
      assert forall k :: 0 <= k < |s| - 1 ==> s[k] == s[..|s| - 1][k];
      if s[|s| - 1] < m' then s[|s| - 1] else m'
  }

  /** `np.argmax`: the FIRST position of the largest element. */
  function FirstArgmax(s: seq<real>): (k: nat)
    requires |s| > 0
    ensures k < |s|
    ensures forall j :: 0 <= j < |s| ==> s[j] <= s[k]
    ensures forall j :: 0 <= j < k ==> s[j] < s[k]
  {
    if |s| == 1 then 0
    else
      var k' := FirstArgmax(s[..|s| - 1]);
      assert forall j :: 0 <= j < |s| - 1 ==> s[j] == s[..|s| - 1][j];
      if s[|s| - 1] > s[k'] then |s| - 1 else k'
  }

  /** A mean lies between the smallest and the largest element. */
  lemma {:induction false} MeanBetween(s: seq<real>, lo: real, hi: real)
    requires |s| > 0
    requires forall k :: 0 <= k < |s| ==> lo <= s[k] <= hi
    ensures lo <= Mean(s) <= hi
  {
    SumBounds(s, lo, hi);
  }

  lemma {:induction false} SumBounds(s: seq<real>, lo: real, hi: real)
    requires forall k :: 0 <= k < |s| ==> lo <= s[k] <= hi
    ensures |s| as real * lo <= Sum(s) <= |s| as real * hi
  {
    if |s| > 0 {
      SumBounds(s[..|s| - 1], lo, hi);
    }
  }

  /** Python's `s[a:b]` for arbitrary integers: negative bounds count from
      the end, and both bounds are clamped to the sequence. */
  function PySlice<T>(s: seq<T>, a: int, b: int): (r: seq<T>)
    ensures |r| <= |s|
    ensures 0 <= a <= b <= |s| ==> r == s[a..b]
    ensures 0 <= a && 0 <= b ==> |r| <= if b - a < 0 then 0 else b - a
    ensures 0 <= a && |r| > 0 ==> a < |s|
    ensures forall k :: 0 <= k < |r| ==> r[k] in s
  {
    var lo := if a < 0 then (if a + |s| < 0 then 0 else a + |s|) else (if a > |s| then |s| else a);
    var hi := if b < 0 then (if b + |s| < 0 then 0 else b + |s|) else (if b > |s| then |s| else b);
    if lo >= hi then [] else s[lo..hi]
  }

  /** A slice that ends inside the sequence is no wider than its bounds,
      even when a negative start counts from the end. */
  lemma PySliceWidth<T>(s: seq<T>, a: int, b: int)
    requires 0 <= b <= |s|
    ensures |PySlice(s, a, b)| <= if b - a < 0 then 0 else b - a
  {
  }

  /** Python's `s[k]` for `-len(s) <= k < len(s)`: a negative index counts from the end. */
  function PyIndex<T>(s: seq<T>, k: int): (x: T)
    requires -|s| <= k < |s|
    ensures 0 <= k ==> x == s[k]
    ensures k < 0 ==> x == s[|s| + k]
  {
    if k < 0 then s[|s| + k] else s[k]
  }

  /** A history list that `append`s and then `pop(0)`s once when it has grown
      beyond `cap` entries: the oldest entry is dropped. */
  function PushBounded<T>(s: seq<T>, x: T, cap: nat): (r: seq<T>)
    requires cap >= 1
    ensures |r| >= 1 && r[|r| - 1] == x
    ensures |s| <= cap ==> |r| <= cap
    ensures |s| < cap ==> r == s + [x]
    ensures |s| >= cap ==> r == (s + [x])[1..]
  {
    var t := s + [x];
    if |t| > cap then t[1..] else t
  }

  /** A strict local maximum: greater than both immediate neighbours. */
  predicate IsPeak(s: seq<real>, i: int)
  {
    0 < i < |s| - 1 && s[i - 1] < s[i] && s[i + 1] < s[i]
  }

  /** Every entry of `s` is a sample number before `i`. */
  predicate AllBefore(s: seq<int>, i: int)
  {
    forall k :: 0 <= k < |s| ==> 0 <= s[k] < i
  }

  predicate StrictlyIncreasing(s: seq<int>)
  {
    forall j, k :: 0 <= j < k < |s| ==> s[j] < s[k]
  }

  predicate Sorted(s: seq<int>)
  {
    forall j, k :: 0 <= j < k < |s| ==> s[j] <= s[k]
  }

  /** Consecutive entries are more than `gap` apart. */
  predicate GapsExceed(s: seq<int>, gap: real)
  {
    forall k :: 0 < k < |s| ==> (s[k] - s[k - 1]) as real > gap
  }

  /** Appending an entry no smaller than the last keeps a list sorted. */
  lemma SortedAppend(s: seq<int>, x: int)
    requires Sorted(s) && (|s| == 0 || s[|s| - 1] <= x)
    ensures Sorted(s + [x])
  {
    var t := s + [x];
    forall j, k | 0 <= j < k < |t|
      ensures t[j] <= t[k]
    {
      if k < |s| {
        assert t[j] == s[j] && t[k] == s[k];
      } else if j < |s| {
        assert t[j] == s[j] <= s[|s| - 1];
      }
    }
  }

  /** Where `x` goes in the sorted list `s`: after every entry `<= x`. */
  function InsertPos(s: seq<int>, x: int): (p: nat)
    requires Sorted(s)
    ensures p <= |s|
    ensures forall k :: 0 <= k < p ==> s[k] <= x
    ensures forall k :: p <= k < |s| ==> x < s[k]
  {
    if |s| == 0 || s[|s| - 1] <= x then |s| else InsertPos(s[..|s| - 1], x)
  }

  /** `s.append(x); s.sort()` on an already sorted list. */
  function InsertSorted(s: seq<int>, x: int): (r: seq<int>)
    requires Sorted(s)
    ensures Sorted(r)
    ensures multiset(r) == multiset(s) + multiset{x}
    ensures |r| == |s| + 1
  {
    var p := InsertPos(s, x);
    assert s == s[..p] + s[p..];
    s[..p] + [x] + s[p..]
  }
}
