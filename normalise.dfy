/** `normalise` (ecgdetectors.py): affine rescaling of a signal onto [0, 1]. */
module Normalisation {
  import opened Common

  /** What numpy returns: scaled values, or an array of NaN when the signal
      is constant and the division is 0/0. */
  datatype Normalised = Values(v: seq<real>) | NotANumber(len: nat)

  /** `(x - min(x)) / (max(x) - min(x))`; `np.min` of an empty array raises ValueError. */
  function Normalise(x: seq<real>): (r: Result<Normalised>)
    ensures r.Err? <==> |x| == 0
    ensures r.Err? ==> r.error == ValueError
    ensures r.Ok? ==> (r.value.NotANumber? <==> Max(x) == Min(x))
    ensures r.Ok? && r.value.NotANumber? ==> r.value.len == |x|
    ensures r.Ok? && r.value.Values? ==> |r.value.v| == |x|
  {
    if |x| == 0 then Err(ValueError)
    else
      var lo, hi := Min(x), Max(x);
      if hi == lo then Ok(NotANumber(|x|))
      else Ok(Values(Rescaled(x, lo, hi)))
  }

  function Rescaled(x: seq<real>, lo: real, hi: real): (v: seq<real>)
    requires lo < hi
    ensures |v| == |x| && forall k :: 0 <= k < |x| ==> v[k] == (x[k] - lo) / (hi - lo)
  {
    seq(|x|, k requires 0 <= k < |x| => (x[k] - lo) / (hi - lo))
  }

  lemma SelfDivision(d: real)
    requires d > 0.0
    ensures d / d == 1.0 && 0.0 / d == 0.0
  {
  }

  lemma ScaleBounds(a: real, lo: real, hi: real)
    requires lo <= a <= hi && lo < hi
    ensures 0.0 <= (a - lo) / (hi - lo) <= 1.0
  {
    var d := hi - lo;
    var q := (a - lo) / d;
    assert q * d == a - lo;
    if q > 1.0 {
      assert q * d > d;
    }
  }

  lemma ScaleMonotone(a: real, b: real, lo: real, d: real)
    requires d > 0.0
    ensures a <= b <==> (a - lo) / d <= (b - lo) / d
  {
    var q := (b - a) / d;
    assert q * d == b - a;
    assert (b - lo) / d - (a - lo) / d == q;
  }

  /** Every normalised value lies in [0, 1]; the smallest sample maps to 0
      and the largest to 1. */
  lemma NormaliseRange(x: seq<real>)
    requires Normalise(x).Ok? && Normalise(x).value.Values?
    ensures var v := Normalise(x).value.v;
      (forall k :: 0 <= k < |v| ==> 0.0 <= v[k] <= 1.0) && 0.0 in v && 1.0 in v
  {
    var lo, hi := Min(x), Max(x);
    RescaledRange(x, lo, hi, IndexOf(x, lo), IndexOf(x, hi));
  }

  lemma RescaledRange(x: seq<real>, lo: real, hi: real, i: nat, j: nat)
    requires lo < hi && i < |x| && j < |x| && x[i] == lo && x[j] == hi
    requires forall k :: 0 <= k < |x| ==> lo <= x[k] <= hi
    ensures var v := Rescaled(x, lo, hi);
      (forall k :: 0 <= k < |v| ==> 0.0 <= v[k] <= 1.0) && v[i] == 0.0 && v[j] == 1.0
  {
    var v := Rescaled(x, lo, hi);
    forall k | 0 <= k < |v|
      ensures 0.0 <= v[k] <= 1.0
    {
      ScaleBounds(x[k], lo, hi);
    }
    assert v[i] == (lo - lo) / (hi - lo);
    assert v[j] == (hi - lo) / (hi - lo);
    SelfDivision(hi - lo);
  }

  function IndexOf(x: seq<real>, a: real): (i: nat)
    requires a in x
    ensures i < |x| && x[i] == a
  {
    if x[0] == a then 0 else 1 + IndexOf(x[1..], a)
  }

  /** Normalisation keeps the order of the samples, in both directions. */
  lemma NormaliseMonotone(x: seq<real>, j: nat, k: nat)
    requires Normalise(x).Ok? && Normalise(x).value.Values?
    requires j < |x| && k < |x|
    ensures x[j] <= x[k] <==> Normalise(x).value.v[j] <= Normalise(x).value.v[k]
  {
    ScaleMonotone(x[j], x[k], Min(x), Max(x) - Min(x));
  }

  /** Normalising a normalised signal changes nothing. */
  lemma NormaliseIdempotent(x: seq<real>)
    requires Normalise(x).Ok? && Normalise(x).value.Values?
    ensures Normalise(Normalise(x).value.v) == Normalise(x)
  {
    var v := Normalise(x).value.v;
    NormaliseRange(x);
    assert Min(v) == 0.0 by {
      assert forall k :: 0 <= k < |v| ==> Min(v) <= v[k];
    }
    assert Max(v) == 1.0 by {
      assert forall k :: 0 <= k < |v| ==> v[k] <= Max(v);
    }
    assert Normalise(v).value.v == v;
  }
}
