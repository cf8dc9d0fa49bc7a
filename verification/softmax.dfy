/**
 * The in-place, max-shifted softmax of week1_d2/real_kv_cache.cpp and
 * week1_d3/real_attention.cpp (the two `softmax` functions are the same text).
 * `expf` is a parameter: any function that is never negative and positive
 * at 0 — which is all the stability argument needs.
 */
module Softmax {
  import opened Numeric

  /** What the softmax needs of `expf`. */
  ghost predicate ExpLike(exp: real -> real)
  {
    (forall t :: exp(t) >= 0.0) && exp(0.0) > 0.0
  }

  /** The value of `max_val` after the scan `max_val = x[0]; max_val = max(max_val, x[i])`. */
  function MaxOf(s: seq<real>): (m: real)
    requires |s| >= 1
    ensures forall k :: 0 <= k < |s| ==> s[k] <= m
    ensures exists k :: 0 <= k < |s| && s[k] == m
  {
    if |s| == 1 then s[0]
    else
      var m' := MaxOf(s[..|s| - 1]);
      assert forall k :: 0 <= k < |s| - 1 ==> s[..|s| - 1][k] == s[k];
      StdMax(m', s[|s| - 1])
  }

  /** `x[i] = expf(x[i] - m)` for every element. */
  function ShiftedBy(s: seq<real>, m: real, exp: real -> real): (e: seq<real>)
    ensures |e| == |s|
  {
    seq(|s|, i requires 0 <= i < |s| => exp(s[i] - m))
  }

  /** The exponentials shifted by the maximum, as `softmax` computes them. */
  function Shifted(s: seq<real>, exp: real -> real): (e: seq<real>)
    requires |s| >= 1
    ensures |e| == |s|
  {
    ShiftedBy(s, MaxOf(s), exp)
  }

  /** The shifted exponentials sum to something positive: the maximum contributes `exp(0)`. */
  lemma ShiftedSumPositive(s: seq<real>, exp: real -> real)
    requires |s| >= 1 && ExpLike(exp)
    ensures Sum(Shifted(s, exp)) > 0.0
  {
    var e := Shifted(s, exp);
    var k :| 0 <= k < |s| && s[k] == MaxOf(s);
    assert e[k] == exp(0.0);
    SumAtLeastTerm(e, k);
  }

  /** Every element divided by the sum of all of them. */
  function Normalised(e: seq<real>): (p: seq<real>)
    requires Sum(e) != 0.0
    ensures |p| == |e|
  {
    seq(|e|, i requires 0 <= i < |e| => e[i] / Sum(e))
  }

  /** The result of `softmax(x, size)` on the values `s`. */
  function SoftmaxOf(s: seq<real>, exp: real -> real): (p: seq<real>)
    requires |s| >= 1 && ExpLike(exp)
    ensures |p| == |s|
  {
    ShiftedSumPositive(s, exp);
    Normalised(Shifted(s, exp))
  }

  lemma FractionInUnit(a: real, b: real)
    requires 0.0 <= a <= b && b > 0.0
    ensures 0.0 <= a / b <= 1.0
  {
    assert a / b * b == a;
  }

  /** The softmax is a probability distribution: every weight lies in [0, 1] and they sum to 1. */
  lemma SoftmaxIsDistribution(s: seq<real>, exp: real -> real)
    requires |s| >= 1 && ExpLike(exp)
    ensures forall i :: 0 <= i < |s| ==> 0.0 <= SoftmaxOf(s, exp)[i] <= 1.0
    ensures Sum(SoftmaxOf(s, exp)) == 1.0
  {
    var e := Shifted(s, exp);
    var p := SoftmaxOf(s, exp);
    ShiftedSumPositive(s, exp);
    var total := Sum(e);
    SumDivided(e, p, total);
    assert Sum(e) / total == 1.0;
    forall i | 0 <= i < |s|
      ensures 0.0 <= p[i] <= 1.0
    {
      SumAtLeastTerm(e, i);
      FractionInUnit(e[i], total);
    }
  }

  /** The first loop of `softmax`: `max_val` ends as the largest of `x[0..size)`. */
  method MaxScan(x: array<real>, size: nat) returns (maxVal: real)
    requires 1 <= size <= x.Length
    ensures maxVal == MaxOf(x[..size])
    ensures forall k :: 0 <= k < size ==> x[k] <= maxVal
  {
    maxVal := x[0];
    for i := 1 to size
      invariant maxVal == MaxOf(x[..i])
    {
      assert x[..i + 1][..i] == x[..i];
      maxVal := StdMax(maxVal, x[i]);
    }
  }

  /**
   * The second loop of `softmax`: `x[i] = expf(x[i] - max_val)` and
   * `sum += x[i]` for every `i < size`.
   */
  method ExpShiftInPlace(x: array<real>, size: nat, maxVal: real, exp: real -> real) returns (sum: real)
    requires size <= x.Length
    modifies x
    ensures x[..size] == ShiftedBy(old(x[..size]), maxVal, exp)
    ensures x[size..] == old(x[size..])
    ensures sum == Sum(x[..size])
  {
    ghost var e := ShiftedBy(x[..size], maxVal, exp);
    sum := 0.0;
    for i := 0 to size
      invariant forall k :: 0 <= k < i ==> x[k] == e[k]
      invariant forall k :: i <= k < x.Length ==> x[k] == old(x[k])
      invariant sum == Sum(e[..i])
    {
      x[i] := exp(x[i] - maxVal);
      assert e[..i + 1][..i] == e[..i];
      sum := sum + x[i];
    }
    assert x[..size] == e;
    assert e[..size] == e;
  }

  /** The last loop of `softmax`: `x[i] /= sum` for every `i < size`. */
  method DivideInPlace(x: array<real>, size: nat, sum: real)
    requires size <= x.Length && sum == Sum(x[..size]) && sum != 0.0
    modifies x
    ensures x[..size] == Normalised(old(x[..size]))
    ensures x[size..] == old(x[size..])
  {
    ghost var p := Normalised(x[..size]);
    for i := 0 to size
      invariant forall k :: 0 <= k < i ==> x[k] == p[k]
      invariant forall k :: i <= k < x.Length ==> x[k] == old(x[k])
    {
      x[i] := x[i] / sum;
    }
    assert x[..size] == p;
  }

  /**
   * `softmax(x, size)`: replaces `x[0..size)` by its softmax and leaves the
   * rest of `x` alone. `size` must be at least 1 because `x[0]` is read.
   */
  method SoftmaxInPlace(x: array<real>, size: nat, exp: real -> real)
    requires 1 <= size <= x.Length && ExpLike(exp)
    modifies x
    ensures x[..size] == SoftmaxOf(old(x[..size]), exp)
    ensures x[size..] == old(x[size..])
  {
    ghost var s := x[..size];
    var maxVal := MaxScan(x, size);
    var sum := ExpShiftInPlace(x, size, maxVal, exp);
    ShiftedSumPositive(s, exp);
    DivideInPlace(x, size, sum);
  }
}
