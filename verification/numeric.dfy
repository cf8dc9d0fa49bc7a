/**
 * Arithmetic shared by the codec and the attention code: absolute value,
 * in-order summation, and the row-major index facts that every flat
 * `(rows, cols)` buffer of the repository relies on.
 */
module Numeric {

  function Abs(x: real): (r: real)
    ensures r >= 0.0 && (r == x || r == -x)
  {
    if x < 0.0 then -x else x
  }

  /** `std::max(a, b)` on floats: `b` when `a < b`, otherwise `a`. */
  function StdMax(a: real, b: real): (m: real)
    ensures m >= a && m >= b && (m == a || m == b)
  {
    if a < b then b else a
  }

  /** Sum of `s`, accumulated from index 0 upwards, as the C++ loops do. */
  function Sum(s: seq<real>): real
  {
    if s == [] then 0.0 else Sum(s[..|s| - 1]) + s[|s| - 1]
  }

  /** A sum of non-negative terms is at least each of its terms, and non-negative. */
  lemma {:induction false} SumAtLeastTerm(s: seq<real>, i: nat)
    requires forall k :: 0 <= k < |s| ==> s[k] >= 0.0
    requires i < |s|
    ensures Sum(s) >= s[i] >= 0.0
  {
    var n := |s| - 1;
    SumNonNegative(s[..n]);
    if i < n {
      SumAtLeastTerm(s[..n], i);
    }
  }

  lemma {:induction false} SumNonNegative(s: seq<real>)
    requires forall k :: 0 <= k < |s| ==> s[k] >= 0.0
    ensures Sum(s) >= 0.0
  {
    if s != [] {
      SumNonNegative(s[..|s| - 1]);
    }
  }

  /** Dividing every term by `d` divides the sum by `d`. */
  lemma {:induction false} SumDivided(s: seq<real>, t: seq<real>, d: real)
    requires d != 0.0 && |t| == |s|
    requires forall k :: 0 <= k < |s| ==> t[k] == s[k] / d
    ensures Sum(t) == Sum(s) / d
  {
    if s != [] {
      var n := |s| - 1;
      SumDivided(s[..n], t[..n], d);
      assert Sum(t) == Sum(s[..n]) / d + s[n] / d;
    }
  }

  /** Element `(i, k)` of a row-major `(rows, cols)` buffer lies inside it. */
  lemma RowMajorBound(i: nat, k: nat, rows: nat, cols: nat)
    requires i < rows && k < cols
    ensures i * cols + k < rows * cols
  {
    MulMonotone(i + 1, rows, cols);
    assert (i + 1) * cols == i * cols + cols;
  }

  /** `rows * cols` grows with `rows`. */
  lemma MulMonotone(a: nat, b: nat, c: nat)
    requires a <= b
    ensures a * c <= b * c
  {
    assert (b - a) * c >= 0;
  }

  /** A buffer of `n` whole rows of width `w > 0` holds exactly `n` rows. */
  lemma RowCount(n: nat, w: nat)
    requires w > 0
    ensures (n * w) / w == n
  {
    var q := (n * w) / w;
    var r := (n * w) % w;
    assert n * w == q * w + r;
    assert (n - q) * w == r;
    if n > q {
      MulMonotone(1, n - q, w);
    }
  }
}
