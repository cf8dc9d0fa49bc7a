/**
 * What the single-query attention of week1_d2/real_kv_cache.cpp and
 * week1_d3/real_attention.cpp computes from a query `q` of `hidden_dim`
 * floats and key and value buffers holding `seq_len` rows of `hidden_dim`
 * floats each, row-major.
 *
 * The score step calls `matmul(q, k, scores, 1, hidden_dim, seq_len)`, which
 * reads the `(seq_len, hidden_dim)` key buffer as if it were a
 * `(hidden_dim, seq_len)` matrix: `scores[j]` is the sum over `t` of
 * `q[t] * k[t*seq_len + j]`, not the dot product of `q` with key row `j`.
 * The model follows the code; `KeyDots` is the intended dot product, and the
 * two agree for one cached token, and for width 768 they differ for every
 * number of tokens from two on.
 */
module Attention {
  import opened Numeric
  import opened LinAlg
  import opened Softmax

  /** The buffers hold enough floats for every read the score step makes. */
  ghost predicate ScoresFit(q: seq<real>, k: seq<real>, hd: nat, n: nat)
  {
    Fits(q, k, 1, hd, n)
  }

  /** `scores` after `matmul(q, k, scores, 1, hidden_dim, seq_len)`. */
  function Scores(q: seq<real>, k: seq<real>, hd: nat, n: nat): (s: seq<real>)
    requires ScoresFit(q, k, hd, n)
    ensures |s| == n
  {
    Product(q, k, 1, hd, n)
  }

  /** The dot products of `q` with each of the `n` key rows: the key buffer times `q`. */
  function KeyDots(q: seq<real>, k: seq<real>, hd: nat, n: nat): (s: seq<real>)
    requires Fits(k, q, n, hd, 1)
    ensures |s| == n
  {
    Product(k, q, n, hd, 1)
  }

  /** Row 0 of `A` times `B`, and `B` times `A`'s row 0 read as a column, agree term by term. */
  lemma {:induction false} SingleRowSwap(q: seq<real>, k: seq<real>, hd: nat, t: nat)
    requires t <= hd && |q| >= hd && |k| >= hd
    ensures DotPrefix(q, k, 1, hd, 1, 0, 0, t) == DotPrefix(k, q, 1, hd, 1, 0, 0, t)
  {
    if t > 0 {
      SingleRowSwap(q, k, hd, t - 1);
      assert q[0 * hd + (t - 1)] * k[(t - 1) * 1 + 0] == k[0 * hd + (t - 1)] * q[(t - 1) * 1 + 0];
    }
  }

  /** With one cached token the score is the true dot product of `q` with the key row. */
  lemma ScoresSingleToken(q: seq<real>, k: seq<real>, hd: nat)
    requires |q| >= hd && |k| >= hd
    ensures Scores(q, k, hd, 1) == KeyDots(q, k, hd, 1)
  {
    ProductAt(q, k, 1, hd, 1, 0, 0);
    ProductAt(k, q, 1, hd, 1, 0, 0);
    SingleRowSwap(q, k, hd, hd);
  }

  /**
   * The first `m` terms of row 0 of `A` times column `j` of `B`, when row 0 of
   * `A` is zero except at `t0`.
   */
  lemma {:induction false} DotPrefixSparse(A: seq<real>, B: seq<real>, M: nat, K: nat, N: nat, j: nat, m: nat, t0: nat)
    requires 0 < M && j < N && m <= K && K <= |A| && Fits(A, B, M, K, N) && t0 < K
    requires forall t :: 0 <= t < K && t != t0 ==> A[t] == 0.0
    ensures t0 * N + j < |B|
    ensures DotPrefix(A, B, M, K, N, 0, j, m) == if t0 < m then A[t0] * B[t0 * N + j] else 0.0
  {
    RowMajorBound(t0, j, K, N);
    if m > 0 {
      DotPrefixSparse(A, B, M, K, N, j, m - 1, t0);
      RowMajorBound(m - 1, j, K, N);
      assert 0 * K + (m - 1) == m - 1;
    }
  }

  /** The one-hot query used by `ScoresDifferFromDots`. */
  function UnitQuery(): (q: seq<real>)
    ensures |q| == 768 && q[1] == 1.0
    ensures forall t :: 0 <= t < 768 && t != 1 ==> q[t] == 0.0
  {
    seq(768, t => if t == 1 then 1.0 else 0.0)
  }

  /** `n` cached tokens of width 768 whose only non-zero entry is element 1 of key row 0. */
  function SparseKeys(n: nat): (k: seq<real>)
    requires n >= 1
    ensures |k| == 768 * n && k[1] == 1.0
    ensures forall t :: 0 <= t < 768 * n && t != 1 ==> k[t] == 0.0
  {
    seq(768 * n, t => if t == 1 then 1.0 else 0.0)
  }

  /**
   * With two or more cached tokens of width 768 the score step is not the
   * dot product: for the query `e1` and a key row 0 equal to `e1`, the true
   * score of row 0 is 1 while the code computes `q[1] * k[n] = 0`.
   */
  lemma ScoresDifferFromDots(n: nat)
    requires n >= 2
    ensures ScoresFit(UnitQuery(), SparseKeys(n), 768, n) && Fits(SparseKeys(n), UnitQuery(), n, 768, 1)
    ensures Scores(UnitQuery(), SparseKeys(n), 768, n)[0] == 0.0
    ensures KeyDots(UnitQuery(), SparseKeys(n), 768, n)[0] == 1.0
  {
    var q, k := UnitQuery(), SparseKeys(n);
    MulMonotone(1, n, 768);
    ProductAt(q, k, 1, 768, n, 0, 0);
    DotPrefixSparse(q, k, 1, 768, n, 0, 768, 1);
    ProductAt(k, q, n, 768, 1, 0, 0);
    DotPrefixSparse(k, q, n, 768, 1, 0, 768, 1);
  }

  /**
   * The first `n` terms of the weighted sum
   * `result += scores[i] * v[i * hidden_dim]`: only component 0 of each value
   * row takes part.
   */
  function WeightedFirst(scores: seq<real>, v: seq<real>, hd: nat, n: nat): real
    requires n <= |scores| && (n == 0 || (n - 1) * hd < |v|)
  {
    if n == 0 then 0.0
    else
      assert n - 1 == 0 || (n - 2) * hd < |v| by {
        if n >= 2 {
          MulMonotone(n - 2, n - 1, hd);
        }
      }
      WeightedFirst(scores, v, hd, n - 1) + scores[n - 1] * v[(n - 1) * hd]
  }

  /** The prefix of the weighted sum is the prefix of entry `(0, 0)` of `scores × V`. */
  lemma {:induction false} WeightedFirstIsDotPrefix(scores: seq<real>, v: seq<real>, hd: nat, n: nat, m: nat)
    requires hd > 0 && m <= n && Fits(scores, v, 1, n, hd)
    ensures n <= |scores| && (m == 0 || (m - 1) * hd < |v|)
    ensures WeightedFirst(scores, v, hd, m) == DotPrefix(scores, v, 1, n, hd, 0, 0, m)
  {
    if m > 0 {
      RowMajorBound(m - 1, 0, n, hd);
      WeightedFirstIsDotPrefix(scores, v, hd, n, m - 1);
      assert 0 * n + (m - 1) == m - 1 && (m - 1) * hd + 0 == (m - 1) * hd;
    } else if n > 0 {
      RowMajorBound(0, 0, 1, n);
    }
  }

  /**
   * The hand-written weighted sum of week1_d2/real_kv_cache.cpp equals
   * `output[0]` of the `scores × V` product of week1_d3/real_attention.cpp.
   */
  lemma WeightedFirstIsProduct(scores: seq<real>, v: seq<real>, hd: nat, n: nat)
    requires hd > 0 && Fits(scores, v, 1, n, hd)
    ensures n <= |scores| && (n == 0 || (n - 1) * hd < |v|)
    ensures WeightedFirst(scores, v, hd, n) == Product(scores, v, 1, n, hd)[0]
  {
    ProductAt(scores, v, 1, n, hd, 0, 0);
    WeightedFirstIsDotPrefix(scores, v, hd, n, n);
  }

  /** The value both attention routines return: scores, softmax, weighted sum of component 0. */
  function AttendFirst(q: seq<real>, k: seq<real>, v: seq<real>, hd: nat, n: nat, exp: real -> real): real
    requires n >= 1 && ScoresFit(q, k, hd, n) && (n - 1) * hd < |v| && ExpLike(exp)
  {
    WeightedFirst(SoftmaxOf(Scores(q, k, hd, n), exp), v, hd, n)
  }

  /**
   * The weighted-sum loop: `result += scores[i] * v[i * hidden_dim]` for
   * `i` from 0 to `n`.
   */
  method WeightedFirstSum(scores: seq<real>, v: seq<real>, hd: nat, n: nat) returns (result: real)
    requires n <= |scores| && (n == 0 || (n - 1) * hd < |v|)
    ensures result == WeightedFirst(scores, v, hd, n)
  {
    result := 0.0;
    for i := 0 to n
      invariant result == WeightedFirst(scores, v, hd, i)
    {
      MulMonotone(i, n - 1, hd);
      result := result + scores[i] * v[i * hd];
    }
  }
}
