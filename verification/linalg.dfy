/**
 * The dense product of a row-major `(M, K)` matrix by a row-major `(K, N)`
 * matrix into a row-major `(M, N)` buffer. `matmul` in week1_d2/real_kv_cache.cpp,
 * `matmul` in week1_d3/real_attention.cpp and `matmul_fp16` in
 * week1_d4/inference_int4.cpp are the same loop nest; it is modelled once here.
 */
module LinAlg {
  import opened Numeric

  /** `A` and `B` are large enough for every read the product makes. */
  ghost predicate Fits(A: seq<real>, B: seq<real>, M: nat, K: nat, N: nat)
  {
    M > 0 && N > 0 ==> |A| >= M * K && |B| >= K * N
  }

  /**
   * The first `k` terms of entry `(i, j)`: the sum over `t < k` of
   * `A[i*K + t] * B[t*N + j]`, accumulated in increasing `t` from 0.
   */
  function DotPrefix(A: seq<real>, B: seq<real>, M: nat, K: nat, N: nat, i: nat, j: nat, k: nat): real
    requires i < M && j < N && k <= K && Fits(A, B, M, K, N)
  {
    if k == 0 then 0.0
    else
      RowMajorBound(i, k - 1, M, K);
      RowMajorBound(k - 1, j, K, N);
      DotPrefix(A, B, M, K, N, i, j, k - 1) + A[i * K + (k - 1)] * B[(k - 1) * N + j]
  }

  /** Entry `(i, j)` of the product. */
  function Entry(A: seq<real>, B: seq<real>, M: nat, K: nat, N: nat, i: nat, j: nat): real
    requires i < M && j < N && Fits(A, B, M, K, N)
  {
    DotPrefix(A, B, M, K, N, i, j, K)
  }

  /** Quotient and remainder of a row-major index are its row and column. */
  lemma DivModUnique(p: nat, i: nat, j: nat, N: nat)
    requires j < N && p == i * N + j
    ensures p / N == i && p % N == j
  {
    var q, r := p / N, p % N;
    assert (q - i) * N == j - r;
    if q > i {
      MulMonotone(1, q - i, N);
    } else if q < i {
      MulMonotone(1, i - q, N);
    }
  }

  /** The whole row-major `(M, N)` product, flat. */
  function Product(A: seq<real>, B: seq<real>, M: nat, K: nat, N: nat): (c: seq<real>)
    requires Fits(A, B, M, K, N)
    ensures |c| == M * N
  {
    seq(M * N, p requires 0 <= p < M * N =>
      DivModUnique(p, p / N, p % N, N);
      assert p / N < M by {
        if p / N >= M {
          MulMonotone(M, p / N, N);
        }
      }
      Entry(A, B, M, K, N, p / N, p % N))
  }

  /** Index `i*N + j` of the product holds entry `(i, j)`. */
  lemma ProductAt(A: seq<real>, B: seq<real>, M: nat, K: nat, N: nat, i: nat, j: nat)
    requires i < M && j < N && Fits(A, B, M, K, N)
    ensures i * N + j < M * N
    ensures Product(A, B, M, K, N)[i * N + j] == Entry(A, B, M, K, N, i, j)
  {
    RowMajorBound(i, j, M, N);
    DivModUnique(i * N + j, i, j, N);
  }

  /** The `sum` accumulator of the innermost loop, from `k = 0` upwards. */
  method EntrySum(A: seq<real>, B: seq<real>, M: nat, K: nat, N: nat, i: nat, j: nat) returns (sum: real)
    requires i < M && j < N && Fits(A, B, M, K, N)
    ensures sum == Entry(A, B, M, K, N, i, j)
  {
    sum := 0.0;
    var k := 0;
    while k < K
      invariant 0 <= k <= K
      invariant sum == DotPrefix(A, B, M, K, N, i, j, k)
    {
      RowMajorBound(i, k, M, K);
      RowMajorBound(k, j, K, N);
      sum := sum + A[i * K + k] * B[k * N + j];
      k := k + 1;
    }
  }

  /**
   * `C[i*N + j] := sum of A[i*K + k] * B[k*N + j]` for every `i < M`, `j < N`;
   * nothing at or beyond `M*N` is written.
   */
  method MatMul(A: seq<real>, B: seq<real>, C: array<real>, M: nat, K: nat, N: nat)
    requires Fits(A, B, M, K, N) && C.Length >= M * N
    modifies C
    ensures C[..M * N] == Product(A, B, M, K, N)
    ensures C[M * N..] == old(C[M * N..])
  {
    ghost var P := Product(A, B, M, K, N);
    var i := 0;
    while i < M
      invariant 0 <= i <= M
      invariant i * N <= M * N
      invariant forall p :: 0 <= p < i * N ==> C[p] == P[p]
      invariant forall p :: M * N <= p < C.Length ==> C[p] == old(C[p])
    {
      var j := 0;
      while j < N
        invariant 0 <= j <= N
        invariant i * N + j <= M * N
        invariant forall p :: 0 <= p < i * N + j ==> C[p] == P[p]
        invariant forall p :: M * N <= p < C.Length ==> C[p] == old(C[p])
      {
        var sum := EntrySum(A, B, M, K, N, i, j);
        ProductAt(A, B, M, K, N, i, j);
        C[i * N + j] := sum;
        j := j + 1;
      }
      assert i * N + N == (i + 1) * N;
      MulMonotone(i + 1, M, N);
      i := i + 1;
    }
    assert C[M * N..] == old(C[M * N..]);
  }
}
