/**
 * `RealKVCache` of week1_d2/real_kv_cache.cpp: flattened `(seq_len, 768)` key
 * and value vectors, one row appended per token, and single-query attention
 * computed either from the cache or from caller-supplied buffers.
 */
module RealKvCache {
  import opened Numeric
  import opened LinAlg
  import opened Softmax
  import opened Attention

  class RealKVCache {
    var k: seq<real>
    var v: seq<real>
    const hiddenDim: nat := 768

    /** Both vectors hold the same whole number of `hidden_dim`-wide rows. */
    predicate Valid()
      reads this
    {
      |v| == |k| && |k| % hiddenDim == 0
    }

    /** The number of cached tokens, `k.size() / hidden_dim`. */
    function SeqLen(): nat
      reads this
    {
      |k| / hiddenDim
    }

    /** The implicit constructor: both vectors empty. */
    constructor ()
      ensures k == [] && v == [] && Valid()
    {
      k, v := [], [];
    }

    /** `append(new_k, new_v)`: the first `hidden_dim` floats of each pointer are appended. */
    method Append(newK: seq<real>, newV: seq<real>)
      requires Valid() && |newK| >= hiddenDim && |newV| >= hiddenDim
      modifies this
      ensures k == old(k) + newK[..hiddenDim] && v == old(v) + newV[..hiddenDim]
      ensures Valid() && SeqLen() == old(SeqLen()) + 1
    {
      ghost var n := SeqLen();
      RowCount(n, hiddenDim);
      assert |k| == n * hiddenDim;
      k := k + newK[..hiddenDim];
      v := v + newV[..hiddenDim];
      assert |k| == (n + 1) * hiddenDim;
      RowCount(n + 1, hiddenDim);
    }

    /**
     * `compute_with_cache(q)`: scores of `q` against the cached keys, softmax,
     * then the weighted sum of component 0 of the value rows. At least one
     * token must be cached, since the softmax reads `scores[0]`.
     */
    method ComputeWithCache(q: seq<real>, exp: real -> real) returns (result: real)
      requires Valid() && |k| >= hiddenDim && |q| >= hiddenDim && ExpLike(exp)
      ensures SeqLen() >= 1 && ScoresFit(q, k, hiddenDim, SeqLen()) && (SeqLen() - 1) * hiddenDim < |v|
      ensures result == AttendFirst(q, k, v, hiddenDim, SeqLen(), exp)
    {
      var seqLen := |k| / hiddenDim;
      RowCount(seqLen, hiddenDim);
      assert |k| == seqLen * hiddenDim;
      var scores := new real[seqLen];
      MatMul(q, k, scores, 1, hiddenDim, seqLen);
      SoftmaxInPlace(scores, seqLen, exp);
      assert scores[..] == SoftmaxOf(Scores(q, k, hiddenDim, seqLen), exp);
      result := WeightedFirstSum(scores[..], v, hiddenDim, seqLen);
    }

    /**
     * `compute_without_cache(q, all_k, all_v, seq_len)`: the same computation
     * on `seq_len` rows of keys and values supplied by the caller.
     */
    method ComputeWithoutCache(q: seq<real>, allK: seq<real>, allV: seq<real>, seqLen: nat, exp: real -> real)
      returns (result: real)
      requires seqLen >= 1 && |q| >= hiddenDim && |allK| >= hiddenDim * seqLen
      requires (seqLen - 1) * hiddenDim < |allV| && ExpLike(exp)
      ensures ScoresFit(q, allK, hiddenDim, seqLen)
      ensures result == AttendFirst(q, allK, allV, hiddenDim, seqLen, exp)
    {
      var scores := new real[seqLen];
      MatMul(q, allK, scores, 1, hiddenDim, seqLen);
      SoftmaxInPlace(scores, seqLen, exp);
      assert scores[..] == SoftmaxOf(Scores(q, allK, hiddenDim, seqLen), exp);
      result := WeightedFirstSum(scores[..], allV, hiddenDim, seqLen);
    }

    /**
     * The cached and uncached routines agree: `compute_with_cache(q)` returns
     * what `compute_without_cache(q, k.data(), v.data(), k.size() / hidden_dim)`
     * returns.
     */
    method CachedMatchesUncached(q: seq<real>, exp: real -> real) returns (withCache: real, withoutCache: real)
      requires Valid() && |k| >= hiddenDim && |q| >= hiddenDim && ExpLike(exp)
      ensures SeqLen() >= 1 && ScoresFit(q, k, hiddenDim, SeqLen()) && (SeqLen() - 1) * hiddenDim < |v|
      ensures withCache == AttendFirst(q, k, v, hiddenDim, SeqLen(), exp)
      ensures withoutCache == withCache
    {
      withCache := ComputeWithCache(q, exp);
      var seqLen := |k| / hiddenDim;
      RowCount(seqLen, hiddenDim);
      assert |k| == seqLen * hiddenDim;
      RowMajorBound(seqLen - 1, 0, seqLen, hiddenDim);
      withoutCache := ComputeWithoutCache(q, k, v, seqLen, exp);
    }
  }
}
