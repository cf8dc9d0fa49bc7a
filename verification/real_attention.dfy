/**
 * `RealKVCache` of week1_d3/real_attention.cpp: the same cache as in
 * week1_d2/real_kv_cache.cpp, whose attention multiplies the softmaxed
 * scores by the whole value buffer and returns component 0 of the product.
 */
module RealAttention {
  import opened Numeric
  import opened LinAlg
  import opened Softmax
  import opened Attention

  class RealKVCache {
    var k: seq<real>
    var v: seq<real>
    const hiddenDim: nat := 768

    /** Both vectors hold the same whole number of `hidden_dim`-wide rows. */
    predicate Valid()
      reads this
    {
      |v| == |k| && |k| % hiddenDim == 0
    }

    /** The number of cached tokens, `k.size() / hidden_dim`. */
    function SeqLen(): nat
      reads this
    {
      |k| / hiddenDim
    }

    /** The implicit constructor: both vectors empty. */
    constructor ()
      ensures k == [] && v == [] && Valid()
    {
      k, v := [], [];
    }

    /** `append(new_k, new_v)`: the first `hidden_dim` floats of each pointer are appended. */
    method Append(newK: seq<real>, newV: seq<real>)
      requires Valid() && |newK| >= hiddenDim && |newV| >= hiddenDim
      modifies this
      ensures k == old(k) + newK[..hiddenDim] && v == old(v) + newV[..hiddenDim]
      ensures Valid() && SeqLen() == old(SeqLen()) + 1
    {
      ghost var n := SeqLen();
      RowCount(n, hiddenDim);
      assert |k| == n * hiddenDim;
      k := k + newK[..hiddenDim];
      v := v + newV[..hiddenDim];
      assert |k| == (n + 1) * hiddenDim;
      RowCount(n + 1, hiddenDim);
    }

    /**
     * `compute_with_cache(q, k_proj, v_proj)`: scores, softmax, then
     * `output = scores × V` as a `(1, seq_len) × (seq_len, hidden_dim)`
     * product, of which `output[0]` is returned. The projection matrices are
     * not read. At least one token must be cached, since the softmax reads
     * `scores[0]`. The result is the weighted sum of component 0 of the value
     * rows that week1_d2/real_kv_cache.cpp computes by hand.
     */
    method ComputeWithCache(q: seq<real>, kProj: seq<real>, vProj: seq<real>, exp: real -> real)
      returns (result: real)
      requires Valid() && |k| >= hiddenDim && |q| >= hiddenDim && ExpLike(exp)
      ensures SeqLen() >= 1 && ScoresFit(q, k, hiddenDim, SeqLen()) && (SeqLen() - 1) * hiddenDim < |v|
      ensures result == AttendFirst(q, k, v, hiddenDim, SeqLen(), exp)
    {
      var seqLen := |k| / hiddenDim;
      RowCount(seqLen, hiddenDim);
      assert |k| == seqLen * hiddenDim;
      var scores := new real[seqLen];
      MatMul(q, k, scores, 1, hiddenDim, seqLen);
      SoftmaxInPlace(scores, seqLen, exp);
      ghost var weights := SoftmaxOf(Scores(q, k, hiddenDim, seqLen), exp);
      assert scores[..] == weights;
      var output := new real[hiddenDim];
      MatMul(scores[..], v, output, 1, seqLen, hiddenDim);
      WeightedFirstIsProduct(weights, v, hiddenDim, seqLen);
      result := output[0];
    }
  }
}
