/**
 * The growable `KVCache` of week1_d2/kv_cache_demo.cpp: one key vector and
 * one value vector of shape `(batch, heads, seq_len, head_dim)`, flattened,
 * each extended by one token's worth of entries per `append`.
 */
module KvCacheDemo {
  import opened Numeric

  class KVCache {
    var k: seq<real>
    var v: seq<real>
    var batchSize: nat
    var numHeads: nat
    var seqLen: nat
    var headDim: nat

    /** The number of key entries one token contributes: `batch_size * num_heads * head_dim`. */
    function Width(): nat
      reads this
    {
      batchSize * numHeads * headDim
    }

    /** The key vector holds exactly `seq_len` tokens. */
    predicate Valid()
      reads this
    {
      |k| == seqLen * Width()
    }

    /** `KVCache(b, h, d)`: an empty cache of the given shape. */
    constructor (b: nat, h: nat, d: nat)
      ensures batchSize == b && numHeads == h && headDim == d
      ensures seqLen == 0 && k == [] && v == []
      ensures Valid()
    {
      batchSize, numHeads, headDim := b, h, d;
      seqLen := 0;
      k, v := [], [];
    }

    /**
     * `append(new_k, new_v)`: asserts that `new_k` is one token wide, then
     * extends both vectors and counts the token. The size of `new_v` is not
     * checked.
     */
    method Append(newK: seq<real>, newV: seq<real>)
      requires Valid() && |newK| == Width()
      modifies this
      ensures k == old(k) + newK && v == old(v) + newV
      ensures seqLen == old(seqLen) + 1
      ensures batchSize == old(batchSize) && numHeads == old(numHeads) && headDim == old(headDim)
      ensures Valid()
      ensures MemoryMb() == old(MemoryMb()) + ((|newK| + |newV|) * 4) as real / 1048576.0
    {
      k := k + newK;
      v := v + newV;
      seqLen := seqLen + 1;
    }

    /** `memory_mb()`: the bytes of both vectors at four bytes per float, in MiB. */
    function MemoryMb(): (mb: real)
      reads this
      ensures mb >= 0.0
      ensures mb * 1048576.0 == ((|k| + |v|) * 4) as real
    {
      ((|k| + |v|) * 4) as real / 1024.0 / 1024.0
    }
  }

  /** A valid cache of non-zero width stores exactly `seq_len` tokens of keys. */
  lemma StoredTokens(cache: KVCache)
    requires cache.Valid() && cache.Width() > 0
    ensures |cache.k| / cache.Width() == cache.seqLen
  {
    RowCount(cache.seqLen, cache.Width());
  }
}
