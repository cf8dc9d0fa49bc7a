/**
 * `KVCacheOptimized` of week1_d2/kv_cache_optimized.cpp: key and value
 * buffers of `max_seq_len * hidden_dim` floats allocated once, written one
 * token at a time at offset `current_seq_len * hidden_dim`, followed by a
 * read-only pass over the keys written so far.
 */
module KvCacheOptimized {
  import opened Numeric

  class KVCacheOptimized {
    var kBuffer: array<real>
    var vBuffer: array<real>
    var maxSeqLen: nat
    var currentSeqLen: nat
    var hiddenDim: nat

    /** Two distinct buffers of full capacity, and a token count within it. */
    predicate Valid()
      reads this
    {
      kBuffer != vBuffer
      && kBuffer.Length == maxSeqLen * hiddenDim
      && vBuffer.Length == maxSeqLen * hiddenDim
      && currentSeqLen <= maxSeqLen
    }

    /** `KVCacheOptimized(max_len, dim)`: both buffers preallocated, no token stored. */
    constructor (maxLen: nat, dim: nat)
      ensures maxSeqLen == maxLen && hiddenDim == dim && currentSeqLen == 0
      ensures fresh(kBuffer) && fresh(vBuffer)
      ensures Valid()
    {
      maxSeqLen, hiddenDim, currentSeqLen := maxLen, dim, 0;
      kBuffer := new real[maxLen * dim];
      vBuffer := new real[maxLen * dim];
    }

    /**
     * `append_and_attend(new_k, new_v)`: a full cache is left as it is.
     * Otherwise `new_k` and `new_v` are copied to offset
     * `current_seq_len * hidden_dim` of their buffers, the token is counted,
     * and the keys written so far are read once. The code does not check the
     * widths: a vector wider than `hidden_dim` spills into the next token's
     * slot, which is defined as long as it stays inside the buffer.
     */
    method AppendAndAttend(newK: seq<real>, newV: seq<real>)
      requires Valid()
      requires currentSeqLen < maxSeqLen ==>
        currentSeqLen * hiddenDim + |newK| <= kBuffer.Length && currentSeqLen * hiddenDim + |newV| <= vBuffer.Length
      modifies this, kBuffer, vBuffer
      ensures Valid()
      ensures kBuffer == old(kBuffer) && vBuffer == old(vBuffer)
      ensures maxSeqLen == old(maxSeqLen) && hiddenDim == old(hiddenDim)
      ensures old(currentSeqLen) >= maxSeqLen ==>
        currentSeqLen == old(currentSeqLen) && kBuffer[..] == old(kBuffer[..]) && vBuffer[..] == old(vBuffer[..])
      ensures old(currentSeqLen) < maxSeqLen ==> (old(currentSeqLen) + 1) * hiddenDim <= kBuffer.Length
      ensures old(currentSeqLen) < maxSeqLen ==>
        currentSeqLen == old(currentSeqLen) + 1
        && kBuffer[..] == Written(old(kBuffer[..]), old(currentSeqLen) * hiddenDim, newK)
        && vBuffer[..] == Written(old(vBuffer[..]), old(currentSeqLen) * hiddenDim, newV)
    {
      if currentSeqLen >= maxSeqLen {
        return;
      }
      var offset := currentSeqLen * hiddenDim;
      MulMonotone(currentSeqLen + 1, maxSeqLen, hiddenDim);
      Copy(kBuffer, offset, newK);
      Copy(vBuffer, offset, newV);
      currentSeqLen := currentSeqLen + 1;
      var dummySum := ScanKeys();
    }

    /**
     * The attention stand-in: sums `k_buffer[0 .. current_seq_len * hidden_dim)`
     * from index 0 upwards and changes nothing.
     */
    method ScanKeys() returns (sum: real)
      requires Valid()
      ensures currentSeqLen * hiddenDim <= kBuffer.Length
      ensures sum == Sum(kBuffer[..currentSeqLen * hiddenDim])
    {
      var n := currentSeqLen * hiddenDim;
      MulMonotone(currentSeqLen, maxSeqLen, hiddenDim);
      sum := 0.0;
      for i := 0 to n
        invariant sum == Sum(kBuffer[..i])
      {
        assert kBuffer[..i + 1][..i] == kBuffer[..i];
        sum := sum + kBuffer[i];
      }
    }
  }

  /** `buffer` after `memcpy(buffer + offset, src, src.size() * sizeof(float))`. */
  function Written(buffer: seq<real>, offset: nat, src: seq<real>): (r: seq<real>)
    requires offset + |src| <= |buffer|
    ensures |r| == |buffer|
    ensures forall i :: 0 <= i < |src| ==> r[offset + i] == src[i]
    ensures forall i :: 0 <= i < |buffer| && (i < offset || offset + |src| <= i) ==> r[i] == buffer[i]
  {
    buffer[..offset] + src + buffer[offset + |src|..]
  }

  /** `memcpy` of `src` into `buffer` at `offset`. */
  method Copy(buffer: array<real>, offset: nat, src: seq<real>)
    requires offset + |src| <= buffer.Length
    modifies buffer
    ensures buffer[..] == Written(old(buffer[..]), offset, src)
  {
    forall i | 0 <= i < |src| {
      buffer[offset + i] := src[i];
    }
  }
}
