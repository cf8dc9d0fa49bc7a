/**
 * The load-time decoder of week1_d4/inference_int4.cpp. `dequantize_int4` is
 * the decode loop of `dequantize_symmetric` written out a second time; it is
 * specified by the same `Dequantized` function, so the two decoders agree on
 * every input. `matmul_fp16` is the loop nest `LinAlg.MatMul` models.
 */
module Int4Inference {
  import opened Int4Codec

  /**
   * `dequantize_int4(int4_data, fp16_data, size, scale)`: element `i` is the
   * sign-extended nibble of byte `i/2` (high half for even `i`, low half for
   * odd `i`) times `scale`; `fp16_data[0..size)` is written and nothing else.
   */
  method DequantizeInt4(bytes: seq<bv8>, out: array<real>, size: nat, scale: real)
    requires (size + 1) / 2 <= |bytes| && size <= out.Length
    modifies out
    ensures out[..size] == Dequantized(bytes, size, scale)
    ensures out[size..] == old(out[size..])
  {
    ghost var values := Dequantized(bytes, size, scale);
    for i := 0 to size
      invariant forall k :: 0 <= k < i ==> out[k] == values[k]
      invariant forall k :: i <= k < out.Length ==> out[k] == old(out[k])
    {
      var quantized: bv8;
      if i % 2 == 0 {
        quantized := (bytes[i / 2] >> 4) & 0x0F;
      } else {
        quantized := bytes[i / 2] & 0x0F;
      }
      if quantized & 0x08 != 0 {
        quantized := quantized | 0xF0;
      }
      assert quantized == DecodeBits(bytes, i);
      var value := AsInt8(quantized);
      DequantizedAt(bytes, size, scale, i, value);
      out[i] := value as real * scale;
    }
  }
}
