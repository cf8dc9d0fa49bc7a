/**
 * `quantize_matrix` of week1_d4/quantize_model.py: the NumPy flavour of the
 * INT4 packer. The matrix is flattened, `scale = max(|x|) / 7`, every element
 * is rounded with `np.round` (halfway cases to even), cast to `int8`,
 * clipped to [-7, 7] and
 * packed two per byte into `size // 2` bytes, the even-indexed value in the
 * high nibble. The flattened float32 matrix is a sequence of reals; the
 * packed array is what the function saves, and is returned here together
 * with the scale.
 */
module QuantizeModel {
  import opened Numeric
  import opened Int4Codec

  /** `np.round`: nearest integer, halfway cases to the even neighbour. */
  function RoundHalfEven(t: real): (r: int)
    ensures Abs(r as real - t) <= 0.5
    ensures Abs(r as real - t) == 0.5 ==> r % 2 == 0
  {
    var f := t.Floor;
    var d := t - f as real;
    if d < 0.5 then f
    else if d > 0.5 then f + 1
    else if f % 2 == 0 then f
    else f + 1
  }

  /** Two integers within half a unit of `t`, one of them strictly closer than half, are equal. */
  lemma NearestUnique(t: real, r1: int, r2: int)
    requires Abs(r1 as real - t) < 0.5 && Abs(r2 as real - t) <= 0.5
    ensures r1 == r2
  {
  }

  /**
   * `np.round` and `std::round` agree except at halfway cases, where they can
   * differ: 2.5 rounds to 2 in NumPy and to 3 in C++.
   */
  lemma RoundingAgreesOffTies(t: real)
    ensures Abs(RoundHalfEven(t) as real - t) != 0.5 ==> RoundHalfEven(t) == RoundHalfAway(t)
    ensures RoundHalfEven(2.5) == 2 && RoundHalfAway(2.5) == 3
  {
    if Abs(RoundHalfEven(t) as real - t) != 0.5 {
      NearestUnique(t, RoundHalfEven(t), RoundHalfAway(t));
    }
  }

  /**
   * `astype(np.int8)` of an integer-valued float: the value modulo 256, read
   * in [-128, 127]. It is the identity only on that range.
   */
  function Int8Cast(r: int): (c: int)
    ensures -128 <= c <= 127 && (r - c) % 256 == 0
    ensures -128 <= r <= 127 ==> c == r
  {
    (r + 128) % 256 - 128
  }

  /** `np.clip(np.round(x / scale).astype(np.int8), -7, 7)` for one element. */
  function NpQuantizeValue(x: real, scale: real): (q: int)
    requires scale != 0.0
    ensures -7 <= q <= 7
  {
    Clamp(Int8Cast(RoundHalfEven(x / scale)))
  }

  /**
   * At the same scale, the per-element steps of the two programs differ once
   * the cast wraps: 200 becomes -56 and is clipped to -7 by NumPy, while the
   * C++ round and clamp give 7. Neither program reaches such a scale: both
   * use `max_abs / 7`, where `RoundEvenWithinSeven` rules the wrap out.
   */
  lemma CastWrapsBeforeClip()
    ensures NpQuantizeValue(200.0, 1.0) == -7
    ensures QuantizeValue(200.0, 1.0) == 7
  {
    assert RoundHalfEven(200.0) == 200;
    assert Int8Cast(200) == -56;
  }

  /** The clipped integer vector `quantized`. */
  function NpQuantized(flat: seq<real>, scale: real): (qs: seq<int>)
    requires scale != 0.0
    ensures |qs| == |flat| && Int4Values(qs)
  {
    seq(|flat|, i requires 0 <= i < |flat| => NpQuantizeValue(flat[i], scale))
  }

  /** The bytes of `int4_packed` once every pair has been packed. */
  function NpPacked(flat: seq<real>, scale: real): (bytes: seq<bv8>)
    requires scale != 0.0
    ensures |bytes| == (|flat| + 1) / 2
  {
    Pack(Int8Seq(NpQuantized(flat, scale)))
  }

  /** How `quantize_matrix` ends: the packed bytes and the scale, or the exception it raises. */
  datatype Outcome =
    | Packed(bytes: seq<bv8>, scale: real)
    | EmptyInput  // `np.max` of an empty array raises ValueError
    | OddSize     // `quantized[i+1]` past the end raises IndexError

  /**
   * `quantize_matrix(matrix, name)` on the flattened matrix `flat`. An empty
   * matrix fails in `np.max`, an odd element count fails reading
   * `quantized[size]` on the last pair; otherwise byte `j` is
   * `((q[2j] & 0x0F) << 4) | (q[2j+1] & 0x0F)`. An all-zero matrix divides
   * by a zero scale, which the function does not guard, so it is excluded.
   */
  method QuantizeMatrix(flat: seq<real>) returns (r: Outcome)
    requires flat != [] ==> MaxAbs(flat) > 0.0
    ensures flat == [] <==> r == EmptyInput
    ensures flat != [] && |flat| % 2 == 1 <==> r == OddSize
    ensures r.Packed? ==>
      r.scale == MaxAbs(flat) / 7.0 && |r.bytes| == |flat| / 2 && r.bytes == NpPacked(flat, r.scale)
  {
    if flat == [] {
      return EmptyInput;
    }
    var size := |flat|;
    var maxAbs := MaxAbsScan(flat);
    var scale := maxAbs / 7.0;
    var quantized := NpQuantized(flat, scale);
    var packed := new bv8[size / 2](_ => 0);
    var complete := PackPairs(quantized, packed);
    if !complete {
      return OddSize;
    }
    r := Packed(packed[..], scale);
  }

  /**
   * The packing loop `for i in range(0, size, 2)`: byte `i // 2` becomes
   * `((q[i] & 0x0F) << 4) | (q[i+1] & 0x0F)`. For an odd count the last step
   * reads past the end of `quantized`; that is reported as `complete == false`.
   */
  method PackPairs(quantized: seq<int>, packed: array<bv8>) returns (complete: bool)
    requires Int4Values(quantized) && packed.Length == |quantized| / 2
    modifies packed
    ensures complete <==> |quantized| % 2 == 0
    ensures complete ==> packed[..] == Pack(Int8Seq(quantized))
  {
    ghost var bits := Int8Seq(quantized);
    var size := |quantized|;
    var i := 0;
    while i < size
      invariant 0 <= i <= size && i % 2 == 0
      invariant forall j :: 0 <= j < i / 2 ==> packed[j] == PackedByte(bits, j)
    {
      var high := Nibble(Int8Bits(quantized[i])) << 4;
      if i + 1 >= size {
        return false;
      }
      var low := Nibble(Int8Bits(quantized[i + 1]));
      assert 2 * (i / 2) == i;
      packed[i / 2] := high | low;
      i := i + 2;
    }
    assert packed[..] == Pack(bits);
    return true;
  }

  /**
   * `np.round` of a magnitude at most 7 already lies in [-7, 7], so the
   * `int8` cast and the clip change nothing.
   */
  lemma RoundEvenWithinSeven(t: real)
    requires Abs(t) <= 7.0
    ensures -7 <= RoundHalfEven(t) <= 7
    ensures Clamp(Int8Cast(RoundHalfEven(t))) == RoundHalfEven(t)
  {
  }

  /**
   * Element `i` of a packing, unpacked with `dequantize_int4` or
   * `dequantize_symmetric` and the returned scale, comes back within half a
   * quantization step.
   */
  lemma NpRoundTripAt(flat: seq<real>, scale: real, i: nat)
    requires MaxAbs(flat) > 0.0 && scale == MaxAbs(flat) / 7.0 && i < |flat|
    ensures Abs(flat[i] - Dequantized(NpPacked(flat, scale), |flat|, scale)[i]) <= scale / 2.0
  {
    var qs := NpQuantized(flat, scale);
    var q := qs[i];
    PackRoundTrip(qs);
    DequantizedAt(NpPacked(flat, scale), |flat|, scale, i, q);
    MaxAbsBoundAt(flat, i);
    ScaledWithinSeven(flat[i], MaxAbs(flat), scale);
    RoundEvenWithinSeven(flat[i] / scale);
    ReconstructionError(flat[i], scale, q);
  }

  /**
   * Decoding the packed bytes recovers every clipped integer exactly, and
   * every element within `scale / 2`.
   */
  lemma NpRoundTrip(flat: seq<real>, scale: real)
    requires MaxAbs(flat) > 0.0 && scale == MaxAbs(flat) / 7.0
    ensures forall i :: 0 <= i < |flat| ==> DecodeAt(NpPacked(flat, scale), i) == NpQuantized(flat, scale)[i]
    ensures forall i :: 0 <= i < |flat| ==>
      Abs(flat[i] - Dequantized(NpPacked(flat, scale), |flat|, scale)[i]) <= scale / 2.0
  {
    PackRoundTrip(NpQuantized(flat, scale));
    forall i | 0 <= i < |flat|
      ensures Abs(flat[i] - Dequantized(NpPacked(flat, scale), |flat|, scale)[i]) <= scale / 2.0
    {
      NpRoundTripAt(flat, scale, i);
    }
  }

  /** No element of `flat / scale` lies exactly halfway between two integers. */
  ghost predicate NoTies(flat: seq<real>, scale: real)
    requires scale != 0.0
  {
    forall i :: 0 <= i < |flat| ==> Abs(RoundHalfEven(flat[i] / scale) as real - flat[i] / scale) != 0.5
  }

  /** Every rounded element fits in an `int8`, so `astype(np.int8)` does not wrap. */
  ghost predicate NoWrap(flat: seq<real>, scale: real)
    requires scale != 0.0
  {
    forall i :: 0 <= i < |flat| ==> -128 <= RoundHalfEven(flat[i] / scale) <= 127
  }

  /**
   * Away from halfway cases, and when the `int8` cast does not wrap (as at
   * `scale = max_abs / 7`, see `RoundEvenWithinSeven`), the NumPy packer
   * writes the same bytes as `quantize_symmetric` for the same scale.
   */
  lemma PackersAgreeOffTies(flat: seq<real>, scale: real)
    requires scale != 0.0 && NoTies(flat, scale) && NoWrap(flat, scale)
    ensures NpPacked(flat, scale) == Encoded(flat, scale)
  {
    forall i | 0 <= i < |flat|
      ensures NpQuantized(flat, scale)[i] == Quantized(flat, scale)[i]
    {
      RoundingAgreesOffTies(flat[i] / scale);
      assert Int8Cast(RoundHalfEven(flat[i] / scale)) == RoundHalfEven(flat[i] / scale);
    }
    assert NpQuantized(flat, scale) == Quantized(flat, scale);
  }

  /**
   * At a halfway case the two packers differ: for the tensor `[7, 2.5]` the
   * scale is 1, NumPy stores 2 and `quantize_symmetric` stores 3 in the low
   * nibble of the only byte.
   */
  lemma PackersDifferAtTie()
    ensures NpPacked([7.0, 2.5], 1.0) != Encoded([7.0, 2.5], 1.0)
  {
    var flat := [7.0, 2.5];
    RoundingAgreesOffTies(2.5);
    assert NpQuantized(flat, 1.0)[1] == 2;
    assert Quantized(flat, 1.0)[1] == 3;
    PackRoundTrip(NpQuantized(flat, 1.0));
    PackRoundTrip(Quantized(flat, 1.0));
    assert DecodeAt(NpPacked(flat, 1.0), 1) != DecodeAt(Encoded(flat, 1.0), 1);
  }
}
