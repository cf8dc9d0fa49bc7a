/**
 * Symmetric INT4 quantization of week1_d4/quantize.cpp: a tensor is scaled by
 * `max_abs / 7`, rounded, clamped to [-7, 7], cast to `int8_t` and packed two
 * values per byte, the even-indexed value in the high nibble and the
 * odd-indexed one in the low nibble. Decoding picks the nibble, sign-extends
 * bit 3 and multiplies by the scale. Floats are modelled as reals; an
 * `int8_t` or `uint8_t` as the `bv8` holding its bits, so that the C++ bit
 * operations are the `bv8` ones.
 */
module Int4Codec {
  import opened Numeric

  // ---------------------------------------------------------------------
  // Rounding and clamping
  // ---------------------------------------------------------------------

  /** `std::round`: nearest integer, halfway cases away from zero. */
  function RoundHalfAway(t: real): (r: int)
    ensures Abs(r as real - t) <= 0.5
    ensures Abs(r as real - t) == 0.5 ==> Abs(r as real) > Abs(t)
  {
    if t >= 0.0 then (t + 0.5).Floor else -((-t + 0.5).Floor)
  }

  /** `std::max(-7, std::min(7, temp))`. */
  function Clamp(q: int): (r: int)
    ensures -7 <= r <= 7
    ensures -7 <= q <= 7 ==> r == q
    ensures q > 7 ==> r == 7
    ensures q < -7 ==> r == -7
  {
    var low := if 7 < q then 7 else q;
    if -7 < low then low else -7
  }

  /** The value `max_abs` holds after the first loop: 0 for an empty tensor. */
  function MaxAbs(s: seq<real>): real
  {
    if s == [] then 0.0 else StdMax(MaxAbs(s[..|s| - 1]), Abs(s[|s| - 1]))
  }

  /**
   * `max_abs` bounds every element's magnitude and is the magnitude of some
   * element, unless the tensor is empty; it is 0 exactly when every element is 0.
   */
  lemma {:induction false} MaxAbsIsMaximum(s: seq<real>)
    ensures MaxAbs(s) >= 0.0
    ensures forall k :: 0 <= k < |s| ==> Abs(s[k]) <= MaxAbs(s)
    ensures s != [] ==> exists k :: 0 <= k < |s| && Abs(s[k]) == MaxAbs(s)
    ensures MaxAbs(s) == 0.0 <==> forall k :: 0 <= k < |s| ==> s[k] == 0.0
  {
    if s != [] {
      var n := |s| - 1;
      MaxAbsIsMaximum(s[..n]);
      assert forall k :: 0 <= k < n ==> s[..n][k] == s[k];
      if MaxAbs(s) == Abs(s[n]) {
        assert Abs(s[n]) == MaxAbs(s);
      } else {
        var k :| 0 <= k < n && Abs(s[..n][k]) == MaxAbs(s[..n]);
        assert Abs(s[k]) == MaxAbs(s);
      }
    }
  }

  /** `max_abs` bounds the magnitude of element `i`. */
  lemma MaxAbsBoundAt(s: seq<real>, i: nat)
    requires i < |s|
    ensures Abs(s[i]) <= MaxAbs(s)
  {
    MaxAbsIsMaximum(s);
  }

  /** The clamped integer `temp` computed for element `x` under `scale`. */
  function QuantizeValue(x: real, scale: real): (q: int)
    requires scale != 0.0
    ensures -7 <= q <= 7
  {
    Clamp(RoundHalfAway(x / scale))
  }

  /** Every value fits a signed 4-bit field. */
  ghost predicate Int4Values(qs: seq<int>)
  {
    forall i :: 0 <= i < |qs| ==> -8 <= qs[i] <= 7
  }

  /** The integers `temp` takes, element by element. */
  function Quantized(s: seq<real>, scale: real): (qs: seq<int>)
    requires scale != 0.0
    ensures |qs| == |s| && Int4Values(qs)
  {
    seq(|s|, i requires 0 <= i < |s| => QuantizeValue(s[i], scale))
  }

  // ---------------------------------------------------------------------
  // int8_t bit patterns
  // ---------------------------------------------------------------------

  /** `static_cast<int8_t>(q)`: the two's-complement bits of `q`. */
  function Int8Bits(q: int): bv8
    requires -128 <= q < 128
  {
    (q % 256) as bv8
  }

  /** The `int8_t` whose bits are `b`. */
  function AsInt8(b: bv8): (r: int)
    ensures -128 <= r < 128
  {
    var n := b as int;
    if n < 128 then n else n - 256
  }

  lemma ByteOfInt(r: int)
    requires 0 <= r < 8 || 248 <= r < 256
    ensures (r as bv8) as int == r
  {
    if r < 8 {
      assert r in {0, 1, 2, 3, 4, 5, 6, 7};
    } else {
      assert r in {248, 249, 250, 251, 252, 253, 254, 255};
    }
  }

  /** For `q` in [-8, 7], reading the bits of `static_cast<int8_t>(q)` back as an `int8_t` gives `q`. */
  lemma Int8RoundTrip(q: int)
    requires -8 <= q <= 7
    ensures AsInt8(Int8Bits(q)) == q
  {
    var r := q % 256;
    ByteOfInt(r);
    assert Int8Bits(q) as int == r;
    if q >= 0 {
      assert r == q;
    } else {
      assert r == q + 256;
    }
  }

  /** The bit patterns of the `int8_t` values in [-8, 7]: bits 3 to 7 all equal. */
  predicate IsInt4Pattern(b: bv8)
  {
    b & 0xF8 == 0 || b & 0xF8 == 0xF8
  }

  /** A byte has equal bits 3 to 7 exactly when, read as an `int8_t`, it lies in [-8, 7]. */
  lemma Int4PatternRange(b: bv8)
    ensures IsInt4Pattern(b) <==> -8 <= AsInt8(b) <= 7
  {
  }

  lemma Int4Pattern(q: int)
    requires -8 <= q <= 7
    ensures IsInt4Pattern(Int8Bits(q))
  {
    Int8RoundTrip(q);
    Int4PatternRange(Int8Bits(q));
  }

  /** `static_cast<int8_t>` applied to every value of `qs`. */
  function Int8Seq(qs: seq<int>): (bits: seq<bv8>)
    requires Int4Values(qs)
    ensures |bits| == |qs|
  {
    seq(|qs|, i requires 0 <= i < |qs| => Int8Bits(qs[i]))
  }

  // ---------------------------------------------------------------------
  // Nibbles
  // ---------------------------------------------------------------------

  /** `quantized & 0x0F`: the low four bits. */
  function Nibble(b: bv8): (n: bv8)
    ensures n < 16
  {
    b & 0x0F
  }

  /** `if (quantized & 0x08) quantized |= 0xF0;` on a nibble: bit 3 copied into bits 4 to 7. */
  function SignExtend(n: bv8): (b: bv8)
    requires n < 16
    ensures IsInt4Pattern(b)
  {
    if n & 0x08 != 0 then n | 0xF0 else n
  }

  /** Sign extension inverts `Nibble` on the 4-bit patterns. */
  lemma SignExtendNibble(b: bv8)
    requires IsInt4Pattern(b)
    ensures SignExtend(Nibble(b)) == b
  {
  }

  /** Sign extension reads nibble `n` as `n - 16` when `n >= 8` and as `n` otherwise. */
  lemma SignExtendValue(n: bv8)
    requires n < 16
    ensures AsInt8(SignExtend(n)) == if n as int >= 8 then n as int - 16 else n as int
  {
  }

  /** The nibble of logical element `i`: the high half of byte `i/2` for even `i`, the low half for odd `i`. */
  function NibbleAt(bytes: seq<bv8>, i: nat): (n: bv8)
    requires i / 2 < |bytes|
    ensures n < 16
  {
    if i % 2 == 0 then (bytes[i / 2] >> 4) & 0x0F else bytes[i / 2] & 0x0F
  }

  /** The `int8_t` bits that decoding recovers for logical element `i`. */
  function DecodeBits(bytes: seq<bv8>, i: nat): (b: bv8)
    requires i / 2 < |bytes|
    ensures IsInt4Pattern(b)
  {
    SignExtend(NibbleAt(bytes, i))
  }

  /** The integer that decoding recovers for logical element `i`. */
  function DecodeAt(bytes: seq<bv8>, i: nat): int
    requires i / 2 < |bytes|
  {
    AsInt8(DecodeBits(bytes, i))
  }

  lemma LowBits(b: bv8)
    ensures (b & 0x0F) as int == b as int % 16
  {
  }

  lemma HighBits(b: bv8)
    ensures ((b >> 4) & 0x0F) as int == b as int / 16
  {
  }

  /**
   * Element `i` is read from the high nibble of byte `i/2` when `i` is even and
   * from its low nibble when `i` is odd; nibble `n` decodes to `n - 16` when
   * `n >= 8` and to `n` otherwise, so every decoded value lies in [-8, 7].
   */
  lemma DecodeAtValue(bytes: seq<bv8>, i: nat)
    requires i / 2 < |bytes|
    ensures var n := if i % 2 == 0 then bytes[i / 2] as int / 16 else bytes[i / 2] as int % 16;
      DecodeAt(bytes, i) == if n >= 8 then n - 16 else n
    ensures -8 <= DecodeAt(bytes, i) <= 7
  {
    HighBits(bytes[i / 2]);
    LowBits(bytes[i / 2]);
    SignExtendValue(NibbleAt(bytes, i));
  }

  // ---------------------------------------------------------------------
  // Packing
  // ---------------------------------------------------------------------

  /**
   * Byte `j` as the quantize loop leaves it: `(q[2j] & 0x0F) << 4` from the
   * even step, then `|= q[2j+1] & 0x0F` from the odd step when there is one.
   */
  function PackedByte(bits: seq<bv8>, j: nat): bv8
    requires 2 * j < |bits|
  {
    var high := Nibble(bits[2 * j]) << 4;
    if 2 * j + 1 < |bits| then high | Nibble(bits[2 * j + 1]) else high
  }

  /** The `ceil(|bits| / 2)` bytes the quantize loop writes for the `int8_t` values `bits`. */
  function Pack(bits: seq<bv8>): (b: seq<bv8>)
    ensures |b| == (|bits| + 1) / 2
  {
    seq((|bits| + 1) / 2, j requires 0 <= j < (|bits| + 1) / 2 => PackedByte(bits, j))
  }

  /** The odd step at index `i` completes byte `i / 2`. */
  lemma PackedByteComplete(bits: seq<bv8>, i: nat)
    requires i < |bits| && i % 2 == 1
    ensures PackedByte(bits, i / 2) == (Nibble(bits[i - 1]) << 4) | Nibble(bits[i])
  {
    assert 2 * (i / 2) == i - 1;
  }

  /** For an odd count, the last even step alone makes the trailing byte. */
  lemma PackedByteTrailing(bits: seq<bv8>)
    requires |bits| % 2 == 1
    ensures PackedByte(bits, |bits| / 2) == Nibble(bits[|bits| - 1]) << 4
  {
    assert 2 * (|bits| / 2) == |bits| - 1;
  }

  /** The two nibbles of a byte built as `(a << 4) | c` are `a` and `c`. */
  lemma SplitByte(a: bv8, c: bv8)
    requires a < 16 && c < 16
    ensures (((a << 4) | c) >> 4) & 0x0F == a
    ensures ((a << 4) | c) & 0x0F == c
  {
  }

  /** Unpacking element `i` of packed 4-bit patterns gives its bits back. */
  lemma PackRoundTripAt(bits: seq<bv8>, i: nat)
    requires i < |bits| && IsInt4Pattern(bits[i])
    ensures DecodeBits(Pack(bits), i) == bits[i]
  {
    var j := i / 2;
    assert 2 * j == i || 2 * j + 1 == i;
    var a := Nibble(bits[2 * j]);
    var c: bv8 := if 2 * j + 1 < |bits| then Nibble(bits[2 * j + 1]) else 0;
    assert Pack(bits)[j] == (a << 4) | c;
    SplitByte(a, c);
    assert NibbleAt(Pack(bits), i) == Nibble(bits[i]);
    SignExtendNibble(bits[i]);
  }

  /** Decoding the packed `int8_t` casts of integers in [-8, 7] gives back every integer. */
  lemma PackRoundTrip(qs: seq<int>)
    requires Int4Values(qs)
    ensures forall i :: 0 <= i < |qs| ==> DecodeAt(Pack(Int8Seq(qs)), i) == qs[i]
  {
    forall i | 0 <= i < |qs|
      ensures DecodeAt(Pack(Int8Seq(qs)), i) == qs[i]
    {
      Int4Pattern(qs[i]);
      PackRoundTripAt(Int8Seq(qs), i);
      Int8RoundTrip(qs[i]);
    }
  }

  /** A nibble of `static_cast<int8_t>(q)` is `q mod 16`. */
  lemma NibbleValue(q: int)
    requires -8 <= q <= 7
    ensures Nibble(Int8Bits(q)) as int == q % 16
  {
    var b := Int8Bits(q);
    Int8RoundTrip(q);
    LowBits(b);
    if q < 0 {
      assert b as int == q + 256;
    }
  }

  /** The byte `(a << 4) | c` has value `16 a + c`. */
  lemma JoinByte(a: bv8, c: bv8)
    requires a < 16 && c < 16
    ensures ((a << 4) | c) as int == a as int * 16 + c as int
  {
  }

  /** Byte `j` of a packing, as a number: 16 times the high nibble plus the low nibble. */
  lemma PackedByteValue(bits: seq<bv8>, j: nat)
    requires 2 * j < |bits|
    ensures 2 * j + 1 < |bits| ==>
      Pack(bits)[j] as int == Nibble(bits[2 * j]) as int * 16 + Nibble(bits[2 * j + 1]) as int
    ensures 2 * j + 1 == |bits| ==> Pack(bits)[j] as int == Nibble(bits[2 * j]) as int * 16
  {
    var a := Nibble(bits[2 * j]);
    var c: bv8 := if 2 * j + 1 < |bits| then Nibble(bits[2 * j + 1]) else 0;
    assert Pack(bits)[j] == (a << 4) | c;
    JoinByte(a, c);
  }

  /**
   * Byte `j` holds `(q[2j] mod 16) * 16 + (q[2j+1] mod 16)`; a trailing odd
   * element leaves a zero low nibble.
   */
  lemma PackLayoutAt(qs: seq<int>, j: nat)
    requires Int4Values(qs) && 2 * j < |qs|
    ensures 2 * j + 1 < |qs| ==> Pack(Int8Seq(qs))[j] as int == (qs[2 * j] % 16) * 16 + qs[2 * j + 1] % 16
    ensures 2 * j + 1 == |qs| ==> Pack(Int8Seq(qs))[j] as int == (qs[2 * j] % 16) * 16
  {
    PackedByteValue(Int8Seq(qs), j);
    NibbleValue(qs[2 * j]);
    if 2 * j + 1 < |qs| {
      NibbleValue(qs[2 * j + 1]);
    }
  }

  // ---------------------------------------------------------------------
  // Dequantization
  // ---------------------------------------------------------------------

  /** What `dequantize_symmetric` writes into `fp16_data[0..size)`. */
  function Dequantized(bytes: seq<bv8>, size: nat, scale: real): (out: seq<real>)
    requires (size + 1) / 2 <= |bytes|
    ensures |out| == size
  {
    seq(size, i requires 0 <= i < size => DecodeAt(bytes, i) as real * scale)
  }

  /** Where `bytes` decode element `i` to `q`, dequantization yields `q * scale` there. */
  lemma DequantizedAt(bytes: seq<bv8>, size: nat, scale: real, i: nat, q: int)
    requires (size + 1) / 2 <= |bytes| && i < size && DecodeAt(bytes, i) == q
    ensures Dequantized(bytes, size, scale)[i] == q as real * scale
  {
  }

  // ---------------------------------------------------------------------
  // Quantization error
  // ---------------------------------------------------------------------

  /** `a <= b * c` with `c > 0` gives `a / c <= b`. */
  lemma DivideBound(a: real, b: real, c: real)
    requires c > 0.0 && a <= b * c
    ensures a / c <= b
  {
    assert a / c * c == a;
  }

  /** An element no larger than `m` in magnitude is at most 7 steps of `m / 7`. */
  lemma ScaledWithinSeven(x: real, m: real, scale: real)
    requires m > 0.0 && Abs(x) <= m && scale == m / 7.0
    ensures Abs(x / scale) <= 7.0
  {
    assert Abs(x / scale) == Abs(x) / scale;
    DivideBound(Abs(x), 7.0, scale);
  }

  /** Rounding a value of magnitude at most 7 stays in [-7, 7]. */
  lemma RoundWithinSeven(t: real)
    requires Abs(t) <= 7.0
    ensures -7 <= RoundHalfAway(t) <= 7
  {
  }

  /** A step within half a unit of `x / scale` reconstructs `x` within `scale / 2`. */
  lemma ReconstructionError(x: real, scale: real, r: int)
    requires scale > 0.0 && Abs(r as real - x / scale) <= 0.5
    ensures Abs(x - r as real * scale) <= scale / 2.0
  {
    var d := x / scale - r as real;
    assert x / scale * scale == x;
    assert x - r as real * scale == d * scale;
    assert Abs(d * scale) == Abs(d) * scale;
    assert Abs(d) * scale <= 0.5 * scale;
  }

  /**
   * An element no larger than `max_abs` in magnitude, quantized with
   * `scale = max_abs / 7`, never reaches the clamp and is reconstructed
   * within half a step.
   */
  lemma QuantizeError(x: real, maxAbs: real, scale: real)
    requires maxAbs > 0.0 && Abs(x) <= maxAbs && scale == maxAbs / 7.0
    ensures QuantizeValue(x, scale) == RoundHalfAway(x / scale)
    ensures Abs(x - QuantizeValue(x, scale) as real * scale) <= scale / 2.0
  {
    ScaledWithinSeven(x, maxAbs, scale);
    RoundWithinSeven(x / scale);
    ReconstructionError(x, scale, QuantizeValue(x, scale));
  }

  /** The same bound, for a value `q` already known to be the quantized integer of `x`. */
  lemma QuantizeErrorOf(x: real, maxAbs: real, scale: real, q: int)
    requires maxAbs > 0.0 && Abs(x) <= maxAbs && scale == maxAbs / 7.0
    requires q == QuantizeValue(x, scale)
    ensures Abs(x - q as real * scale) <= scale / 2.0
  {
    QuantizeError(x, maxAbs, scale);
  }

  // ---------------------------------------------------------------------
  // Round trip
  // ---------------------------------------------------------------------

  /** The bytes `quantize_symmetric` writes for the tensor `s` under `scale`. */
  function Encoded(s: seq<real>, scale: real): (bytes: seq<bv8>)
    requires scale != 0.0
    ensures |bytes| == (|s| + 1) / 2
  {
    Pack(Int8Seq(Quantized(s, scale)))
  }

  /** Element `i` survives quantize, pack, unpack and dequantize within `scale / 2`. */
  lemma QuantizeRoundTripAt(s: seq<real>, scale: real, i: nat)
    requires MaxAbs(s) > 0.0 && scale == MaxAbs(s) / 7.0 && i < |s|
    ensures Abs(s[i] - Dequantized(Encoded(s, scale), |s|, scale)[i]) <= scale / 2.0
  {
    var qs := Quantized(s, scale);
    var q := qs[i];
    PackRoundTrip(qs);
    DequantizedAt(Encoded(s, scale), |s|, scale, i, q);
    MaxAbsBoundAt(s, i);
    QuantizeErrorOf(s[i], MaxAbs(s), scale, q);
  }

  /**
   * Quantize then dequantize with `scale = max_abs / 7`: every element comes
   * back within `scale / 2` of the original.
   */
  lemma QuantizeRoundTrip(s: seq<real>, scale: real)
    requires MaxAbs(s) > 0.0 && scale == MaxAbs(s) / 7.0
    ensures forall i :: 0 <= i < |s| ==>
      Abs(s[i] - Dequantized(Encoded(s, scale), |s|, scale)[i]) <= scale / 2.0
  {
    forall i | 0 <= i < |s|
      ensures Abs(s[i] - Dequantized(Encoded(s, scale), |s|, scale)[i]) <= scale / 2.0
    {
      QuantizeRoundTripAt(s, scale, i);
    }
  }

  // ---------------------------------------------------------------------
  // The two C++ functions
  // ---------------------------------------------------------------------

  /**
   * `quantize_symmetric(fp16_data, int4_data, size, scale)` with `data` the
   * `size` input floats. The division by `scale` is unguarded, so a non-empty
   * input must not be all zero; an empty one gets scale 0 and no byte is
   * written. Only bytes below `ceil(size / 2)` are written.
   */
  method QuantizeSymmetric(data: seq<real>, out: array<bv8>) returns (scale: real)
    requires data != [] ==> MaxAbs(data) > 0.0
    requires out.Length >= (|data| + 1) / 2
    modifies out
    ensures scale == MaxAbs(data) / 7.0
    ensures data != [] ==> out[..(|data| + 1) / 2] == Encoded(data, scale)
    ensures out[(|data| + 1) / 2..] == old(out[(|data| + 1) / 2..])
  {
    var maxAbs := MaxAbsScan(data);
    scale := maxAbs / 7.0;
    ghost var bits := if data == [] then [] else Int8Seq(Quantized(data, scale));
    assert forall k :: 0 <= k < |data| ==> bits[k] == Int8Bits(QuantizeValue(data[k], scale));
    QuantizePack(data, scale, bits, out);
  }

  /** The first loop of `quantize_symmetric`: the largest magnitude, 0 for an empty tensor. */
  method MaxAbsScan(data: seq<real>) returns (maxAbs: real)
    ensures maxAbs == MaxAbs(data)
  {
    maxAbs := 0.0;
    for i := 0 to |data|
      invariant maxAbs == MaxAbs(data[..i])
    {
      assert data[..i + 1][..i] == data[..i];
      maxAbs := StdMax(maxAbs, Abs(data[i]));
    }
    assert data[..|data|] == data;
  }

  /**
   * The second loop of `quantize_symmetric`: element `i` is rounded, clamped,
   * cast to `int8_t` (the bits `bits[i]`) and stored in the high nibble of
   * byte `i/2` when `i` is even (clearing the low nibble) and or-ed into its
   * low nibble when `i` is odd.
   */
  method QuantizePack(data: seq<real>, scale: real, ghost bits: seq<bv8>, out: array<bv8>)
    requires (data != [] ==> scale != 0.0) && out.Length >= (|data| + 1) / 2 && |bits| == |data|
    requires forall k {:trigger QuantizeValue(data[k], scale)} :: 0 <= k < |data| ==>
      bits[k] == Int8Bits(QuantizeValue(data[k], scale))
    modifies out
    ensures out[..(|data| + 1) / 2] == Pack(bits)
    ensures out[(|data| + 1) / 2..] == old(out[(|data| + 1) / 2..])
  {
    for i := 0 to |data|
      invariant forall j :: 0 <= j < i / 2 ==> out[j] == PackedByte(bits, j)
      invariant i % 2 == 1 ==> out[i / 2] == Nibble(bits[i - 1]) << 4
      invariant forall j :: (i + 1) / 2 <= j < out.Length ==> out[j] == old(out[j])
    {
      var quantized := Int8Bits(QuantizeValue(data[i], scale));
      if i % 2 == 0 {
        assert (i + 1) / 2 == i / 2 && (i + 2) / 2 == i / 2 + 1;
        out[i / 2] := Nibble(quantized) << 4;
      } else {
        assert (i + 1) / 2 == i / 2 + 1;
        PackedByteComplete(bits, i);
        out[i / 2] := out[i / 2] | Nibble(quantized);
      }
    }
    if |data| % 2 == 1 {
      PackedByteTrailing(bits);
    }
  }

  /**
   * `dequantize_symmetric(int4_data, fp16_data, size, scale)`: writes
   * `fp16_data[0..size)` and nothing else.
   */
  method DequantizeSymmetric(bytes: seq<bv8>, out: array<real>, size: nat, scale: real)
    requires (size + 1) / 2 <= |bytes| && size <= out.Length
    modifies out
    ensures out[..size] == Dequantized(bytes, size, scale)
    ensures out[size..] == old(out[size..])
  {
    ghost var values := Dequantized(bytes, size, scale);
    for i := 0 to size
      invariant forall k :: 0 <= k < i ==> out[k] == values[k]
      invariant forall k :: i <= k < out.Length ==> out[k] == old(out[k])
    {
      var quantized: bv8;
      if i % 2 == 0 {
        quantized := (bytes[i / 2] >> 4) & 0x0F;
      } else {
        quantized := bytes[i / 2] & 0x0F;
      }
      if quantized & 0x08 != 0 {
        quantized := quantized | 0xF0;
      }
      assert quantized == DecodeBits(bytes, i);
      var value := AsInt8(quantized);
      DequantizedAt(bytes, size, scale, i, value);
      out[i] := value as real * scale;
    }
  }
}
