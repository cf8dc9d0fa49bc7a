# INT4 weight codec and KV-cache attention, in Dafny

This project models the computational core of `ai-system-journey`, a set of
small C++ and Python programs about LLM inference:

- **Symmetric INT4 codec.** `quantize_symmetric` (week1_d4/quantize.cpp)
  scales a float tensor by `max_abs / 7`, rounds, clamps to [-7, 7] and packs
  two values per byte: the even-indexed value goes in the high nibble, the
  odd-indexed one in the low nibble. `dequantize_symmetric` and its copy
  `dequantize_int4` (week1_d4/inference_int4.cpp) pick the nibble,
  sign-extend bit 3 and multiply by the scale. `quantize_matrix`
  (week1_d4/quantize_model.py) is the NumPy packer: it rounds halfway cases
  to even, packs each pair into one of `size // 2` bytes, and raises an
  `IndexError` for an odd element count.
- **KV caches.**
  - `KVCache` (week1_d2/kv_cache_demo.cpp) grows by `insert`.
  - `KVCacheOptimized` (week1_d2/kv_cache_optimized.cpp) preallocates its
    buffers, writes each token with `memcpy` at `current_seq_len *
    hidden_dim`, and silently ignores an append when it is full.
  - The two `RealKVCache` structs (week1_d2/real_kv_cache.cpp and
    week1_d3/real_attention.cpp) compute single-query attention with a
    `matmul`, an in-place max-shifted `softmax` and a weighted sum of the
    value rows.

How the model is built:

- Floats are reals.
- `std::round` is `RoundHalfAway` and `np.round` is `RoundHalfEven`.
- An `int8_t` or `uint8_t` is the `bv8` holding its bits, so the C++
  masks, shifts and ors are `bv8` operations.
- `expf` is a parameter `exp: real -> real`. The predicate `ExpLike` asks
  only that it is never negative and positive at 0.
- Objects whose fields the C++ updates are classes: sequences stand for
  `std::vector`s, arrays for raw buffers. Each loop is a method proved
  against a specification function, and the properties are lemmas about
  those functions.
- The three `matmul` / `matmul_fp16` loop nests are the same text, so they
  are modelled once, as `LinAlg.MatMul`.

Two behaviours of the code are followed as written, not as intended:

- **The score-step layout quirk.** `matmul(q, k, scores, 1, hidden_dim,
  seq_len)` reads the `(seq_len, hidden_dim)` key buffer as a
  `(hidden_dim, seq_len)` matrix. The model keeps this indexing.
  `Attention.ScoresSingleToken` proves that it is the true dot product when
  one token is cached. `Attention.ScoresDifferFromDots` gives, for width 768
  and every count of two or more tokens, an input where it is not.
- **The weighted sum uses only component 0 of each value row.** Both caches
  do this: week1_d2 in its hand-written loop, week1_d3 by returning
  `output[0]` of the product.

## Model

| member | source | states |
|---|---|---|
| Int4Codec.RoundHalfAway | week1_d4/quantize.cpp:22 | `std::round`: the result is within 0.5 of the argument, and halfway cases go away from zero |
| Int4Codec.Clamp | week1_d4/quantize.cpp:23 | `max(-7, min(7, temp))` lies in [-7, 7], is the identity inside that range, and saturates to 7 above it and to -7 below it |
| Int4Codec.MaxAbsIsMaximum | week1_d4/quantize.cpp:10-13 | `max_abs` is at least `|x_i|` for every i, equals some `|x_i|` on a non-empty tensor, and is 0 exactly when every element is 0 |
| Int4Codec.MaxAbsScan | week1_d4/quantize.cpp:10-13 | the first loop leaves `max_abs` equal to the maximum magnitude (0 for an empty tensor) |
| Int4Codec.QuantizeValue | week1_d4/quantize.cpp:22-23 | the clamped integer `temp` always lies in [-7, 7] |
| Int4Codec.Quantized | week1_d4/quantize.cpp:19-24 | one quantized integer per element, each within the signed 4-bit range |
| Int4Codec.AsInt8 | week1_d4/quantize.cpp:38 | a byte read as `int8_t` lies in [-128, 127] |
| Int4Codec.Int8RoundTrip | week1_d4/quantize.cpp:24 | `static_cast<int8_t>` of a clamped value, read back as an `int8_t`, is the value itself |
| Int4Codec.Int4PatternRange | week1_d4/quantize.cpp:46 | a byte has bits 3 to 7 all equal exactly when it is the `int8_t` of a value in [-8, 7] |
| Int4Codec.Nibble | week1_d4/quantize.cpp:28 | `q & 0x0F` is below 16 |
| Int4Codec.NibbleAt | week1_d4/quantize.cpp:39-43 | the extracted nibble (high half of byte i/2 for even i, low half for odd i) is below 16 |
| Int4Codec.SignExtend | week1_d4/quantize.cpp:46 | `if (q & 0x08) q |= 0xF0` on a nibble yields an `int8_t` in [-8, 7] |
| Int4Codec.SignExtendNibble | week1_d4/quantize.cpp:30 | sign extension inverts `& 0x0F` on every `int8_t` in [-8, 7]: nothing the packer keeps is lost |
| Int4Codec.SignExtendValue | week1_d4/inference_int4.cpp:19 | nibble n decodes to n - 16 when n >= 8 and to n otherwise, so 0..7 decode to themselves |
| Int4Codec.DecodeBits | week1_d4/quantize.cpp:39-46 | the decoded `int8_t` always has the pattern of a value in [-8, 7] |
| Int4Codec.DecodeAtValue | week1_d4/inference_int4.cpp:12-19 | element i is decoded from `byte[i/2] / 16` (even i) or `byte[i/2] % 16` (odd i) by the n - 16 rule, and lies in [-8, 7] |
| Int4Codec.Pack | week1_d4/quantize.cpp:27-31 | the packer's output has `ceil(size / 2)` bytes |
| Int4Codec.PackRoundTrip | week1_d4/quantize.cpp:19-46 | unpacking the packed `int8_t` casts of any integers in [-8, 7] recovers every integer exactly |
| Int4Codec.NibbleValue | week1_d4/quantize.cpp:28 | the low nibble of `static_cast<int8_t>(q)` is `q mod 16` |
| Int4Codec.PackedByteValue | week1_d4/quantize.cpp:27-31 | a packed byte is worth 16 times its high nibble plus its low nibble |
| Int4Codec.PackLayoutAt | week1_d4/quantize.cpp:27-31 | byte j = (q[2j] mod 16) * 16 + (q[2j+1] mod 16), or (q[2j] mod 16) * 16 for a trailing odd element |
| Int4Codec.ScaledWithinSeven | week1_d4/quantize.cpp:16 | with `scale = max_abs / 7 > 0`, every `x_i / scale` lies in [-7, 7] |
| Int4Codec.RoundWithinSeven | week1_d4/quantize.cpp:22-23 | rounding such a value stays in [-7, 7], so the clamp never fires |
| Int4Codec.QuantizeError | week1_d4/quantize.cpp:16-24 | an element quantized with `scale = max_abs / 7` equals its plain rounding and is reconstructed within `scale / 2` |
| Int4Codec.Encoded | week1_d4/quantize.cpp:19-32 | the bytes of a quantized tensor number `ceil(size / 2)` |
| Int4Codec.QuantizeRoundTrip | week1_d4/quantize.cpp:8-50 | quantize then dequantize returns every element within `scale / 2` of the original |
| Int4Codec.QuantizeSymmetric | week1_d4/quantize.cpp:8-33 | `scale = max_abs / 7`; bytes `[0, ceil(size/2))` are the packed quantized tensor and no other byte changes |
| Int4Codec.QuantizePack | week1_d4/quantize.cpp:19-32 | the second loop writes the packing of the quantized `int8_t` values into bytes `[0, ceil(size/2))` and nothing beyond |
| Int4Codec.DequantizeSymmetric | week1_d4/quantize.cpp:36-50 | `fp16_data[i]` = decoded element i times `scale` for every i < size; nothing else is written |
| Int4Inference.DequantizeInt4 | week1_d4/inference_int4.cpp:9-23 | writes exactly what `dequantize_symmetric` writes, for every input, and nothing outside `[0, size)` |
| LinAlg.Product | week1_d4/inference_int4.cpp:26-35 | the product of an `(M, K)` and a `(K, N)` matrix has `M * N` entries |
| LinAlg.ProductAt | week1_d3/real_attention.cpp:8-18 | index `i*N + j` of the product lies inside it and holds the ordered sum over k of `A[i*K+k] * B[k*N+j]` |
| LinAlg.EntrySum | week1_d4/inference_int4.cpp:29-32 | the innermost loop's `sum`, accumulated from k = 0 upwards, is entry (i, j) |
| LinAlg.MatMul | week1_d2/real_kv_cache.cpp:8-18 | `C[0, M*N)` becomes the product; `C` from `M*N` on is untouched |
| Softmax.MaxOf | week1_d2/real_kv_cache.cpp:22-23 | `max_val` is at least every `x[i]` and equals one of them |
| Softmax.MaxScan | week1_d3/real_attention.cpp:22-23 | the scan from `x[0]` leaves `max_val` equal to that maximum; it needs `size >= 1` |
| Softmax.ShiftedSumPositive | week1_d2/real_kv_cache.cpp:25-29 | the sum of `expf(x[i] - max_val)` is positive, so the normalising division is defined |
| Softmax.SoftmaxOf | week1_d2/real_kv_cache.cpp:21-31 | softmax keeps the length |
| Softmax.SoftmaxIsDistribution | week1_d2/real_kv_cache.cpp:21-31 | every softmax weight lies in [0, 1] and the weights sum to 1 |
| Softmax.ExpShiftInPlace | week1_d3/real_attention.cpp:25-29 | `x[0, size)` becomes its elements' `expf(x[i] - max_val)`, `sum` is their total, the rest of `x` is untouched |
| Softmax.DivideInPlace | week1_d3/real_attention.cpp:30 | `x[0, size)` becomes itself divided by its sum, the rest of `x` is untouched |
| Softmax.SoftmaxInPlace | week1_d2/real_kv_cache.cpp:21-31 | `softmax(x, size)` replaces `x[0, size)` by its softmax and touches nothing else |
| QuantizeModel.RoundHalfEven | week1_d4/quantize_model.py:18 | `np.round`: within 0.5 of the argument, even at halfway cases |
| QuantizeModel.RoundingAgreesOffTies | week1_d4/quantize_model.py:18 | `np.round` and `std::round` agree except at halfway cases; at 2.5 they give 2 and 3 |
| QuantizeModel.Int8Cast | week1_d4/quantize_model.py:18 | `astype(np.int8)` gives a value in [-128, 127] congruent to its argument modulo 256, and the argument itself when that is in range |
| QuantizeModel.NpQuantizeValue | week1_d4/quantize_model.py:18-19 | after the `int8` cast and `np.clip` the value lies in [-7, 7] |
| QuantizeModel.CastWrapsBeforeClip | week1_d4/quantize_model.py:18-19 | the per-element steps of the two programs differ at the same scale once the cast wraps: at scale 1 the element 200 becomes -7 through NumPy's round, cast and clip, but 7 through the C++ round and clamp. Neither program reaches such a scale, since both use `max_abs / 7` (`RoundEvenWithinSeven`) |
| QuantizeModel.NpQuantized | week1_d4/quantize_model.py:18-19 | one clipped value per element, each within the signed 4-bit range |
| QuantizeModel.NpPacked | week1_d4/quantize_model.py:22-26 | the packing of `n` clipped values has `ceil(n / 2)` bytes |
| QuantizeModel.QuantizeMatrix | week1_d4/quantize_model.py:9-36 | empty input raises (`np.max`); an odd count raises (`quantized[i+1]`); otherwise the result is `scale = max_abs / 7` and `size // 2` bytes, byte j = `((q[2j] & 0x0F) << 4) | (q[2j+1] & 0x0F)` |
| QuantizeModel.PackPairs | week1_d4/quantize_model.py:22-26 | the pair loop completes exactly when the count is even, and then fills `int4_packed` with the packing |
| QuantizeModel.RoundEvenWithinSeven | week1_d4/quantize_model.py:18-19 | with `scale = max_abs / 7`, `np.round` already lies in [-7, 7], so the `int8` cast and the clip leave it unchanged |
| QuantizeModel.NpRoundTrip | week1_d4/quantize_model.py:23-26 | decoding the packed bytes with `dequantize_int4` recovers every clipped value, and every element within `scale / 2` |
| QuantizeModel.PackersAgreeOffTies | week1_d4/quantize_model.py:23-26 | when no `x / scale` is a halfway case and no rounded value leaves the `int8` range (true at `scale = max_abs / 7`), the NumPy bytes equal the bytes `quantize_symmetric` writes |
| QuantizeModel.PackersDifferAtTie | week1_d4/quantize_model.py:18 | for `[7, 2.5]` the two packers write different bytes |
| KvCacheDemo.KVCache.constructor | week1_d2/kv_cache_demo.cpp:17 | shape as given, `seq_len = 0`, both vectors empty |
| KvCacheDemo.KVCache.Append | week1_d2/kv_cache_demo.cpp:20-26 | `new_k` must be one token wide; keys and values are extended at the end, earlier contents kept, `seq_len` grows by 1, the shape never changes, `k.size() == seq_len * width` is kept |
| KvCacheDemo.KVCache.MemoryMb | week1_d2/kv_cache_demo.cpp:29-32 | the footprint is `(k.size() + v.size()) * 4` bytes in MiB, never negative |
| KvCacheDemo.StoredTokens | week1_d2/kv_cache_demo.cpp:21-25 | a cache of non-zero width holds exactly `seq_len` tokens of keys |
| KvCacheOptimized.KVCacheOptimized.constructor | week1_d2/kv_cache_optimized.cpp:15-21 | two fresh, distinct buffers of `max_len * dim` floats; no token stored |
| KvCacheOptimized.KVCacheOptimized.AppendAndAttend | week1_d2/kv_cache_optimized.cpp:29-47 | a full cache is left unchanged; otherwise `new_k` / `new_v`, which must fit in the buffers from `current_seq_len * hidden_dim` on, are copied there, every other slot is kept, the counter grows by 1 and never exceeds `max_seq_len` |
| KvCacheOptimized.KVCacheOptimized.ScanKeys | week1_d2/kv_cache_optimized.cpp:43-46 | the scan reads only `k_buffer[0, current_seq_len * hidden_dim)`, sums it in order and changes nothing |
| KvCacheOptimized.Written | week1_d2/kv_cache_optimized.cpp:35 | after a `memcpy` at `offset`, the copied range holds the source and every slot outside it is unchanged |
| KvCacheOptimized.Copy | week1_d2/kv_cache_optimized.cpp:35-36 | the array after the copy is the `Written` buffer |
| Attention.Scores | week1_d2/real_kv_cache.cpp:50 | the score step yields one score per cached token |
| Attention.KeyDots | week1_d2/real_kv_cache.cpp:49 | the intended scores `Q × K^T`, one per cached token |
| Attention.ScoresSingleToken | week1_d2/real_kv_cache.cpp:46-50 | with one cached token, the code's score is the true dot product of `q` with the key row |
| Attention.ScoresDifferFromDots | week1_d3/real_attention.cpp:48-50 | for every `seq_len >= 2` at width 768, a query and keys where the code's score for row 0 (0) differs from the dot product (1); the width condition is part of the statement |
| Attention.WeightedFirstIsProduct | week1_d3/real_attention.cpp:55-60 | the hand-written `sum scores[i] * v[i*hidden_dim]` equals `output[0]` of `scores × V` |
| Attention.WeightedFirstSum | week1_d2/real_kv_cache.cpp:56-59 | the weighted-sum loop returns `sum over i of scores[i] * v[i*hidden_dim]`, reading only component 0 of each value row |
| RealKvCache.RealKVCache.constructor | week1_d2/real_kv_cache.cpp:34-37 | both vectors empty, `hidden_dim = 768` |
| RealKvCache.RealKVCache.Append | week1_d2/real_kv_cache.cpp:39-42 | `k` and `v` grow by exactly `hidden_dim` floats each, prefixes kept, token count + 1 |
| RealKvCache.RealKVCache.ComputeWithCache | week1_d2/real_kv_cache.cpp:45-61 | needs at least one cached token; returns the softmax-weighted sum of component 0 of the value rows, over the code's scores |
| RealKvCache.RealKVCache.ComputeWithoutCache | week1_d2/real_kv_cache.cpp:64-74 | the same computation on caller-supplied buffers of `seq_len` rows |
| RealKvCache.RealKVCache.CachedMatchesUncached | week1_d2/real_kv_cache.cpp:45-74 | both results are the attention value `AttendFirst` of `q` over the cached `k`, `v` and `k.size() / hidden_dim` tokens, so `compute_with_cache(q)` equals `compute_without_cache(q, k.data(), v.data(), k.size() / hidden_dim)` |
| RealAttention.RealKVCache.constructor | week1_d3/real_attention.cpp:34-37 | both vectors empty, `hidden_dim = 768` |
| RealAttention.RealKVCache.Append | week1_d3/real_attention.cpp:39-42 | `k` and `v` grow by exactly `hidden_dim` floats each, prefixes kept, token count + 1 |
| RealAttention.RealKVCache.ComputeWithCache | week1_d3/real_attention.cpp:45-61 | needs at least one cached token; `output[0]` of `softmax(scores) × V` equals the week1_d2 weighted sum, and `k_proj` / `v_proj` play no part |

## Left out

- All `main` functions, `std::chrono` timing, console output and `np.save` / `print` in quantize_model.py: benchmark and reporting code.
- IEEE float semantics: floats are exact reals, so the rounding error of float sums and divisions is not modelled, and neither are NaN or infinity.
- `expf` is not modelled. It is a parameter that only has to be non-negative and positive at 0.
- The float32 conversion and flattening in quantize_model.py:10: the model takes the flattened matrix as a sequence.
- The dead first `static_cast<int8_t>(std::round(...))` at week1_d4/quantize.cpp:20: its value is overwritten on line 24 before it is read.
- `astype(np.int8)` at week1_d4/quantize_model.py:18 is modelled as wrap-around modulo 256 (`Int8Cast`). NumPy leaves out-of-range float-to-int casts to the platform; wrap-around is the common behaviour.
- QuantizeSymmetric and QuantizeMatrix: an all-zero non-empty tensor gives scale 0 and an unguarded 0/0. These are excluded by a precondition rather than modelled as NaN.
- `dequantize_symmetric` / `dequantize_int4` do not check that `size` fits the byte buffer, and `quantize_symmetric` does not check that its output buffer has `ceil(size / 2)` bytes. The model requires these sizes and does not model out-of-bounds reads or writes. The caller at week1_d4/quantize.cpp:58 allocates `size / 2` bytes, one short for an odd `size`, where line 28 would then write past the end; that caller uses an even `size`.
- KvCacheOptimized.KVCacheOptimized.constructor: `new float[n]` leaves the buffers uninitialised. The model promises nothing about their initial contents either (Dafny's `new real[n]` contents are arbitrary to the verifier), and no proof depends on them.
- The destructor `~KVCacheOptimized` (`delete[]`): memory management.
- The `volatile` qualifier of the scan at week1_d2/kv_cache_optimized.cpp:43: only the scan's read-only effect is kept, and its sum is discarded as in the code.
- The compile errors in week1_d2/kv_cache_optimized.cpp are modelled as their evident intent: `<vectorr>` at :2, the missing `};` at :48, the undeclared `hidden_dim` and `seq_len` in the driver code.
- Negative dimensions and sizes: every dimension is a natural number.
- KvCacheDemo.KVCache.Append: the size of `new_v` is unchecked in the code, as in the model. `v.size() == seq_len * width` is therefore not an invariant.
- KvCacheDemo.KVCache.Append: the `assert` on the size of `new_k` at week1_d2/kv_cache_demo.cpp:21 becomes a precondition. The abort of a debug build is not modelled, and neither is the unchecked append under `NDEBUG`.
- The C++ code has no capacity error, no input error for an empty tensor or an oversized `dequantize` count, and no special scale for an all-zero tensor, and the model adds none: a full `KVCacheOptimized` silently drops the token, `quantize_symmetric` quantizes an empty tensor to no bytes with scale 0, and the other cases are preconditions. In `quantize_matrix`, by contrast, `np.max` raises `ValueError` on an empty matrix (the `EmptyInput` outcome).
- 32-bit `int` overflow: the C++ dimensions and index products (`max_seq_len * hidden_dim` at week1_d2/kv_cache_optimized.cpp:17 and :34, `i * K + k` and `k * N + j` at week1_d2/real_kv_cache.cpp:13, `batch_size * num_heads * head_dim` at week1_d2/kv_cache_demo.cpp:21, `current_seq_len * hidden_dim` at week1_d2/kv_cache_optimized.cpp:44) are `int`s, whose overflow is undefined behaviour. The model's dimensions are unbounded naturals, so it assumes every such product fits in a 32-bit `int`.
- week1_d4/load_npy.hpp, week1/load_binary.cpp, week1_d2/no_cache_demo.cpp and the export scripts (week1/export_weights.py, week1_d2/export_real_weights.py, week1_d2/export_with_cache.py, week1_d3/export_real_weights.py): file I/O, tensor export and timing-only allocation, with no logic of their own.
- The three textually identical matrix products (week1_d2/real_kv_cache.cpp:8-18, week1_d3/real_attention.cpp:8-18, week1_d4/inference_int4.cpp:26-35) are one `LinAlg.MatMul`. The two identical `softmax` functions are one `Softmax.SoftmaxInPlace`.
