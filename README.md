# SpO2 and heart-rate estimator for the MAX30102: a Dafny model

The firmware reads red and infrared light samples from a MAX30102 pulse-oximetry
sensor and turns a batch of them into two numbers: an oxygen saturation (SpO2, in
percent) and a heart rate (in beats per minute). This project models three parts of
it and proves properties about them:

- **`main/src/fft.c`** (module `Fft`, file `Fft.dfy`) is an in-place radix-2
  Cooley-Tukey FFT. The model covers:
  - `reverse_bits`;
  - the bit-reversal swap loop;
  - the stage, block and butterfly loop nest;
  - `hamming_window`.

  The model keeps the arrays, the loops and the swaps of the C code. Each method is
  proved against a specification function on sequences: `ReversedBits`,
  `BitReversed`/`SwapPass`, `Stage`/`Stages`/`Transform` and `Hamming`. Properties of
  the transform are lemmas about those functions. They are:
  - the bit reversal is an involution and a permutation;
  - in every stage, each slot is written by exactly one butterfly;
  - the transform is additive, commutes with scaling by a real, and maps zero to zero;
  - bin 0 is the sum of the input.
- **`main/src/heart.c`** (module `Heart`, file `Heart.dfy`) covers two functions.
  `compute_spo2_and_heart_rate` computes the DC and AC levels, applies the
  signal-quality gate, evaluates the ratio of ratios and clamps SpO2. It then builds
  the windowed, zero-padded FFT input. `find_peak_bpm` does the arg-max peak search
  and the truncating bin-to-BPM conversion. The top-level method is proved equal to
  the pure function `Estimate`. The promises of the code are lemmas about `Estimate`
  and its parts:
  - a weak signal gives `(0, 0)`;
  - `spo2 ∈ [0, 100]`, with exact values at both clamp ends;
  - with 128 points at 60 samples/s, exactly bins 1..6 are searched;
  - the BPM is one of 0, 28, 56, 84, 112, 140, 168;
  - the peak is the first bin of maximal magnitude.
- **`main/src/max30102.c`, lines 94-95** (module `Max30102`, file `Max30102.dfy`)
  decode six FIFO bytes into two 18-bit readings. The model works in `bv8`/`bv32`. It
  proves:
  - the 18-bit bound and the value formula;
  - that the two channels are independent;
  - that the upper bits of each first byte are masked away;
  - the encode/decode round trips.

`Types.dfy` (module `Types`) holds `uint32_t` as `u32` and `complex_t` as `Complex`,
with exact real parts. The transcendental functions are inputs:
- `cosine(i, n)` stands for `cosf(2*pi*i/(n-1))` in `hamming_window`.
- `root(len)` stands for the twiddle `wlen = {cosf(-2*pi/len), sinf(-2*pi/len)}`.

No property proved here depends on their values.

Where a source comment and the code differ, the model follows the code. The comment at
`main/src/heart.c:18` gives the search band as 30–180 BPM (about 0.5–3 Hz). Truncating
the bin bounds, as lines 19-20 do, gives bins 1..6, which are 28.125–168.75 BPM. The
top bin's truncated value is 168.

## Model

| member | source | states |
|---|---|---|
| Types.Mul | main/src/fft.c:56-67 | the complex product `(a.re·b.re − a.im·b.im, a.re·b.im + a.im·b.re)`, as `treal`/`timag` and the `w = w * wlen` update compute it |
| Types.Mag2 | main/src/heart.c:24-25 | `re² + im²`, the square of the magnitude `mag`; never negative |
| Fft.BitReversed | main/src/fft.c:32-39 | the bit-reversal permutation: slot `i` of the result is slot `rev(i)` of the input |
| Fft.SwapPass | main/src/fft.c:32-39 | the buffer after the first `i` rounds of the swap loop: round `m` swaps slots `m` and `rev(m)` when `rev(m) > m` and otherwise leaves the buffer alone |
| Fft.Butterfly | main/src/fft.c:52-62 | one butterfly: `(even + w·odd, even − w·odd)` |
| Fft.Twiddle | main/src/fft.c:49-67 | the running `w` after `j` updates `w = w·wlen` from `1 + 0i`, i.e. `wlen^j` |
| Fft.StageAt | main/src/fft.c:48-62 | slot `k` after the stage with block length `len`: the first or the second output of the butterfly of block `k − k mod len` that writes `k` |
| Fft.Stage | main/src/fft.c:48-69 | the whole buffer after the two inner loops for one `len` |
| Fft.Stages | main/src/fft.c:42-70 | the first `st` stages, with `len = 2, 4, …, 2^st` and twiddle `root(len)` at stage `len` |
| Fft.Transform | main/src/fft.c:27-71 | what `fft` computes: the bit-reversal permutation, then all `bits` stages |
| Fft.Hamming | main/src/fft.c:5-10 | the `n` weights `0.54 − 0.46·cosine(i, n)` |
| Fft.ReversedBits | main/src/fft.c:13-22 | the bit reversal of the low `bits` bits of `x` is below `2^bits` |
| Fft.ReverseBits | main/src/fft.c:15-22 | the shift loop returns exactly the reversal of the low `bits` bits of `x`, and it is below `2^bits` |
| Fft.ReversedBitsValue | main/src/fft.c:13-22 | `ReversedBits(x, n)` is the value of the `n` low bits of `x` read in the opposite order |
| Fft.ReversedBitsInvolution | main/src/fft.c:13-22 | reversing the bits of any `x < 2^bits` twice gives `x` back |
| Fft.ReversedBitsExample | main/src/fft.c:14 | with 4 bits, 3 (0011) becomes 12 (1100) |
| Fft.SwapPassAt | main/src/fft.c:32-39 | after `i` rounds of the swap loop, slot `k` holds the original `s[rev(k)]` once `k` or `rev(k)` is below `i`; otherwise it holds the original `s[k]` |
| Fft.SwapPassPermutes | main/src/fft.c:32-39 | every prefix of the swap loop preserves the multiset of the buffer |
| Fft.SwapPassComplete | main/src/fft.c:32-39 | after all `n` rounds the buffer is the bit-reversal permutation: slot `i` holds the original slot `rev(i)` |
| Fft.BitReversedPermutes | main/src/fft.c:32-39 | the bit-reversal permutation preserves the multiset of elements |
| Fft.BitReversedInvolution | main/src/fft.c:32-39 | applying the bit-reversal permutation twice restores the buffer |
| Fft.BitReversal | main/src/fft.c:29-39 | for a buffer of `2^bits` slots with `bits <= 30` (the largest power of two an `int` holds), the in-place loop (swap only when `j > i`) leaves `buf[i] == old buf[rev(i)]` for every `i` and keeps the multiset |
| Fft.IsButterfly | main/src/fft.c:48-50 | the `(i, j)` pairs the two inner loops visit: `i` a multiple of `len` below `n`, and `j < len/2` |
| Fft.Slot | main/src/fft.c:52-53 | the slot a butterfly reads and writes: `i+j` for the even half, `i+j+len/2` for the odd half |
| Fft.BlockOut | main/src/fft.c:50-67 | slot `k` of block `i` after the `j` loop: `even + w·odd` in the first half and `even − w·odd` in the second, with `w` the `(k−i) mod len/2`-th twiddle |
| Fft.SlotInBounds | main/src/fft.c:48-53 | both slots `i+j` and `i+j+len/2` of every butterfly lie in `[0, n)` |
| Fft.SlotCoverage | main/src/fft.c:48-53 | every slot `k < n` is the even or the odd slot of some butterfly `(i, j)` of the stage |
| Fft.SlotDecode | main/src/fft.c:48-53 | the block, offset and half of a butterfly slot recover that butterfly's `i`, `j` and parity |
| Fft.SlotUnique | main/src/fft.c:48-53 | two butterflies of one stage that write the same slot are the same butterfly, and in the same role, so each slot is written exactly once |
| Fft.ButterflyInverse | main/src/fft.c:52-62 | new_even + new_odd = 2·even and new_even − new_odd = 2·(w·odd) |
| Fft.StageAtBlock | main/src/fft.c:48-62 | inside block `i`, slot `k` after the stage is `even + w_j·odd` in the first half and `even − w_j·odd` in the second, with `w_j = wlen^j` |
| Fft.ButterflyBlock | main/src/fft.c:49-68 | the `j` loop with `w` running from `1+0i` by `w = w*wlen` rewrites exactly block `[i, i+len)` with its butterfly outputs; all other slots are unchanged |
| Fft.ButterflyStage | main/src/fft.c:48-69 | the `i` loop over the blocks leaves exactly the stage function of the old buffer |
| Fft.Fft | main/src/fft.c:27-71 | `len` runs through 2, 4, …, n; the buffer ends as the bit-reversal followed by every stage, with twiddle `root(len)` at stage `len` |
| Fft.ButterflyAdditive | main/src/fft.c:55-62 | the butterfly of a sum of inputs is the sum of the butterflies |
| Fft.ButterflyHomogeneous | main/src/fft.c:55-62 | the butterfly commutes with scaling by a real |
| Fft.StageAdditive | main/src/fft.c:48-69 | one stage of a sum of buffers is the sum of the stages |
| Fft.StageHomogeneous | main/src/fft.c:48-69 | one stage commutes with scaling by a real |
| Fft.StagesAdditive | main/src/fft.c:42-70 | the first `st` stages of a sum of buffers are the sum of the stages |
| Fft.StagesHomogeneous | main/src/fft.c:42-70 | the first `st` stages commute with scaling by a real |
| Fft.TransformAdditive | main/src/fft.c:27-71 | `fft(a + b) = fft(a) + fft(b)` for any twiddles |
| Fft.TransformHomogeneous | main/src/fft.c:27-71 | `fft(c·a) = c·fft(a)` for any real `c` and any twiddles |
| Fft.TransformZero | main/src/fft.c:32-70 | an all-zero buffer stays all zero, whatever values the twiddles take |
| Fft.StagesBlockSums | main/src/fft.c:42-70 | after `st` stages, the first slot of each block of `2^st` holds the sum of that block of the stage input |
| Fft.StageBlockSums | main/src/fft.c:48-62 | one stage combines the block sums of length `h` into block sums of length `2h` (the `j = 0` butterfly has `w = 1`) |
| Fft.SumCPermutation | main/src/fft.c:32-39 | rearranging a buffer, as the bit reversal does, does not change its sum |
| Fft.TransformDc | main/src/fft.c:27-71 | bin 0 of the result is the sum of all inputs, whatever the twiddles |
| Fft.HammingWindow | main/src/fft.c:5-10 | writes exactly `window[0..n-1]`, each with `0.54 - 0.46·cos(2πi/(n-1))`, and leaves the rest of the array unchanged |
| Heart.Mean | main/src/heart.c:43-48 | the DC level: the sum of the samples divided by their number; never negative |
| Heart.WeakSignal | main/src/heart.c:59 | the gate: `ir_dc < 10000`, `red_ac < 20` or `ir_ac < 20` |
| Heart.Ratio | main/src/heart.c:66 | `R = (red_ac / red_dc) / (ir_ac / ir_dc)`, defined when the three divisors are non-zero |
| Heart.Spo2Of | main/src/heart.c:69-73 | `110 − 25R`, capped at 100 and then floored at 0 |
| Heart.FftInput | main/src/heart.c:85-89 | 128 slots whose real part is `(ir[i] − avg)·window[i]` below `samples` and 0 from `samples` on; every imaginary part is 0 |
| Heart.Spectrum | main/src/heart.c:76-92 | the transform of the FFT input built from the infrared mean and the 128-point Hamming window |
| Heart.HeartRate | main/src/heart.c:92-95 | the BPM of the spectrum's peak bin |
| Heart.FreqRes | main/src/heart.c:14 | `freq_res = 60 / n` Hz per bin |
| Heart.MinBin | main/src/heart.c:19 | `min_bin = ⌊0.5 / freq_res⌋` |
| Heart.MaxBin | main/src/heart.c:20 | `max_bin = ⌊3 / freq_res⌋` |
| Heart.BinToBpm | main/src/heart.c:34 | `⌊idx · freq_res · 60⌋`; the C cast truncates, which is the floor for the non-negative bins |
| Heart.Scan | main/src/heart.c:15-31 | `(max_idx, max_mag)` after the bins `lo .. i−1`: it starts at `(0, 0)` and takes a bin only when its magnitude is strictly greater |
| Heart.IsPeak | main/src/heart.c:15-31 | the independent definition of the peak: the first bin of largest magnitude, or 0 when no bin has a positive magnitude |
| Heart.PeakBin | main/src/heart.c:19-31 | the scan over `min_bin ..= max_bin` |
| Heart.Estimate | main/src/heart.c:38-96 | `(0, 0)` when `WeakSignal` holds of the infrared DC level and both AC levels; otherwise `(Spo2Of(R), HeartRate)` |
| Heart.FftSizeIsPow2 | main/src/heart.c:7 | `FFT_SIZE = 128 = 2^7` |
| Heart.FFT_SIZE | main/src/heart.c:7 | the transform length, 128 |
| Heart.SAMPLE_RATE | main/src/heart.c:10 | the sample rate, 60 measurements per second |
| Heart.Abs | main/src/heart.c:52-53 | `fabsf`: `x` when `x ≥ 0`, otherwise `−x` |
| Heart.Total | main/src/heart.c:43-46 | the DC accumulator of non-negative samples is non-negative |
| Heart.AbsDev | main/src/heart.c:51-54 | the AC accumulator of absolute deviations is non-negative |
| Heart.Ac | main/src/heart.c:50-56 | the AC level is non-negative |
| Heart.AbsDevFromZero | main/src/heart.c:51-54 | for unsigned samples, the deviations from 0 add up to the total |
| Heart.AcPositiveMean | main/src/heart.c:59-66 | a channel with a positive AC level has a positive DC level, so `red_ac / red_dc` in `R` never divides by zero past the gate |
| Heart.ConstantChannel | main/src/heart.c:43-56 | a constant channel has its value as DC level and AC level 0 |
| Heart.ConstantIrGated | main/src/heart.c:50-63 | a constant infrared channel is always gated to `(0, 0)` |
| Heart.Spo2Clamp | main/src/heart.c:69-73 | the clamped SpO2 lies in `[0, 100]`; it is exactly 100 when `110 − 25R > 100`, exactly 0 when `110 − 25R < 0`, and `110 − 25R` otherwise |
| Heart.FftInputShape | main/src/heart.c:85-89 | every imaginary part of the FFT input is 0; every real part at `i >= samples` is 0; below `samples` it is `(ir[i] − avg)·window[i]` |
| Heart.FftInputReadsPrefix | main/src/heart.c:85-89 | the FFT input depends only on `ir[0 .. min(samples, 128) − 1]` |
| Heart.BinRange | main/src/heart.c:14-20 | `min_bin = ⌊n/120⌋` and `max_bin = ⌊n/20⌋`, and the searched bins lie in `[0, n)` |
| Heart.BpmOfBin | main/src/heart.c:34 | the returned BPM is `⌊idx·3600/n⌋` |
| Heart.ScanMax | main/src/heart.c:15-31 | the running `(max_idx, max_mag)` holds the largest magnitude so far (0 if none is positive) and the first bin that reaches it; `max_idx` stays 0 while no bin is positive |
| Heart.ScanIsPeak | main/src/heart.c:15-31 | the scan's index is the peak: the first in-range bin of maximal magnitude (ties go to the first because of the strict `>`), or 0 when no bin has a positive magnitude |
| Heart.PeakUnique | main/src/heart.c:22-31 | the peak is unique, so it pins down the scan's result |
| Heart.FindPeakBpm | main/src/heart.c:13-35 | the loop over `min_bin ..= max_bin` returns the BPM of the peak bin |
| Heart.PeakBpm128 | main/src/heart.c:14-34 | with `n = 128` at 60 samples/s the searched bins are exactly 1 to 6, and the BPM is one of 0, 28, 56, 84, 112, 140, 168 |
| Heart.EstimateGate | main/src/heart.c:59-66 | if `ir_dc < 10000`, `red_ac < 20` or `ir_ac < 20`, the result is exactly `(0, 0)`; otherwise both DC levels are positive and the BPM is that of the spectrum's peak |
| Heart.EstimateBounds | main/src/heart.c:59-95 | every result has `spo2 ∈ [0, 100]` and a BPM among the seven values |
| Heart.DcLevels | main/src/heart.c:43-48 | the first loop yields the mean of each channel |
| Heart.AcLevels | main/src/heart.c:51-56 | the second loop yields the mean absolute deviation of each channel from the given DC level |
| Heart.InfraredMean | main/src/heart.c:81-83 | `avg` recomputed for the FFT input is the infrared mean, equal to `ir_dc` |
| Heart.FillFftInput | main/src/heart.c:85-89 | the fill loop produces the mean-free, windowed, zero-padded FFT input |
| Heart.ComputeSpo2AndHeartRate | main/src/heart.c:38-96 | the outputs are the estimate of the first `samples` values: `(0, 0)` for a weak signal, otherwise the clamped `110 − 25R` and the BPM of the peak; `spo2 ∈ [0, 100]` and the BPM is among the seven values; the transform runs exactly when the signal passes the gate |
| Max30102.Word18 | main/src/max30102.c:94 | the decoded value is below `2^18` and equals `(hi mod 4)·65536 + mid·256 + lo` |
| Max30102.ReadFifoSample | main/src/max30102.c:94-95 | both decoded readings are below `2^18` |
| Max30102.ChannelsIndependent | main/src/max30102.c:94-95 | `red` depends only on `raw[0..2]`, `ir` only on `raw[3..5]` |
| Max30102.UpperBitsIgnored | main/src/max30102.c:94-95 | the upper six bits of the first byte of a channel do not affect its value |
| Max30102.DecodeEncode | main/src/max30102.c:94 | splitting any `v < 2^18` into three big-endian bytes and decoding them returns `v` |
| Max30102.EncodeDecode | main/src/max30102.c:94 | re-encoding a decoded value gives the three bytes back, with the masked bits of the first byte cleared |

## Left out

- Floating point: all sample, window, twiddle and spectrum values are exact reals. Float rounding is not modelled. This covers the sums, the divisions, the ratio `R`, and the `uint32_t`-to-`float` conversions.
- `cosf`, `sinf`: these become the inputs `cosine` and `root`. The model does not prove that the transform equals the discrete Fourier transform with `root(len) = e^(-2πi/len)`. It does not prove that the window lies in `[0.08, 1]` either.
- `sqrtf` in `find_peak_bpm`: the model compares squared magnitudes. The square root is monotone on non-negative values, so the comparisons pick the same bin.
- `log2(n)` in `fft`: `Fft.Fft` takes the exponent `bits` with `n == 2^bits`. It does not model `log2` on a length that is not a power of two.
- Fft.Fft: requires `n <= 2^29`. At `n = 2^30` the C `int` `len <<= 1` overflows after the last stage, and that is not modelled.
- Fft.ReverseBits: takes `bits <= 32`. With more bits the 32-bit `result` would lose its top bits, and that is not modelled.
- Fft.HammingWindow: takes `n` as a natural number. A negative `n`, for which the loop does nothing, is not modelled. The division by zero in the cosine argument at `n = 1` is hidden inside `cosine`.
- Loop structure: some loops are their own methods, with the same loop bodies in the same order. From `fft` these are `BitReversal`, `ButterflyStage` and `ButterflyBlock`. From `compute_spo2_and_heart_rate` they are `DcLevels`, `AcLevels`, `InfraredMean` and `FillFftInput`.
- Component writes: the four component writes of a butterfly are two complex writes, and the twiddle update is one complex product. Both read the old values first, so the result is the same.
- Heart.ComputeSpo2AndHeartRate: requires `samples > 0`. The C code divides by `samples`.
- Heart.ComputeSpo2AndHeartRate: the early `return` is stated through the ghost result `fftRan`, which is true exactly when the gate passes. That the window and the FFT input are not built either on the early path is visible only in the method body.
- Fft.BitReversal: requires `bits <= 30`, because `n` is a C `int`. From `2^31` on, `int j` would turn a reversal negative and the swap would be skipped; no `int` length reaches that.
- Heart.FindPeakBpm: requires `n <= fftOutput.Length`. That is the buffer the caller passes.
- Max30102.Word18: the value formula is stated in `bv32` arithmetic, not as an unbounded integer. Every term is below `2^18`, so no wrap-around occurs and the two readings agree.
- I2C and sensor setup: `read_register`, `write_register` and `max30102_init` are foreign calls and register configuration, and are not part of this model. The six raw bytes are an input.
- The acquisition loop in `main/main.c` is not part of this model. It covers the FreeRTOS task, the delays, the logging and the infinite loop.
- Calibration comments are not reconciled. The source comments say 100 Hz and bits [23:6]. The model follows the code: 60 samples/s and the mask `0x03FFFF`, which keeps bits [17:0].
