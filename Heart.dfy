/**
 * The vital-sign estimator of `main/src/heart.c`: DC and AC levels of the red and
 * infrared channels, the signal-quality gate, the SpO2 ratio formula with its clamp,
 * the windowed and zero-padded FFT input, and the peak search that turns the
 * dominant bin into beats per minute. Sample values are exact reals.
 */
module Heart {
  import opened Types
  import opened Fft

  /** `FFT_SIZE`, a power of two: `2^FFT_BITS`. */
  const FFT_SIZE: nat := 128
  const FFT_BITS: nat := 7

  /** `SAMPLE_RATE`, measurements per second. */
  const SAMPLE_RATE: nat := 60

  lemma FftSizeIsPow2()
    ensures Pow2(FFT_BITS) == FFT_SIZE
  {
    assert Pow2(4) == 16;
  }

  // ---------------------------------------------------------------------------
  // DC and AC levels
  // ---------------------------------------------------------------------------

  /** `fabsf`. */
  function Abs(x: real): real
  {
    if x < 0.0 then -x else x
  }

  /** The samples added up as reals, from the left (the accumulator of the DC loop). */
  function Total(s: seq<u32>): (t: real)
    ensures t >= 0.0
  {
    if |s| == 0 then 0.0 else Total(s[..|s| - 1]) + s[|s| - 1] as real
  }

  /** The DC level: the mean of the samples. */
  function Mean(s: seq<u32>): (m: real)
    requires |s| > 0
    ensures m >= 0.0
  {
    Total(s) / |s| as real
  }

  /** The summed absolute deviations from `c` (the accumulator of the AC loop). */
  function AbsDev(s: seq<u32>, c: real): (d: real)
    ensures d >= 0.0
  {
    if |s| == 0 then 0.0 else AbsDev(s[..|s| - 1], c) + Abs(s[|s| - 1] as real - c)
  }

  /** The AC level: the mean absolute deviation from the mean. */
  function Ac(s: seq<u32>): (a: real)
    requires |s| > 0
    ensures a >= 0.0
  {
    AbsDev(s, Mean(s)) / |s| as real
  }

  /** Samples are non-negative, so their deviations from 0 add up to their total. */
  lemma {:induction false} AbsDevFromZero(s: seq<u32>)
    ensures AbsDev(s, 0.0) == Total(s)
  {
    if |s| > 0 {
      AbsDevFromZero(s[..|s| - 1]);
    }
  }

  /** A channel with a positive AC level has a positive DC level. */
  lemma AcPositiveMean(s: seq<u32>)
    requires |s| > 0 && Ac(s) > 0.0
    ensures Mean(s) > 0.0
  {
    AbsDevFromZero(s);
    assert Total(s) == Mean(s) * |s| as real;
  }

  lemma {:induction false} ConstantTotal(s: seq<u32>, c: u32)
    requires forall i :: 0 <= i < |s| ==> s[i] == c
    ensures Total(s) == |s| as real * c as real
  {
    if |s| > 0 {
      ConstantTotal(s[..|s| - 1], c);
    }
  }

  lemma {:induction false} ConstantAbsDev(s: seq<u32>, c: u32)
    requires forall i :: 0 <= i < |s| ==> s[i] == c
    ensures AbsDev(s, c as real) == 0.0
  {
    if |s| > 0 {
      ConstantAbsDev(s[..|s| - 1], c);
    }
  }

  /** A constant channel has its value as DC level and no AC level. */
  lemma ConstantChannel(s: seq<u32>, c: u32)
    requires |s| > 0 && forall i :: 0 <= i < |s| ==> s[i] == c
    ensures Mean(s) == c as real && Ac(s) == 0.0
  {
    ConstantTotal(s, c);
    ConstantAbsDev(s, c);
  }

  // ---------------------------------------------------------------------------
  // Gate, ratio and clamp
  // ---------------------------------------------------------------------------

  /** The signal-quality test: too little infrared light, or too little pulsation. */
  predicate WeakSignal(irDc: real, redAc: real, irAc: real)
  {
    irDc < 10000.0 || redAc < 20.0 || irAc < 20.0
  }

  /** The ratio of ratios `R = (red_ac / red_dc) / (ir_ac / ir_dc)`. */
  function Ratio(redDc: real, redAc: real, irDc: real, irAc: real): real
    requires redDc != 0.0 && irDc != 0.0 && irAc != 0.0
  {
    (redAc / redDc) / (irAc / irDc)
  }

  /** `110 - 25 R`, then limited to 100 from above and to 0 from below. */
  function Spo2Of(r: real): real
  {
    var v := 110.0 - 25.0 * r;
    var v1 := if v > 100.0 then 100.0 else v;
    if v1 < 0.0 then 0.0 else v1
  }

  /** The clamp lands in `[0, 100]`, is exact at both ends and leaves in-range values alone. */
  lemma Spo2Clamp(r: real)
    ensures 0.0 <= Spo2Of(r) <= 100.0
    ensures 110.0 - 25.0 * r > 100.0 ==> Spo2Of(r) == 100.0
    ensures 110.0 - 25.0 * r < 0.0 ==> Spo2Of(r) == 0.0
    ensures 0.0 <= 110.0 - 25.0 * r <= 100.0 ==> Spo2Of(r) == 110.0 - 25.0 * r
  {
  }

  // ---------------------------------------------------------------------------
  // The FFT input
  // ---------------------------------------------------------------------------

  /**
   * `fft_input`: the first `samples` infrared values less `avg`, zero past them,
   * times the window, as real parts; every imaginary part 0.
   */
  function FftInput(ir: seq<u32>, avg: real, window: seq<real>): (r: seq<Complex>)
    requires |window| == FFT_SIZE
    ensures |r| == FFT_SIZE
  {
    seq(FFT_SIZE, i requires 0 <= i < FFT_SIZE =>
      Complex((if i < |ir| then ir[i] as real - avg else 0.0) * window[i], 0.0))
  }

  /** Imaginary parts are 0 and the padding past the samples is 0. */
  lemma FftInputShape(ir: seq<u32>, avg: real, window: seq<real>, i: nat)
    requires |window| == FFT_SIZE && i < FFT_SIZE
    ensures FftInput(ir, avg, window)[i].im == 0.0
    ensures i >= |ir| ==> FftInput(ir, avg, window)[i].re == 0.0
    ensures i < |ir| ==> FftInput(ir, avg, window)[i].re == (ir[i] as real - avg) * window[i]
  {
  }

  function Min(a: int, b: int): int
  {
    if a < b then a else b
  }

  /** Only the first `min(samples, FFT_SIZE)` infrared values reach the FFT input. */
  lemma FftInputReadsPrefix(ir1: seq<u32>, ir2: seq<u32>, avg: real, window: seq<real>)
    requires |window| == FFT_SIZE && |ir1| == |ir2|
    requires ir1[..Min(|ir1|, FFT_SIZE)] == ir2[..Min(|ir2|, FFT_SIZE)]
    ensures FftInput(ir1, avg, window) == FftInput(ir2, avg, window)
  {
    forall i | 0 <= i < FFT_SIZE
      ensures FftInput(ir1, avg, window)[i] == FftInput(ir2, avg, window)[i]
    {
      if i < |ir1| {
        assert ir1[i] == ir1[..Min(|ir1|, FFT_SIZE)][i];
      }
    }
  }

  // ---------------------------------------------------------------------------
  // find_peak_bpm
  // ---------------------------------------------------------------------------

  /** `freq_res`: Hz per bin for an `n`-point transform. */
  function FreqRes(n: nat): real
    requires n > 0
  {
    SAMPLE_RATE as real / n as real
  }

  /** `min_bin`: the bin of 0.5 Hz (30 BPM), truncated. */
  function MinBin(n: nat): int
    requires n > 0
  {
    (0.5 / FreqRes(n)).Floor
  }

  /** `max_bin`: the bin of 3 Hz (180 BPM), truncated. */
  function MaxBin(n: nat): int
    requires n > 0
  {
    (3.0 / FreqRes(n)).Floor
  }

  /** The bin → BPM conversion `(int)(idx * freq_res * 60)`, truncating. */
  function BinToBpm(idx: int, n: nat): int
    requires n > 0
  {
    ((idx as real) * FreqRes(n) * 60.0).Floor
  }

  lemma FloorOfQuotient(a: nat, d: nat)
    requires d > 0
    ensures ((a as real) / (d as real)).Floor == a / d
  {
    var q, r := a / d, a % d;
    assert a == q * d + r;
    assert (a as real) == (q as real) * (d as real) + (r as real);
    assert (a as real) / (d as real) == (q as real) + (r as real) / (d as real);
    assert 0.0 <= (r as real) / (d as real) < 1.0;
  }

  /** The searched bins are `n / 120 ..= n / 20`, which all lie inside the spectrum. */
  lemma BinRange(n: nat)
    requires n > 0
    ensures MinBin(n) == n / 120 && MaxBin(n) == n / 20
    ensures 0 <= MinBin(n) && MaxBin(n) < n
  {
    var f := FreqRes(n);
    assert 0.5 / f == (n as real) / 120.0;
    assert 3.0 / f == (n as real) / 20.0;
    FloorOfQuotient(n, 120);
    FloorOfQuotient(n, 20);
  }

  /** BPM is `idx * 3600 / n`, rounded down. */
  lemma BpmOfBin(idx: nat, n: nat)
    requires n > 0
    ensures BinToBpm(idx, n) == idx * 3600 / n
  {
    assert (idx as real) * FreqRes(n) * 60.0 == ((idx * 3600) as real) / (n as real);
    FloorOfQuotient(idx * 3600, n);
  }

  /**
   * The running `(max_idx, max_mag)` after the bins `lo .. i-1`, with `max_mag` kept
   * squared: `sqrtf` is monotone, so it decides `mag > max_mag` the same way.
   */
  function Scan(s: seq<Complex>, lo: int, i: int): (r: (int, real))
    requires 0 <= lo <= i <= |s|
    decreases i - lo
  {
    if i == lo then (0, 0.0)
    else
      var p := Scan(s, lo, i - 1);
      if Mag2(s[i - 1]) > p.1 then (i - 1, Mag2(s[i - 1])) else p
  }

  /**
   * `idx` is the peak of the bins `lo .. hi-1`: the first bin of largest magnitude, or
   * 0 when no bin has a positive magnitude.
   */
  predicate IsPeak(s: seq<Complex>, lo: int, hi: int, idx: int)
    requires 0 <= lo <= hi <= |s|
  {
    if forall k :: lo <= k < hi ==> Mag2(s[k]) == 0.0 then idx == 0
    else
      lo <= idx < hi
      && (forall k :: lo <= k < hi ==> Mag2(s[k]) <= Mag2(s[idx]))
      && (forall k :: lo <= k < idx ==> Mag2(s[k]) < Mag2(s[idx]))
  }

  /** What the scan holds: the largest magnitude so far (0 if none is positive) and its first bin. */
  lemma {:induction false} ScanMax(s: seq<Complex>, lo: int, i: int)
    requires 0 <= lo <= i <= |s|
    ensures var (idx, m) := Scan(s, lo, i);
      m >= 0.0
      && (forall k :: lo <= k < i ==> Mag2(s[k]) <= m)
      && (m == 0.0 ==> idx == 0)
      && (m > 0.0 ==> lo <= idx < i && Mag2(s[idx]) == m && forall k :: lo <= k < idx ==> Mag2(s[k]) < m)
    decreases i - lo
  {
    if i > lo {
      ScanMax(s, lo, i - 1);
    }
  }

  /** The scan finds the peak. */
  lemma ScanIsPeak(s: seq<Complex>, lo: int, hi: int)
    requires 0 <= lo <= hi <= |s|
    ensures IsPeak(s, lo, hi, Scan(s, lo, hi).0)
  {
    ScanMax(s, lo, hi);
  }

  /** There is only one peak, so `IsPeak` pins the scan's result down. */
  lemma PeakUnique(s: seq<Complex>, lo: int, hi: int, a: int, b: int)
    requires 0 <= lo <= hi <= |s| && IsPeak(s, lo, hi, a) && IsPeak(s, lo, hi, b)
    ensures a == b
  {
  }

  /** The bin `find_peak_bpm` settles on in an `n`-bin spectrum. */
  function PeakBin(s: seq<Complex>, n: nat): int
    requires 0 < n <= |s|
  {
    BinRange(n);
    Scan(s, MinBin(n), MaxBin(n) + 1).0
  }

  /**
   * `find_peak_bpm`: scans the bins `min_bin ..= max_bin` for the largest magnitude,
   * keeping the first bin that reaches it, and converts that bin to BPM.
   */
  method FindPeakBpm(fftOutput: array<Complex>, n: nat) returns (bpm: int)
    requires 0 < n <= fftOutput.Length
    ensures bpm == BinToBpm(PeakBin(fftOutput[..], n), n)
  {
    BinRange(n);
    var maxMag := 0.0;
    var maxIdx := 0;
    var minBin := MinBin(n);
    var maxBin := MaxBin(n);
    var i := minBin;
    while i <= maxBin
      invariant minBin <= i <= maxBin + 1
      invariant (maxIdx, maxMag) == Scan(fftOutput[..], minBin, i)
    {
      var mag := Mag2(fftOutput[i]);
      if mag > maxMag {
        maxMag := mag;
        maxIdx := i;
      }
      i := i + 1;
    }
    bpm := BinToBpm(maxIdx, n);
  }

  /**
   * For the 128-point transform at 60 samples per second, exactly the bins 1 to 6 are
   * searched, and the result is one of seven BPM values.
   */
  lemma PeakBpm128(s: seq<Complex>)
    requires |s| >= FFT_SIZE
    ensures MinBin(FFT_SIZE) == 1 && MaxBin(FFT_SIZE) == 6
    ensures BinToBpm(PeakBin(s, FFT_SIZE), FFT_SIZE) in {0, 28, 56, 84, 112, 140, 168}
  {
    BinRange(FFT_SIZE);
    var idx := PeakBin(s, FFT_SIZE);
    ScanIsPeak(s, 1, 7);
    assert idx == 0 || 1 <= idx <= 6;
    BpmOfBin(idx, FFT_SIZE);
  }

  // ---------------------------------------------------------------------------
  // compute_spo2_and_heart_rate
  // ---------------------------------------------------------------------------

  /** The spectrum the peak search sees: the windowed, mean-free, zero-padded infrared channel. */
  function Spectrum(ir: seq<u32>, cosine: (nat, nat) -> real, root: nat -> Complex): (r: seq<Complex>)
    requires |ir| > 0
    ensures |r| == FFT_SIZE
  {
    FftSizeIsPow2();
    Transform(FftInput(ir, Mean(ir), Hamming(FFT_SIZE, cosine)), FFT_BITS, root)
  }

  /** The heart rate the estimator reports for a strong signal. */
  function HeartRate(ir: seq<u32>, cosine: (nat, nat) -> real, root: nat -> Complex): int
    requires |ir| > 0
  {
    BinToBpm(PeakBin(Spectrum(ir, cosine, root), FFT_SIZE), FFT_SIZE)
  }

  /**
   * `(spo2, bpm)` for the red and infrared samples: `(0, 0)` for a weak signal,
   * otherwise the clamped ratio formula and the dominant heart-rate bin.
   */
  function Estimate(red: seq<u32>, ir: seq<u32>, cosine: (nat, nat) -> real, root: nat -> Complex): (real, int)
    requires 0 < |red| == |ir|
  {
    if WeakSignal(Mean(ir), Ac(red), Ac(ir)) then (0.0, 0)
    else
      AcPositiveMean(red);
      (Spo2Of(Ratio(Mean(red), Ac(red), Mean(ir), Ac(ir))), HeartRate(ir, cosine, root))
  }

  /**
   * A weak signal gives exactly `(0, 0)`; a strong one has positive DC levels, so the
   * ratio is defined, and reports the peak's BPM.
   */
  lemma EstimateGate(red: seq<u32>, ir: seq<u32>, cosine: (nat, nat) -> real, root: nat -> Complex)
    requires 0 < |red| == |ir|
    ensures WeakSignal(Mean(ir), Ac(red), Ac(ir)) ==> Estimate(red, ir, cosine, root) == (0.0, 0)
    ensures !WeakSignal(Mean(ir), Ac(red), Ac(ir)) ==>
      Mean(red) > 0.0 && Mean(ir) > 0.0 && Estimate(red, ir, cosine, root).1 == HeartRate(ir, cosine, root)
  {
    if !WeakSignal(Mean(ir), Ac(red), Ac(ir)) {
      AcPositiveMean(red);
    }
  }

  /** Every estimate has `spo2` in `[0, 100]` and `bpm` one of the seven values. */
  lemma EstimateBounds(red: seq<u32>, ir: seq<u32>, cosine: (nat, nat) -> real, root: nat -> Complex)
    requires 0 < |red| == |ir|
    ensures 0.0 <= Estimate(red, ir, cosine, root).0 <= 100.0
    ensures Estimate(red, ir, cosine, root).1 in {0, 28, 56, 84, 112, 140, 168}
  {
    if !WeakSignal(Mean(ir), Ac(red), Ac(ir)) {
      AcPositiveMean(red);
      Spo2Clamp(Ratio(Mean(red), Ac(red), Mean(ir), Ac(ir)));
      PeakBpm128(Spectrum(ir, cosine, root));
    }
  }

  /** A constant infrared channel has no AC level, so it is always gated to `(0, 0)`. */
  lemma ConstantIrGated(red: seq<u32>, ir: seq<u32>, c: u32, cosine: (nat, nat) -> real, root: nat -> Complex)
    requires 0 < |red| == |ir| && forall i :: 0 <= i < |ir| ==> ir[i] == c
    ensures Estimate(red, ir, cosine, root) == (0.0, 0)
  {
    ConstantChannel(ir, c);
  }

  /**
   * The loop that fills `fft_input`: mean-free infrared samples, zero past `samples`,
   * times the window; imaginary parts 0.
   */
  method FillFftInput(ir: array<u32>, samples: nat, avg: real, window: array<real>)
    returns (fftInput: array<Complex>)
    requires samples <= ir.Length && window.Length == FFT_SIZE
    ensures fresh(fftInput)
    ensures fftInput[..] == FftInput(ir[..samples], avg, window[..])
  {
    fftInput := new Complex[FFT_SIZE];
    ghost var input := FftInput(ir[..samples], avg, window[..]);
    for i := 0 to FFT_SIZE
      invariant forall k :: 0 <= k < i ==> fftInput[k] == input[k]
    {
      var val := if i < samples then ir[i] as real - avg else 0.0;  // zero padding past the samples
      fftInput[i] := Complex(val * window[i], 0.0);
    }
  }

  /** The first loop of `compute_spo2_and_heart_rate`: the DC level of both channels. */
  method DcLevels(red: array<u32>, ir: array<u32>, samples: nat) returns (redDc: real, irDc: real)
    requires 0 < samples <= red.Length && samples <= ir.Length
    ensures redDc == Mean(red[..samples]) && irDc == Mean(ir[..samples])
  {
    redDc, irDc := 0.0, 0.0;
    for i := 0 to samples
      invariant redDc == Total(red[..i]) && irDc == Total(ir[..i])
    {
      assert red[..i + 1][..i] == red[..i] && ir[..i + 1][..i] == ir[..i];
      redDc := redDc + red[i] as real;
      irDc := irDc + ir[i] as real;
    }
    redDc := redDc / samples as real;
    irDc := irDc / samples as real;
  }

  /** The second loop: the mean absolute deviation of each channel from the given DC level. */
  method AcLevels(red: array<u32>, ir: array<u32>, samples: nat, redDc: real, irDc: real)
    returns (redAc: real, irAc: real)
    requires 0 < samples <= red.Length && samples <= ir.Length
    ensures redAc == AbsDev(red[..samples], redDc) / samples as real
    ensures irAc == AbsDev(ir[..samples], irDc) / samples as real
  {
    redAc, irAc := 0.0, 0.0;
    for i := 0 to samples
      invariant redAc == AbsDev(red[..i], redDc) && irAc == AbsDev(ir[..i], irDc)
    {
      assert red[..i + 1][..i] == red[..i] && ir[..i + 1][..i] == ir[..i];
      redAc := redAc + Abs(red[i] as real - redDc);
      irAc := irAc + Abs(ir[i] as real - irDc);
    }
    redAc := redAc / samples as real;
    irAc := irAc / samples as real;
  }

  /** The loop that recomputes the infrared mean `avg` for the FFT input. */
  method InfraredMean(ir: array<u32>, samples: nat) returns (avg: real)
    requires 0 < samples <= ir.Length
    ensures avg == Mean(ir[..samples])
  {
    avg := 0.0;
    for i := 0 to samples
      invariant avg == Total(ir[..i])
    {
      assert ir[..i + 1][..i] == ir[..i];
      avg := avg + ir[i] as real;
    }
    avg := avg / samples as real;
  }

  /**
   * `compute_spo2_and_heart_rate` on the first `samples` values of both buffers; the
   * trigonometry of the window and of the twiddles comes in as `cosine` and `root`.
   * The ghost `fftRan` records whether the transform ran: it does exactly when the
   * signal passes the gate, which otherwise returns early.
   */
  method ComputeSpo2AndHeartRate(red: array<u32>, ir: array<u32>, samples: nat,
                                 cosine: (nat, nat) -> real, root: nat -> Complex)
    returns (spo2: real, bpm: int, ghost fftRan: bool)
    requires 0 < samples <= red.Length && samples <= ir.Length
    ensures (spo2, bpm) == Estimate(red[..samples], ir[..samples], cosine, root)
    ensures fftRan == !WeakSignal(Mean(ir[..samples]), Ac(red[..samples]), Ac(ir[..samples]))
    ensures WeakSignal(Mean(ir[..samples]), Ac(red[..samples]), Ac(ir[..samples])) ==> spo2 == 0.0 && bpm == 0
    ensures 0.0 <= spo2 <= 100.0 && bpm in {0, 28, 56, 84, 112, 140, 168}
  {
    ghost var reds, irs := red[..samples], ir[..samples];
    var redDc, irDc := DcLevels(red, ir, samples);
    var redAc, irAc := AcLevels(red, ir, samples, redDc, irDc);

    if irDc < 10000.0 || redAc < 20.0 || irAc < 20.0 {
      spo2 := 0.0;
      bpm := 0;
      fftRan := false;
      EstimateBounds(reds, irs, cosine, root);
      return;
    }

    AcPositiveMean(reds);
    var r := (redAc / redDc) / (irAc / irDc);
    spo2 := 110.0 - 25.0 * r;
    if spo2 > 100.0 {
      spo2 := 100.0;
    }
    if spo2 < 0.0 {
      spo2 := 0.0;
    }

    var window := new real[FFT_SIZE];
    HammingWindow(window, FFT_SIZE, cosine);
    assert window[..] == Hamming(FFT_SIZE, cosine);
    var avg := InfraredMean(ir, samples);
    assert avg == irDc;
    var fftInput := FillFftInput(ir, samples, avg, window);

    FftSizeIsPow2();
    Fft.Fft(fftInput, FFT_BITS, root);
    fftRan := true;
    bpm := FindPeakBpm(fftInput, FFT_SIZE);
    EstimateBounds(reds, irs, cosine, root);
  }
}
