/**
 * Value types shared by the transform, the estimator and the sensor decoder:
 * the C fixed-width integers that matter here and the `complex_t` record.
 * Floating-point values are modelled as exact reals.
 */
module Types {

  /** `uint32_t`. */
  type u32 = x: int | 0 <= x < 0x1_0000_0000

  /** `complex_t`: a pair of (here exact) real and imaginary parts. */
  datatype Complex = Complex(re: real, im: real)

  const Zero: Complex := Complex(0.0, 0.0)

  /** The start value `{1.0f, 0.0f}` of the running twiddle factor. */
  const One: Complex := Complex(1.0, 0.0)

  function Add(a: Complex, b: Complex): Complex
  {
    Complex(a.re + b.re, a.im + b.im)
  }

  function Sub(a: Complex, b: Complex): Complex
  {
    Complex(a.re - b.re, a.im - b.im)
  }

  /** Complex product, component by component as the butterfly and the twiddle update write it. */
  function Mul(a: Complex, b: Complex): Complex
  {
    Complex(a.re * b.re - a.im * b.im, a.re * b.im + a.im * b.re)
  }

  function Scale(c: real, a: Complex): Complex
  {
    Complex(c * a.re, c * a.im)
  }

  /**
   * Squared magnitude `re*re + im*im`, the square of what `sqrtf` returns in the peak
   * search; since the square root is monotone on non-negative values, comparing squared
   * magnitudes picks the same bins.
   */
  function Mag2(a: Complex): (m: real)
    ensures m >= 0.0
  {
    a.re * a.re + a.im * a.im
  }

  /** Pointwise sum of two buffers of equal length. */
  function AddAll(a: seq<Complex>, b: seq<Complex>): (r: seq<Complex>)
    requires |a| == |b|
    ensures |r| == |a|
    ensures forall k :: 0 <= k < |a| ==> r[k] == Add(a[k], b[k])
  {
    seq(|a|, k requires 0 <= k < |a| => Add(a[k], b[k]))
  }

  /** Every value of a buffer multiplied by the real `c`. */
  function ScaleAll(c: real, a: seq<Complex>): (r: seq<Complex>)
    ensures |r| == |a|
    ensures forall k :: 0 <= k < |a| ==> r[k] == Scale(c, a[k])
  {
    seq(|a|, k requires 0 <= k < |a| => Scale(c, a[k]))
  }

  /** An all-zero buffer of length `n`. */
  function Zeros(n: nat): (z: seq<Complex>)
    ensures |z| == n
    ensures forall k :: 0 <= k < n ==> z[k] == Zero
  {
    seq(n, k => Zero)
  }

  lemma MulDistributes(w: Complex, a: Complex, b: Complex)
    ensures Mul(w, Add(a, b)) == Add(Mul(w, a), Mul(w, b))
  {
  }

  lemma MulScales(w: Complex, c: real, a: Complex)
    ensures Mul(w, Scale(c, a)) == Scale(c, Mul(w, a))
  {
  }
}
