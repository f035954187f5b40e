/**
 * The index machinery of the radix-2 Cooley-Tukey transform in `main/src/fft.c`:
 * `reverse_bits`, the in-place bit-reversal permutation, the stage/block/butterfly
 * loop nest and the Hamming window fill. Twiddle factors and cosines are inputs
 * (oracle functions), so nothing here depends on trigonometry.
 */
module Fft {
  import opened Types

  // ---------------------------------------------------------------------------
  // Powers of two and a few facts about division by them
  // ---------------------------------------------------------------------------

  function Pow2(k: nat): (p: nat)
    ensures p >= 1
  {
    if k == 0 then 1 else 2 * Pow2(k - 1)
  }

  lemma {:induction false} Pow2Monotone(a: nat, b: nat)
    requires a <= b
    ensures Pow2(a) <= Pow2(b)
    decreases b
  {
    if a < b {
      Pow2Monotone(a, b - 1);
    }
  }

  lemma {:induction false} Pow2Split(a: nat, b: nat)
    requires a <= b
    ensures Pow2(b) == Pow2(a) * Pow2(b - a)
    decreases b
  {
    if a < b {
      Pow2Split(a, b - 1);
      assert Pow2(b) == 2 * Pow2(b - 1);
      assert Pow2(b - a) == 2 * Pow2(b - 1 - a);
    }
  }

  /** `q*d + r` with `0 <= r < d` splits uniquely back into `q` and `r`. */
  lemma DivModUnique(q: int, d: int, r: int)
    requires d > 0 && 0 <= r < d
    ensures (q * d + r) / d == q && (q * d + r) % d == r
  {
    var x := q * d + r;
    var q', r' := x / d, x % d;
    assert x == q' * d + r';
    assert (q - q') * d == r' - r;
    if q - q' >= 1 {
      MulAtLeast(q - q', d);
    } else if q' - q >= 1 {
      MulAtLeast(q' - q, d);
    }
    assert q == q';
  }

  lemma MulAtLeast(a: int, d: int)
    requires a >= 1 && d > 0
    ensures a * d >= d
  {
  }

  lemma MultipleMod(m: nat, d: nat)
    requires d > 0
    ensures (m * d) % d == 0
  {
    DivModUnique(m, d, 0);
  }

  /** `2^32`, the first value a 32-bit `unsigned int` cannot hold. */
  lemma Pow2Of32()
    ensures Pow2(32) == 0x1_0000_0000
  {
    assert Pow2(8) == 256;
    Pow2Split(8, 16);
    Pow2Split(16, 32);
  }

  lemma Pow2Even(k: nat)
    requires k >= 1
    ensures Pow2(k) >= 2 && Pow2(k) % 2 == 0
  {
    MultipleMod(Pow2(k - 1), 2);
  }

  lemma Pow2Divides(a: nat, b: nat)
    requires a <= b
    ensures Pow2(b) % Pow2(a) == 0
  {
    Pow2Split(a, b);
    ProductMod(Pow2(b), Pow2(a), Pow2(b - a));
  }

  lemma ProductMod(x: nat, d: nat, m: nat)
    requires d > 0 && x == d * m
    ensures x % d == 0
  {
    MultipleMod(m, d);
  }

  // ---------------------------------------------------------------------------
  // reverse_bits
  // ---------------------------------------------------------------------------

  /**
   * The lowest `bits` bits of `x` in reverse order: bit `t` of `x` becomes bit
   * `bits - 1 - t` of the result, and higher bits of `x` are dropped.
   */
  function ReversedBits(x: nat, bits: nat): (r: nat)
    ensures r < Pow2(bits)
  {
    if bits == 0 then 0
    else (if x % 2 == 0 then 0 else Pow2(bits - 1)) + ReversedBits(x / 2, bits - 1)
  }

  /**
   * `reverse_bits`: shifts the lowest bit of `x` into `result`, `bits` times.
   * Callers pass `bits <= 30` (the exponent of a C `int` length); up to 32 the 32-bit
   * `unsigned int` shifts lose no bit, so unbounded integers model them exactly.
   */
  method ReverseBits(x: u32, bits: nat) returns (result: nat)
    requires bits <= 32
    ensures result == ReversedBits(x, bits)
    ensures result < Pow2(bits)
  {
    result := 0;
    var y: nat := x;
    for i := 0 to bits
      invariant result * Pow2(bits - i) + ReversedBits(y, bits - i) == ReversedBits(x, bits)
    {
      ShiftInStep(result, y, bits - i);
      result := 2 * result + y % 2;  // (result << 1) | (x & 1)
      y := y / 2;                    // x >>= 1
    }
  }

  /** One round of `reverse_bits` keeps `result * 2^k + ReversedBits(x, k)` unchanged. */
  lemma ShiftInStep(result: nat, y: nat, k: nat)
    requires k > 0
    ensures (2 * result + y % 2) * Pow2(k - 1) + ReversedBits(y / 2, k - 1)
         == result * Pow2(k) + ReversedBits(y, k)
  {
    var p := Pow2(k - 1);
    assert Pow2(k) == 2 * p;
    assert (2 * result + y % 2) * p == result * (2 * p) + (y % 2) * p;
    assert (y % 2) * p == if y % 2 == 0 then 0 else p;
  }

  /** The low `n` bits of `x`, least significant first. */
  function Bits(x: nat, n: nat): (b: seq<bool>)
    ensures |b| == n
  {
    if n == 0 then [] else [x % 2 == 1] + Bits(x / 2, n - 1)
  }

  /** The number whose bits, least significant first, are `b`. */
  function Value(b: seq<bool>): (v: nat)
    ensures v < Pow2(|b|)
  {
    if b == [] then 0 else (if b[0] then 1 else 0) + 2 * Value(b[1..])
  }

  function Reverse<T>(s: seq<T>): (r: seq<T>)
    ensures |r| == |s|
    ensures forall i :: 0 <= i < |s| ==> r[i] == s[|s| - 1 - i]
  {
    if s == [] then [] else Reverse(s[1..]) + [s[0]]
  }

  /** A bit appended above the others adds its weight. */
  lemma {:induction false} ValueAppend(s: seq<bool>, b: bool)
    ensures Value(s + [b]) == Value(s) + (if b then Pow2(|s|) else 0)
  {
    if s != [] {
      assert (s + [b])[1..] == s[1..] + [b];
      ValueAppend(s[1..], b);
    }
  }

  /** Reading a bit string as a number and taking its bits back gives the string. */
  lemma {:induction false} BitsValue(s: seq<bool>)
    ensures Bits(Value(s), |s|) == s
  {
    if s != [] {
      var v := Value(s);
      assert v % 2 == (if s[0] then 1 else 0) && v / 2 == Value(s[1..]);
      BitsValue(s[1..]);
    }
  }

  /** A number below `2^n` is the value of its `n` low bits. */
  lemma {:induction false} ValueBits(x: nat, n: nat)
    requires x < Pow2(n)
    ensures Value(Bits(x, n)) == x
  {
    if n > 0 {
      var b := Bits(x, n);
      assert b[1..] == Bits(x / 2, n - 1);
      ValueBits(x / 2, n - 1);
    }
  }

  /** `ReversedBits` reads the `n` low bits of `x` in the opposite order. */
  lemma {:induction false} ReversedBitsValue(x: nat, n: nat)
    ensures ReversedBits(x, n) == Value(Reverse(Bits(x, n)))
  {
    if n > 0 {
      var b := Bits(x, n);
      assert b[1..] == Bits(x / 2, n - 1);
      assert Reverse(b) == Reverse(Bits(x / 2, n - 1)) + [x % 2 == 1];
      ReversedBitsValue(x / 2, n - 1);
      ValueAppend(Reverse(Bits(x / 2, n - 1)), x % 2 == 1);
    }
  }

  /** `reverse_bits` is an involution on `[0, 2^bits)`. */
  lemma ReversedBitsInvolution(x: nat, bits: nat)
    requires x < Pow2(bits)
    ensures ReversedBits(ReversedBits(x, bits), bits) == x
  {
    var b := Bits(x, bits);
    var r := Reverse(b);
    ReversedBitsValue(x, bits);
    ReversedBitsValue(Value(r), bits);
    BitsValue(r);
    assert Reverse(r) == b;
    ValueBits(x, bits);
  }

  /** The worked example of the source comment: 3 (0011) becomes 12 (1100) with 4 bits. */
  lemma ReversedBitsExample()
    ensures ReversedBits(3, 4) == 12
  {
  }

  // ---------------------------------------------------------------------------
  // The bit-reversal permutation
  // ---------------------------------------------------------------------------

  /** Slot `i` of the result holds slot `reverse_bits(i)` of `s`. */
  function BitReversed<T>(s: seq<T>, bits: nat): (r: seq<T>)
    requires |s| == Pow2(bits)
    ensures |r| == |s|
  {
    seq(|s|, i requires 0 <= i < |s| => s[ReversedBits(i, bits)])
  }

  /**
   * The buffer after the first `i` rounds of the bit-reversal loop: round `m`
   * swaps slots `m` and `reverse_bits(m)` when the latter is larger.
   */
  function SwapPass<T>(s: seq<T>, bits: nat, i: nat): (r: seq<T>)
    requires |s| == Pow2(bits) && i <= |s|
    ensures |r| == |s|
  {
    if i == 0 then s
    else
      var t := SwapPass(s, bits, i - 1);
      var j := ReversedBits(i - 1, bits);
      if j > i - 1 then t[i - 1 := t[j]][j := t[i - 1]] else t
  }

  /**
   * After `i` rounds, a slot `k` whose pair `{k, reverse_bits(k)}` has been reached
   * holds the original `s[reverse_bits(k)]`; every other slot is untouched.
   */
  lemma {:induction false} SwapPassAt<T>(s: seq<T>, bits: nat, i: nat, k: nat)
    requires |s| == Pow2(bits) && i <= |s| && k < |s|
    ensures SwapPass(s, bits, i)[k]
         == if k < i || ReversedBits(k, bits) < i then s[ReversedBits(k, bits)] else s[k]
    decreases i
  {
    if i > 0 {
      var m := i - 1;
      var j := ReversedBits(m, bits);
      var t := SwapPass(s, bits, m);
      ReversedBitsInvolution(m, bits);
      ReversedBitsInvolution(k, bits);
      SwapPassAt(s, bits, m, k);
      var rk := ReversedBits(k, bits);
      if j > m {
        assert SwapPass(s, bits, i) == t[m := t[j]][j := t[m]];
        if k == m {
          SwapPassAt(s, bits, m, j);
        } else if k == j {
          SwapPassAt(s, bits, m, m);
        } else {
          assert rk != m;
        }
      } else {
        assert SwapPass(s, bits, i) == t;
      }
    }
  }

  /** Each round is a swap or nothing, so the multiset of elements never changes. */
  lemma {:induction false} SwapPassPermutes<T>(s: seq<T>, bits: nat, i: nat)
    requires |s| == Pow2(bits) && i <= |s|
    ensures multiset(SwapPass(s, bits, i)) == multiset(s)
    decreases i
  {
    if i > 0 {
      SwapPassPermutes(s, bits, i - 1);
      SwapRoundPermutes(s, bits, i, multiset(s));
    }
  }

  /** Round `i - 1` keeps the multiset `m` of the buffer it is given. */
  lemma SwapRoundPermutes<T>(s: seq<T>, bits: nat, i: nat, m: multiset<T>)
    requires |s| == Pow2(bits) && 0 < i <= |s|
    requires multiset(SwapPass(s, bits, i - 1)) == m
    ensures multiset(SwapPass(s, bits, i)) == m
  {
    var t := SwapPass(s, bits, i - 1);
    var a, b := i - 1, ReversedBits(i - 1, bits);
    if b > a {
      assert SwapPass(s, bits, i) == t[a := t[b]][b := t[a]];
      var u := t[a := t[b]];
      assert multiset(u) == multiset(t) - multiset{t[a]} + multiset{t[b]};
      assert multiset(u[b := t[a]]) == multiset(u) - multiset{u[b]} + multiset{t[a]};
    } else {
      assert SwapPass(s, bits, i) == t;
    }
  }

  /** The whole loop performs exactly the bit-reversal permutation. */
  lemma SwapPassComplete<T>(s: seq<T>, bits: nat)
    requires |s| == Pow2(bits)
    ensures SwapPass(s, bits, |s|) == BitReversed(s, bits)
  {
    forall k | 0 <= k < |s|
      ensures SwapPass(s, bits, |s|)[k] == BitReversed(s, bits)[k]
    {
      SwapPassAt(s, bits, |s|, k);
    }
  }

  /** The bit-reversal permutation is a permutation: it keeps every element, with its multiplicity. */
  lemma BitReversedPermutes<T>(s: seq<T>, bits: nat)
    requires |s| == Pow2(bits)
    ensures multiset(BitReversed(s, bits)) == multiset(s)
  {
    SwapPassComplete(s, bits);
    SwapPassPermutes(s, bits, |s|);
  }

  /** Applying the bit-reversal permutation twice restores the original order. */
  lemma BitReversedInvolution<T>(s: seq<T>, bits: nat)
    requires |s| == Pow2(bits)
    ensures BitReversed(BitReversed(s, bits), bits) == s
  {
    forall i | 0 <= i < |s|
      ensures BitReversed(BitReversed(s, bits), bits)[i] == s[i]
    {
      ReversedBitsInvolution(i, bits);
    }
  }

  /**
   * The first loop of `fft`: swap `buf[i]` and `buf[reverse_bits(i)]` once per pair.
   * `n` is a C `int`, so `bits <= 30`; every reversal is then below `2^30` and the
   * `int j` that holds it is never negative.
   */
  method BitReversal<T>(buf: array<T>, bits: nat)
    requires buf.Length == Pow2(bits) && bits <= 30
    modifies buf
    ensures buf[..] == BitReversed(old(buf[..]), bits)
    ensures multiset(buf[..]) == multiset(old(buf[..]))
  {
    ghost var s := buf[..];
    var n := buf.Length;
    Pow2Monotone(bits, 32);
    Pow2Of32();
    for i := 0 to n
      invariant buf[..] == SwapPass(s, bits, i)
    {
      var j := ReverseBits(i, bits);
      if j > i {
        var tmp := buf[i];
        buf[i] := buf[j];
        buf[j] := tmp;
      }
    }
    SwapPassComplete(s, bits);
    SwapPassPermutes(s, bits, n);
  }

  // ---------------------------------------------------------------------------
  // Butterfly indexing: which slots a stage touches
  // ---------------------------------------------------------------------------

  lemma MulMonotone(a: int, b: int, d: int)
    requires a <= b && d >= 0
    ensures a * d <= b * d
  {
  }

  /** The block around slot `k` starts at a multiple of `len` and ends inside the buffer. */
  lemma BlockBound(n: nat, len: nat, k: nat)
    requires len > 0 && n % len == 0 && k < n
    ensures (k - k % len) % len == 0 && k - k % len + len <= n
  {
    var q, m := k / len, n / len;
    assert k == q * len + k % len;
    assert n == m * len;
    if q >= m {
      MulMonotone(m, q, len);
    }
    MulMonotone(q + 1, m, len);
    MultipleMod(q, len);
  }

  /** A butterfly of the stage with block length `len`: block start `i`, offset `j`. */
  predicate IsButterfly(n: nat, len: nat, i: nat, j: nat)
    requires len > 0
  {
    i % len == 0 && i < n && j < len / 2
  }

  /** The slot a butterfly writes: `i + j` (even half) or `i + j + len/2` (odd half). */
  function Slot(i: nat, j: nat, odd: bool, len: nat): nat
  {
    i + j + (if odd then len / 2 else 0)
  }

  /** Both slots of every butterfly lie in `[0, n)`. */
  lemma SlotInBounds(n: nat, len: nat, i: nat, j: nat, odd: bool)
    requires len >= 2 && len % 2 == 0 && n % len == 0 && IsButterfly(n, len, i, j)
    ensures Slot(i, j, odd, len) < n
  {
    BlockBound(n, len, i);
  }

  /** The start of the block of length `len` that holds slot `k`. */
  function BlockOf(k: nat, len: nat): nat
    requires len > 0
  {
    k - k % len
  }

  /** The offset `j` of the butterfly of stage `len` that writes slot `k`. */
  function OffsetOf(k: nat, len: nat): nat
    requires len > 0
  {
    var r := k % len;
    if r < len / 2 then r else r - len / 2
  }

  /** Whether slot `k` is the odd (second-half) slot of its butterfly. */
  predicate IsOddSlot(k: nat, len: nat)
    requires len > 0
  {
    k % len >= len / 2
  }

  /** Every slot of the buffer is written by the butterfly `BlockOf`/`OffsetOf` names. */
  lemma SlotCoverage(n: nat, len: nat, k: nat)
    requires len >= 2 && len % 2 == 0 && n % len == 0 && k < n
    ensures IsButterfly(n, len, BlockOf(k, len), OffsetOf(k, len))
    ensures Slot(BlockOf(k, len), OffsetOf(k, len), IsOddSlot(k, len), len) == k
  {
    BlockBound(n, len, k);
  }

  /** A slot written by a butterfly names that butterfly back. */
  lemma SlotDecode(n: nat, len: nat, i: nat, j: nat, odd: bool)
    requires len >= 2 && len % 2 == 0 && IsButterfly(n, len, i, j)
    ensures BlockOf(Slot(i, j, odd, len), len) == i
    ensures OffsetOf(Slot(i, j, odd, len), len) == j
    ensures IsOddSlot(Slot(i, j, odd, len), len) == odd
  {
    var q := i / len;
    assert i == q * len;
    DivModUnique(q, len, j + (if odd then len / 2 else 0));
  }

  /** No slot is written by two different butterflies, nor by both halves of one. */
  lemma SlotUnique(n: nat, len: nat, i1: nat, j1: nat, odd1: bool, i2: nat, j2: nat, odd2: bool)
    requires len >= 2 && len % 2 == 0
    requires IsButterfly(n, len, i1, j1) && IsButterfly(n, len, i2, j2)
    requires Slot(i1, j1, odd1, len) == Slot(i2, j2, odd2, len)
    ensures i1 == i2 && j1 == j2 && odd1 == odd2
  {
    SlotDecode(n, len, i1, j1, odd1);
    SlotDecode(n, len, i2, j2, odd2);
  }

  // ---------------------------------------------------------------------------
  // The butterfly stages as functions of the buffer
  // ---------------------------------------------------------------------------

  /** The running twiddle `w` after `j` updates `w = w * wlen` from `1 + 0i`. */
  function Twiddle(wlen: Complex, j: nat): Complex
  {
    if j == 0 then One else Mul(Twiddle(wlen, j - 1), wlen)
  }

  /**
   * One butterfly, as the source combines `even` and `odd` with `t = w * odd`.
   * The two outputs add up to twice `even` and differ by twice `w * odd`.
   */
  function Butterfly(even: Complex, odd: Complex, w: Complex): (Complex, Complex)
  {
    var t := Mul(w, odd);
    (Add(even, t), Sub(even, t))
  }

  /** The butterfly is invertible: its sum and difference give back twice `even` and twice `w * odd`. */
  lemma ButterflyInverse(even: Complex, odd: Complex, w: Complex)
    ensures var r := Butterfly(even, odd, w);
            Add(r.0, r.1) == Scale(2.0, even) && Sub(r.0, r.1) == Scale(2.0, Mul(w, odd))
  {
  }

  /** Slot `k` after the stage with block length `len`, from the butterfly that owns it. */
  function StageAt(s: seq<Complex>, len: nat, wlen: Complex, k: nat): Complex
    requires len >= 2 && len % 2 == 0 && |s| % len == 0 && k < |s|
  {
    SlotCoverage(|s|, len, k);
    var i, j := BlockOf(k, len), OffsetOf(k, len);
    SlotInBounds(|s|, len, i, j, true);
    var b := Butterfly(s[i + j], s[i + j + len / 2], Twiddle(wlen, j));
    if IsOddSlot(k, len) then b.1 else b.0
  }

  /** The whole buffer after one stage. */
  function Stage(s: seq<Complex>, len: nat, wlen: Complex): (r: seq<Complex>)
    requires len >= 2 && len % 2 == 0 && |s| % len == 0
    ensures |r| == |s|
  {
    seq(|s|, k requires 0 <= k < |s| => StageAt(s, len, wlen, k))
  }

  /**
   * Slot `k` of the block starting at `i` after its butterflies: the first half gets
   * `even + w*odd`, the second half `even - w*odd`, with `w` the `j`-th twiddle.
   */
  function BlockOut(s: seq<Complex>, i: nat, len: nat, wlen: Complex, k: nat): Complex
    requires len >= 2 && len % 2 == 0 && i + len <= |s| && i <= k < i + len
  {
    var h := len / 2;
    if k < i + h then Butterfly(s[k], s[k + h], Twiddle(wlen, k - i)).0
    else Butterfly(s[k - h], s[k], Twiddle(wlen, k - i - h)).1
  }

  /** Inside a block, the stage's result is the block's own butterfly output. */
  lemma StageAtBlock(s: seq<Complex>, len: nat, wlen: Complex, i: nat, k: nat)
    requires len >= 2 && len % 2 == 0 && |s| % len == 0
    requires i % len == 0 && i + len <= |s| && i <= k < i + len
    ensures StageAt(s, len, wlen, k) == BlockOut(s, i, len, wlen, k)
  {
    var h := len / 2;
    if k < i + h {
      SlotDecode(|s|, len, i, k - i, false);
      assert Slot(i, k - i, false, len) == k;
    } else {
      SlotDecode(|s|, len, i, k - i - h, true);
      assert Slot(i, k - i - h, true, len) == k;
    }
  }

  /**
   * The two inner loops of `fft` for one value of `len`: every block of `len` slots
   * in turn, each rewritten by `ButterflyBlock`.
   */
  method ButterflyStage(buf: array<Complex>, len: nat, wlen: Complex)
    requires len >= 2 && len % 2 == 0 && buf.Length % len == 0
    modifies buf
    ensures buf[..] == Stage(old(buf[..]), len, wlen)
  {
    ghost var s := buf[..];
    var n := buf.Length;
    var i := 0;
    while i < n
      invariant 0 <= i <= n && i % len == 0
      invariant forall k :: 0 <= k < n ==> buf[k] == if k < i then StageAt(s, len, wlen, k) else s[k]
    {
      BlockBound(n, len, i);
      ButterflyBlock(buf, i, len, wlen, s);
      forall k | i <= k < i + len
        ensures StageAt(s, len, wlen, k) == BlockOut(s, i, len, wlen, k)
      {
        StageAtBlock(s, len, wlen, i, k);
      }
      MultipleMod(i / len + 1, len);
      assert i + len == (i / len + 1) * len;
      i := i + len;
    }
    assert buf[..] == Stage(s, len, wlen);
  }

  /**
   * Inside the block starting at `i`, the first `j` butterflies are done: their slots
   * hold the block's output for `s`; every other slot still holds `orig`.
   */
  ghost predicate BlockDone(s: seq<Complex>, len: nat, wlen: Complex, i: nat, j: nat,
                            cur: seq<Complex>, orig: seq<Complex>)
    requires len >= 2 && len % 2 == 0 && i + len <= |s| && |cur| == |s| && |orig| == |s|
    requires j <= len / 2
  {
    forall k {:trigger cur[k]} :: 0 <= k < |cur| ==>
      cur[k] == if i <= k < i + j || i + len / 2 <= k < i + len / 2 + j then BlockOut(s, i, len, wlen, k) else orig[k]
  }

  /** One butterfly, applied where the block still holds `s`, extends `BlockDone` by one offset. */
  lemma BlockStep(s: seq<Complex>, len: nat, wlen: Complex, i: nat, j: nat,
                  cur: seq<Complex>, orig: seq<Complex>)
    requires len >= 2 && len % 2 == 0 && i + len <= |s| && |cur| == |s| && |orig| == |s|
    requires j < len / 2
    requires forall k {:trigger orig[k]} :: i <= k < i + len ==> orig[k] == s[k]
    requires BlockDone(s, len, wlen, i, j, cur, orig)
    ensures var b := Butterfly(cur[i + j], cur[i + j + len / 2], Twiddle(wlen, j));
            BlockDone(s, len, wlen, i, j + 1, cur[i + j := b.0][i + j + len / 2 := b.1], orig)
  {
    BlockPending(s, len, wlen, i, j, cur, orig);
    var b := Butterfly(cur[i + j], cur[i + j + len / 2], Twiddle(wlen, j));
    forall k | 0 <= k < |s|
      ensures cur[i + j := b.0][i + j + len / 2 := b.1][k]
           == if i <= k < i + j + 1 || i + len / 2 <= k < i + len / 2 + j + 1 then BlockOut(s, i, len, wlen, k) else orig[k]
    {
      BlockStepAt(s, len, wlen, i, j, cur[i + j], cur[i + j + len / 2], cur[k], orig[k], k);
    }
  }

  /** The butterfly about to run still finds both of its inputs as the stage found them. */
  lemma BlockPending(s: seq<Complex>, len: nat, wlen: Complex, i: nat, j: nat,
                     cur: seq<Complex>, orig: seq<Complex>)
    requires len >= 2 && len % 2 == 0 && i + len <= |s| && |cur| == |s| && |orig| == |s|
    requires j < len / 2
    requires forall k {:trigger orig[k]} :: i <= k < i + len ==> orig[k] == s[k]
    requires BlockDone(s, len, wlen, i, j, cur, orig)
    ensures cur[i + j] == s[i + j] && cur[i + j + len / 2] == s[i + j + len / 2]
  {
    assert cur[i + j] == orig[i + j];
    assert cur[i + j + len / 2] == orig[i + j + len / 2];
  }

  /**
   * `BlockStep` at one slot `k`, given the butterfly's inputs `e`, `o` and the slot's
   * current and original values: the two slots of butterfly `j` take its outputs,
   * every other slot keeps its value.
   */
  lemma BlockStepAt(s: seq<Complex>, len: nat, wlen: Complex, i: nat, j: nat,
                    e: Complex, o: Complex, c: Complex, x: Complex, k: nat)
    requires len >= 2 && len % 2 == 0 && i + len <= |s| && j < len / 2 && k < |s|
    requires e == s[i + j] && o == s[i + j + len / 2]
    requires c == if i <= k < i + j || i + len / 2 <= k < i + len / 2 + j then BlockOut(s, i, len, wlen, k) else x
    ensures var b := Butterfly(e, o, Twiddle(wlen, j));
            (if k == i + j then b.0 else if k == i + j + len / 2 then b.1 else c)
            == if i <= k < i + j + 1 || i + len / 2 <= k < i + len / 2 + j + 1 then BlockOut(s, i, len, wlen, k) else x
  {
  }

  /**
   * The innermost loop of `fft`: the `len / 2` butterflies of the block starting at
   * `i`, with `w` running through the powers of `wlen` from `1 + 0i`. The ghost `s`
   * is the buffer as the stage found it; this block still holds it.
   */
  method ButterflyBlock(buf: array<Complex>, i: nat, len: nat, wlen: Complex, ghost s: seq<Complex>)
    requires len >= 2 && len % 2 == 0 && i + len <= buf.Length && |s| == buf.Length
    requires forall k {:trigger buf[k]} :: i <= k < i + len ==> buf[k] == s[k]
    modifies buf
    ensures forall k {:trigger buf[k]} :: 0 <= k < buf.Length ==>
      buf[k] == if i <= k < i + len then BlockOut(s, i, len, wlen, k) else old(buf[k])
  {
    ghost var orig := buf[..];
    var h := len / 2;
    var w := One;
    var j := 0;
    assert h + h == len;
    while j < h
      invariant 0 <= j <= h && w == Twiddle(wlen, j)
      invariant BlockDone(s, len, wlen, i, j, buf[..], orig)
    {
      ghost var cur := buf[..];
      BlockStep(s, len, wlen, i, j, cur, orig);
      var even := buf[i + j];
      var odd := buf[i + j + h];
      var t := Mul(w, odd);           // (treal, timag)
      buf[i + j] := Add(even, t);
      buf[i + j + h] := Sub(even, t);
      assert buf[..] == cur[i + j := Add(even, t)][i + j + h := Sub(even, t)];
      w := Mul(w, wlen);              // w = w * wlen
      j := j + 1;
    }
    assert BlockDone(s, len, wlen, i, h, buf[..], orig);
  }

  // ---------------------------------------------------------------------------
  // The whole transform
  // ---------------------------------------------------------------------------

  /** `Pow2` is strictly monotone, so it only grows past `Pow2(b)` beyond `b`. */
  lemma Pow2Below(a: nat, b: nat)
    requires Pow2(a) <= Pow2(b)
    ensures a <= b
  {
    if a > b {
      Pow2Monotone(b + 1, a);
    }
  }

  /**
   * The buffer after the first `st` stages, the stage with `len = 2^st` rotating by
   * `root(len)` — the value the source computes as `e^(-2*pi*i / len)`.
   */
  function Stages(s: seq<Complex>, bits: nat, root: nat -> Complex, st: nat): (r: seq<Complex>)
    requires |s| == Pow2(bits) && st <= bits
    ensures |r| == |s|
  {
    if st == 0 then s
    else
      Pow2Even(st);
      Pow2Divides(st, bits);
      var len := Pow2(st);
      Stage(Stages(s, bits, root, st - 1), len, root(len))
  }

  /** What `fft` leaves in a buffer of `2^bits` values: the bit-reversal, then every stage. */
  function Transform(s: seq<Complex>, bits: nat, root: nat -> Complex): (r: seq<Complex>)
    requires |s| == Pow2(bits)
    ensures |r| == |s|
  {
    Stages(BitReversed(s, bits), bits, root, bits)
  }

  /**
   * `fft` on a buffer of `n = 2^bits` values, with `bits` standing for `log2(n)`.
   * `len` is a C `int` that doubles past `n`, so `n <= 2^29` keeps it in range.
   */
  method Fft(buf: array<Complex>, bits: nat, root: nat -> Complex)
    requires buf.Length == Pow2(bits) && bits <= 29
    modifies buf
    ensures buf[..] == Transform(old(buf[..]), bits, root)
  {
    ghost var s := buf[..];
    var n := buf.Length;
    BitReversal(buf, bits);
    ghost var r := buf[..];
    var len := 2;
    ghost var st := 1;
    while len <= n
      invariant 1 <= st <= bits + 1 && len == Pow2(st)
      invariant buf[..] == Stages(r, bits, root, st - 1)
      decreases bits + 1 - st
    {
      Pow2Below(st, bits);
      Pow2Divides(st, bits);
      Pow2Even(st);
      var wlen := root(len);     // {cosf(angle), sinf(angle)}
      ButterflyStage(buf, len, wlen);
      len := 2 * len;            // len <<= 1
      st := st + 1;
    }
    assert st == bits + 1 by {
      if st <= bits {
        Pow2Monotone(st, bits);
      }
    }
  }

  // ---------------------------------------------------------------------------
  // Linearity of the transform
  // ---------------------------------------------------------------------------

  lemma ButterflyAdditive(e1: Complex, o1: Complex, e2: Complex, o2: Complex, w: Complex)
    ensures Butterfly(Add(e1, e2), Add(o1, o2), w).0 == Add(Butterfly(e1, o1, w).0, Butterfly(e2, o2, w).0)
    ensures Butterfly(Add(e1, e2), Add(o1, o2), w).1 == Add(Butterfly(e1, o1, w).1, Butterfly(e2, o2, w).1)
  {
    MulDistributes(w, o1, o2);
  }

  lemma ButterflyHomogeneous(c: real, e: Complex, o: Complex, w: Complex)
    ensures Butterfly(Scale(c, e), Scale(c, o), w).0 == Scale(c, Butterfly(e, o, w).0)
    ensures Butterfly(Scale(c, e), Scale(c, o), w).1 == Scale(c, Butterfly(e, o, w).1)
  {
    MulScales(w, c, o);
  }

  /**
   * A stage of the sum of two buffers is the sum of their stages. The buffers and the
   * stage outputs are named by the caller, so that it needs no reasoning about `Stage`.
   */
  lemma StageAdditive(a: seq<Complex>, b: seq<Complex>, ab: seq<Complex>, len: nat, wlen: Complex,
                      ra: seq<Complex>, rb: seq<Complex>, rab: seq<Complex>)
    requires len >= 2 && len % 2 == 0 && |a| % len == 0 && |b| == |a|
    requires ab == AddAll(a, b)
    requires ra == Stage(a, len, wlen) && rb == Stage(b, len, wlen) && rab == Stage(ab, len, wlen)
    ensures rab == AddAll(ra, rb)
  {
    forall k | 0 <= k < |a|
      ensures StageAt(ab, len, wlen, k) == Add(StageAt(a, len, wlen, k), StageAt(b, len, wlen, k))
    {
      SlotCoverage(|a|, len, k);
      var i, j := BlockOf(k, len), OffsetOf(k, len);
      SlotInBounds(|a|, len, i, j, true);
      ButterflyAdditive(a[i + j], a[i + j + len / 2], b[i + j], b[i + j + len / 2], Twiddle(wlen, j));
    }
  }

  /** A stage of a scaled buffer is the scaled stage, with the buffers named as in `StageAdditive`. */
  lemma StageHomogeneous(c: real, a: seq<Complex>, ca: seq<Complex>, len: nat, wlen: Complex,
                         ra: seq<Complex>, rca: seq<Complex>)
    requires len >= 2 && len % 2 == 0 && |a| % len == 0
    requires ca == ScaleAll(c, a)
    requires ra == Stage(a, len, wlen) && rca == Stage(ca, len, wlen)
    ensures rca == ScaleAll(c, ra)
  {
    forall k | 0 <= k < |a|
      ensures StageAt(ca, len, wlen, k) == Scale(c, StageAt(a, len, wlen, k))
    {
      SlotCoverage(|a|, len, k);
      var i, j := BlockOf(k, len), OffsetOf(k, len);
      SlotInBounds(|a|, len, i, j, true);
      ButterflyHomogeneous(c, a[i + j], a[i + j + len / 2], Twiddle(wlen, j));
    }
  }

  /** Stage `st` of `Stages`, with the facts about its block length that `Stage` needs. */
  lemma StagesStep(s: seq<Complex>, bits: nat, root: nat -> Complex, st: nat)
    requires |s| == Pow2(bits) && 0 < st <= bits
    ensures Pow2(st) >= 2 && Pow2(st) % 2 == 0 && |s| % Pow2(st) == 0
    ensures Stages(s, bits, root, st) == Stage(Stages(s, bits, root, st - 1), Pow2(st), root(Pow2(st)))
  {
    Pow2Even(st);
    Pow2Divides(st, bits);
  }

  lemma {:induction false} StagesAdditive(a: seq<Complex>, b: seq<Complex>, bits: nat, root: nat -> Complex, st: nat)
    requires |a| == Pow2(bits) && |b| == |a| && st <= bits
    ensures Stages(AddAll(a, b), bits, root, st) == AddAll(Stages(a, bits, root, st), Stages(b, bits, root, st))
  {
    if st > 0 {
      StagesAdditive(a, b, bits, root, st - 1);
      StagesStep(AddAll(a, b), bits, root, st);
      StagesStep(a, bits, root, st);
      StagesStep(b, bits, root, st);
      StageAdditive(Stages(a, bits, root, st - 1), Stages(b, bits, root, st - 1),
                    Stages(AddAll(a, b), bits, root, st - 1), Pow2(st), root(Pow2(st)),
                    Stages(a, bits, root, st), Stages(b, bits, root, st), Stages(AddAll(a, b), bits, root, st));
    }
  }

  lemma {:induction false} StagesHomogeneous(c: real, a: seq<Complex>, bits: nat, root: nat -> Complex, st: nat)
    requires |a| == Pow2(bits) && st <= bits
    ensures Stages(ScaleAll(c, a), bits, root, st) == ScaleAll(c, Stages(a, bits, root, st))
  {
    if st > 0 {
      StagesHomogeneous(c, a, bits, root, st - 1);
      StagesStep(ScaleAll(c, a), bits, root, st);
      StagesStep(a, bits, root, st);
      StageHomogeneous(c, Stages(a, bits, root, st - 1), Stages(ScaleAll(c, a), bits, root, st - 1),
                       Pow2(st), root(Pow2(st)), Stages(a, bits, root, st), Stages(ScaleAll(c, a), bits, root, st));
    }
  }

  lemma TransformAdditive(a: seq<Complex>, b: seq<Complex>, bits: nat, root: nat -> Complex)
    requires |a| == Pow2(bits) && |b| == |a|
    ensures Transform(AddAll(a, b), bits, root) == AddAll(Transform(a, bits, root), Transform(b, bits, root))
  {
    assert BitReversed(AddAll(a, b), bits) == AddAll(BitReversed(a, bits), BitReversed(b, bits));
    StagesAdditive(BitReversed(a, bits), BitReversed(b, bits), bits, root, bits);
  }

  /** Scaling the input by a real scales the transform by the same factor. */
  lemma TransformHomogeneous(c: real, a: seq<Complex>, bits: nat, root: nat -> Complex)
    requires |a| == Pow2(bits)
    ensures Transform(ScaleAll(c, a), bits, root) == ScaleAll(c, Transform(a, bits, root))
  {
    assert BitReversed(ScaleAll(c, a), bits) == ScaleAll(c, BitReversed(a, bits));
    StagesHomogeneous(c, BitReversed(a, bits), bits, root, bits);
  }

  /** An all-zero buffer comes out all zero. */
  lemma TransformZero(bits: nat, root: nat -> Complex)
    ensures Transform(Zeros(Pow2(bits)), bits, root) == Zeros(Pow2(bits))
  {
    var z := Zeros(Pow2(bits));
    assert ScaleAll(0.0, z) == z;
    TransformHomogeneous(0.0, z, bits, root);
    assert ScaleAll(0.0, Transform(z, bits, root)) == z;
  }

  // ---------------------------------------------------------------------------
  // Bin 0 is the sum of the input
  // ---------------------------------------------------------------------------

  /** The sum of a buffer, added up from the left. */
  function SumC(s: seq<Complex>): Complex
  {
    if |s| == 0 then Zero else Add(SumC(s[..|s| - 1]), s[|s| - 1])
  }

  lemma {:induction false} SumCConcat(a: seq<Complex>, b: seq<Complex>)
    ensures SumC(a + b) == Add(SumC(a), SumC(b))
    decreases |b|
  {
    if |b| == 0 {
      assert a + b == a;
    } else {
      assert (a + b)[..|a + b| - 1] == a + b[..|b| - 1];
      SumCConcat(a, b[..|b| - 1]);
    }
  }

  /** Rearranging a buffer does not change its sum. */
  lemma {:induction false} SumCPermutation(a: seq<Complex>, b: seq<Complex>)
    requires multiset(a) == multiset(b)
    ensures SumC(a) == SumC(b)
    decreases |a|
  {
    if |a| == 0 {
      assert |b| == |multiset(b)| == 0;
    } else {
      var x := a[|a| - 1];
      var a' := a[..|a| - 1];
      assert a == a' + [x];
      assert multiset(a') == multiset(a) - multiset{x};
      assert x in multiset(b);
      var p :| 0 <= p < |b| && b[p] == x;
      RemoveAtMultiset(b, p);
      RemoveAtSum(b, p);
      SumCPermutation(a', b[..p] + b[p + 1..]);
    }
  }

  /** Taking out the value at `p` removes one copy of it from the multiset. */
  lemma RemoveAtMultiset(b: seq<Complex>, p: nat)
    requires p < |b|
    ensures multiset(b[..p] + b[p + 1..]) == multiset(b) - multiset{b[p]}
  {
    var x, l, r := b[p], b[..p], b[p + 1..];
    assert b == l + [x] + r;
    assert multiset(b) == multiset(l) + multiset{x} + multiset(r);
  }

  /** Taking out the value at `p` removes it from the sum. */
  lemma RemoveAtSum(b: seq<Complex>, p: nat)
    requires p < |b|
    ensures SumC(b) == Add(SumC(b[..p] + b[p + 1..]), b[p])
  {
    var x, l, r := b[p], b[..p], b[p + 1..];
    assert b == (l + [x]) + r;
    assert (l + [x])[..|l|] == l;
    assert SumC(l + [x]) == Add(SumC(l), x);
    SumCConcat(l + [x], r);
    SumCConcat(l, r);
  }

  /** A block start for length `2h` starts two blocks of length `h`. */
  lemma HalfBlocks(i: nat, h: nat)
    requires h >= 1 && i % (h + h) == 0
    ensures i % h == 0 && (i + h) % h == 0
  {
    var q := i / (h + h);
    assert i == (2 * q) * h;
    MultipleMod(2 * q, h);
    MultipleMod(2 * q + 1, h);
    assert i + h == (2 * q + 1) * h;
  }

  /** The first slot of every block of length `len` in `u` holds the sum of that block of `t`. */
  ghost predicate BlockSums(u: seq<Complex>, t: seq<Complex>, len: nat)
    requires |u| == |t| && len > 0
  {
    forall i :: 0 <= i && i % len == 0 && i + len <= |t| ==> u[i] == SumC(t[i..i + len])
  }

  /**
   * After `st` stages, the first slot of every block of `2^st` holds the sum of that
   * block of the stages' input.
   */
  lemma {:induction false} StagesBlockSums(t: seq<Complex>, bits: nat, root: nat -> Complex, st: nat)
    requires |t| == Pow2(bits) && st <= bits
    ensures BlockSums(Stages(t, bits, root, st), t, Pow2(st))
    decreases st
  {
    if st == 0 {
      SingletonSums(t);
    } else {
      StagesBlockSums(t, bits, root, st - 1);
      StagesBlockSumsStep(t, bits, root, st);
    }
  }

  /** Stage `st` doubles the length of the blocks whose sums sit at the block starts. */
  lemma StagesBlockSumsStep(t: seq<Complex>, bits: nat, root: nat -> Complex, st: nat)
    requires |t| == Pow2(bits) && 0 < st <= bits
    requires BlockSums(Stages(t, bits, root, st - 1), t, Pow2(st - 1))
    ensures BlockSums(Stages(t, bits, root, st), t, Pow2(st))
  {
    assert Pow2(st) == Pow2(st - 1) + Pow2(st - 1);
    StagesStep(t, bits, root, st);
    StageBlockSums(Stages(t, bits, root, st - 1), t, Pow2(st), Pow2(st - 1), root(Pow2(st)),
                   Stages(t, bits, root, st));
  }

  /** Every value is the sum of its own one-element block. */
  lemma SingletonSums(t: seq<Complex>)
    ensures BlockSums(t, t, 1)
  {
    forall i | 0 <= i && i % 1 == 0 && i + 1 <= |t|
      ensures t[i] == SumC(t[i..i + 1])
    {
      assert t[i..i + 1][..0] == [];
    }
  }

  /** One stage turns block sums of length `h` at the block starts into block sums of length `2h`. */
  lemma StageBlockSums(u: seq<Complex>, t: seq<Complex>, len: nat, h: nat, w: Complex, r: seq<Complex>)
    requires h >= 1 && len == h + h && |u| == |t| && |t| % len == 0
    requires BlockSums(u, t, h)
    requires r == Stage(u, len, w)
    ensures BlockSums(r, t, len)
  {
    forall i | 0 <= i && i % len == 0 && i + len <= |t|
      ensures r[i] == SumC(t[i..i + len])
    {
      HalfBlocks(i, h);
      assert u[i] == SumC(t[i..i + h]);
      assert u[i + h] == SumC(t[i + h..i + h + h]);
      StageFirst(u, len, h, w, i);
      SumHalves(t, i, h);
    }
  }

  /** The first slot of a block receives the sum of the block's two halves' first slots. */
  lemma StageFirst(u: seq<Complex>, len: nat, h: nat, w: Complex, i: nat)
    requires h >= 1 && len == h + h && |u| % len == 0 && i % len == 0 && i + len <= |u|
    ensures Stage(u, len, w)[i] == Add(u[i], u[i + h])
  {
    StageAtBlock(u, len, w, i, i);
    assert Mul(One, u[i + h]) == u[i + h];
  }

  lemma SumHalves(t: seq<Complex>, i: nat, h: nat)
    requires i + h + h <= |t|
    ensures SumC(t[i..i + h + h]) == Add(SumC(t[i..i + h]), SumC(t[i + h..i + h + h]))
  {
    assert t[i..i + h + h] == t[i..i + h] + t[i + h..i + h + h];
    SumCConcat(t[i..i + h], t[i + h..i + h + h]);
  }

  /** Bin 0 of the transform is the sum of all inputs (the DC component), whatever the twiddles. */
  lemma TransformDc(s: seq<Complex>, bits: nat, root: nat -> Complex)
    requires |s| == Pow2(bits)
    ensures Transform(s, bits, root)[0] == SumC(s)
  {
    var t := BitReversed(s, bits);
    StagesBlockSums(t, bits, root, bits);
    assert t[0..Pow2(bits)] == t;
    BitReversedPermutes(s, bits);
    SumCPermutation(t, s);
  }

  // ---------------------------------------------------------------------------
  // hamming_window
  // ---------------------------------------------------------------------------

  /**
   * The Hamming weights `0.54 - 0.46 * cos(2*pi*i / (n - 1))`; `cosine(i, n)` stands
   * for the cosine term the source evaluates with `cosf`.
   */
  function Hamming(n: nat, cosine: (nat, nat) -> real): (w: seq<real>)
    ensures |w| == n
  {
    seq(n, i requires 0 <= i < n => 0.54 - 0.46 * cosine(i, n))
  }

  /** `hamming_window`: writes the first `n` weights and nothing past them. */
  method HammingWindow(window: array<real>, n: nat, cosine: (nat, nat) -> real)
    requires n <= window.Length
    modifies window
    ensures window[..n] == Hamming(n, cosine)
    ensures window[n..] == old(window[n..])
  {
    for i := 0 to n
      invariant window[..i] == Hamming(n, cosine)[..i]
      invariant window[n..] == old(window[n..])
    {
      window[i] := 0.54 - 0.46 * cosine(i, n);
    }
  }
}
