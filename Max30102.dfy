/**
 * The sample decoder of `max30102_read_fifo` in `main/src/max30102.c`: six FIFO
 * bytes, three per channel and most significant first, become two 18-bit values.
 * The I2C transfer that fetches the bytes is not part of this model; the bytes are
 * an input. `uint8_t` and `uint32_t` are the bit-vector types `bv8` and `bv32`.
 */
module Max30102 {

  /** The mask `0x03FFFF` keeps 18 bits, so every value is below `2^18`. */
  const WORD18_LIMIT: bv32 := 0x40000

  /**
   * `((hi << 16) | (mid << 8) | lo) & 0x03FFFF`: the three bytes as one big-endian
   * 24-bit word, of which only the low 18 bits are kept. The value is the low two
   * bits of `hi`, then `mid`, then `lo`, as base-256 digits.
   */
  function Word18(hi: bv8, mid: bv8, lo: bv8): (v: bv32)
    ensures v < WORD18_LIMIT
    ensures v == (hi as bv32 & 3) * 0x10000 + (mid as bv32) * 0x100 + lo as bv32
  {
    (((hi as bv32) << 16) | ((mid as bv32) << 8) | (lo as bv32)) & 0x03FFFF
  }

  /** One FIFO sample: the red and the infrared reading. */
  datatype FifoSample = FifoSample(red: bv32, ir: bv32)

  /** The two assignments of `max30102_read_fifo`: bytes 0-2 are red, bytes 3-5 infrared. */
  function ReadFifoSample(raw: seq<bv8>): (s: FifoSample)
    requires |raw| == 6
    ensures s.red < WORD18_LIMIT && s.ir < WORD18_LIMIT
  {
    FifoSample(Word18(raw[0], raw[1], raw[2]), Word18(raw[3], raw[4], raw[5]))
  }

  /** The red value depends only on bytes 0-2, the infrared value only on bytes 3-5. */
  lemma ChannelsIndependent(raw1: seq<bv8>, raw2: seq<bv8>)
    requires |raw1| == 6 && |raw2| == 6
    ensures raw1[..3] == raw2[..3] ==> ReadFifoSample(raw1).red == ReadFifoSample(raw2).red
    ensures raw1[3..] == raw2[3..] ==> ReadFifoSample(raw1).ir == ReadFifoSample(raw2).ir
  {
    if raw1[..3] == raw2[..3] {
      assert raw1[0] == raw1[..3][0] && raw1[1] == raw1[..3][1] && raw1[2] == raw1[..3][2];
    }
    if raw1[3..] == raw2[3..] {
      assert raw1[3] == raw1[3..][0] && raw1[4] == raw1[3..][1] && raw1[5] == raw1[3..][2];
    }
  }

  /** The upper six bits of the first byte of each channel are masked away. */
  lemma UpperBitsIgnored(hi1: bv8, hi2: bv8, mid: bv8, lo: bv8)
    requires hi1 & 3 == hi2 & 3
    ensures Word18(hi1, mid, lo) == Word18(hi2, mid, lo)
  {
    assert hi1 as bv32 & 3 == (hi1 & 3) as bv32;
    assert hi2 as bv32 & 3 == (hi2 & 3) as bv32;
  }

  /** An 18-bit value split into the three big-endian bytes the sensor sends. */
  function Encode18(v: bv32): (raw: seq<bv8>)
    requires v < WORD18_LIMIT
    ensures |raw| == 3
  {
    [(v >> 16) as bv8, ((v >> 8) & 0xFF) as bv8, (v & 0xFF) as bv8]
  }

  /** Decoding the bytes of any 18-bit value gives the value back. */
  lemma DecodeEncode(v: bv32)
    requires v < WORD18_LIMIT
    ensures var raw := Encode18(v); Word18(raw[0], raw[1], raw[2]) == v
  {
  }

  /** Encoding a decoded value gives back the bytes, with the masked bits of `hi` cleared. */
  lemma EncodeDecode(hi: bv8, mid: bv8, lo: bv8)
    ensures Encode18(Word18(hi, mid, lo)) == [hi & 3, mid, lo]
  {
  }
}
