// The CRC seen bit by bit, most significant bit of each byte first, and the error patterns it detects.
// An error pattern is the exclusive or of the bits sent and the bits received.
module CrcBits {
  import opened Bytes
  import opened Crc8

  // ---------------------------------------------------------------- bits of bytes

  function Bits(bytes: seq<byte>): (r: seq<bool>)
    ensures |r| == 8 * |bytes|
  {
    if bytes == [] then [] else ByteBits(bytes[0]) + Bits(bytes[1..])
  }

  function Xor(a: seq<bool>, b: seq<bool>): (r: seq<bool>)
    requires |a| == |b|
    ensures |r| == |a|
    ensures forall k :: 0 <= k < |a| ==> r[k] == (a[k] != b[k])
  {
    seq(|a|, k requires 0 <= k < |a| => a[k] != b[k])
  }

  // ---------------------------------------------------------------- long division, bit by bit

  function BitStep(c: bv8, bit: bool): bv8 {
    MulX(if bit then Add(c, 0x80) else c)
  }

  function BitCrc(c: bv8, bits: seq<bool>): bv8
    decreases bits
  {
    if bits == [] then c else BitCrc(BitStep(c, bits[0]), bits[1..])
  }

  lemma {:induction false} BitCrcConcat(c: bv8, a: seq<bool>, b: seq<bool>)
    ensures BitCrc(c, a + b) == BitCrc(BitCrc(c, a), b)
    decreases a
  {
    hide BitStep;
    if a == [] {
      assert a + b == b;
    } else {
      assert (a + b)[1..] == a[1..] + b;
      BitCrcConcat(BitStep(c, a[0]), a[1..], b);
    }
  }

  /** Taking the top bit of a byte apart from the seven below it. */
  lemma TopBitFirst(v: byte)
    ensures v == Add(if v & 0x80 != 0 then 0x80 else 0, v & 0x7F)
    ensures MulX(v & 0x7F) == v << 1
  {}

  lemma OneBit(c: bv8, v: byte)
    ensures MulX(Add(c, v)) == Add(BitStep(c, v & 0x80 != 0), v << 1)
  {
    var t: bv8 := if v & 0x80 != 0 then 0x80 else 0;
    var low := v & 0x7F;
    TopBitFirst(v);
    hide Add, MulX;
    AddAssociative(c, t, low);
    MulXLinear(Add(c, t), low);
    AddLaws(c, 0);
  }

  lemma ShiftedBits(v: byte)
    ensures (v << 1) & 0x80 != 0 <==> v & 0x40 != 0
    ensures (v << 2) & 0x80 != 0 <==> v & 0x20 != 0
    ensures (v << 3) & 0x80 != 0 <==> v & 0x10 != 0
    ensures (v << 4) & 0x80 != 0 <==> v & 0x08 != 0
    ensures (v << 5) & 0x80 != 0 <==> v & 0x04 != 0
    ensures (v << 6) & 0x80 != 0 <==> v & 0x02 != 0
    ensures (v << 7) & 0x80 != 0 <==> v & 0x01 != 0
  {}

  lemma ShiftTwice(v: byte)
    ensures (v << 1) << 1 == v << 2 && (v << 2) << 1 == v << 3 && (v << 3) << 1 == v << 4
    ensures (v << 4) << 1 == v << 5 && (v << 5) << 1 == v << 6 && (v << 6) << 1 == v << 7
    ensures (v << 7) << 1 == 0
  {}

  /** Feeding a byte is feeding its eight bits, the most significant first. */
  lemma ByteIsEightBits(c: bv8, v: byte)
    ensures BitCrc(c, ByteBits(v)) == CrcByte(c, v)
  {
    hide Add, MulX, BitStep;
    EightTurns(Add(c, v));
    ShiftedBits(v);
    ShiftTwice(v);
    var b := ByteBits(v);
    var c1 := BitStep(c, b[0]);
    var c2 := BitStep(c1, b[1]);
    var c3 := BitStep(c2, b[2]);
    var c4 := BitStep(c3, b[3]);
    var c5 := BitStep(c4, b[4]);
    var c6 := BitStep(c5, b[5]);
    var c7 := BitStep(c6, b[6]);
    var c8 := BitStep(c7, b[7]);
    OneBit(c, v);
    OneBit(c1, v << 1);
    OneBit(c2, v << 2);
    OneBit(c3, v << 3);
    OneBit(c4, v << 4);
    OneBit(c5, v << 5);
    OneBit(c6, v << 6);
    OneBit(c7, v << 7);
    assert MulX8(Add(c, v)) == Add(c8, 0);
    AddLaws(c8, 0);
    EightBits(c, b);
  }

  lemma EightBits(c: bv8, b: seq<bool>)
    requires |b| == 8
    ensures BitCrc(c, b) == BitStep(BitStep(BitStep(BitStep(BitStep(BitStep(BitStep(BitStep(
              c, b[0]), b[1]), b[2]), b[3]), b[4]), b[5]), b[6]), b[7])
  {
    hide BitStep;
    var c2 := BitStep(BitStep(c, b[0]), b[1]);
    var c4 := BitStep(BitStep(c2, b[2]), b[3]);
    var c6 := BitStep(BitStep(c4, b[4]), b[5]);
    TwoBits(c, b);
    TwoBits(c2, b[2..]);
    TwoBits(c4, b[4..]);
    TwoBits(c6, b[6..]);
    assert b[2..][2..] == b[4..] && b[4..][2..] == b[6..] && b[6..][2..] == [];
  }

  lemma TwoBits(c: bv8, b: seq<bool>)
    requires |b| >= 2
    ensures BitCrc(c, b) == BitCrc(BitStep(BitStep(c, b[0]), b[1]), b[2..])
  {
    hide BitStep;
    assert b[1..][1..] == b[2..];
  }

  /** The byte-wise register equals the bit-wise one. */
  lemma {:induction false} CrcIsBitCrc(c: bv8, bytes: seq<byte>)
    ensures Crc(c, bytes) == BitCrc(c, Bits(bytes))
    decreases bytes
  {
    hide CrcByte, BitStep, ByteBits;
    if bytes != [] {
      ByteIsEightBits(c, bytes[0]);
      BitCrcConcat(c, ByteBits(bytes[0]), Bits(bytes[1..]));
      CrcIsBitCrc(CrcByte(c, bytes[0]), bytes[1..]);
    }
  }
}
