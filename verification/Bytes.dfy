// Bytes, their bits (most significant first) and the numbers they stand for.
module Bytes {

  type byte = bv8

  function ByteBits(v: byte): (r: seq<bool>)
    ensures |r| == 8
  {
    [v & 0x80 != 0, v & 0x40 != 0, v & 0x20 != 0, v & 0x10 != 0,
     v & 0x08 != 0, v & 0x04 != 0, v & 0x02 != 0, v & 0x01 != 0]
  }

  /** The byte with the given bits. */
  function ByteOfBits(b: seq<bool>): byte
    requires |b| == 8
  {
    (if b[0] then 0x80 else 0) | (if b[1] then 0x40 else 0) | (if b[2] then 0x20 else 0) | (if b[3] then 0x10 else 0) |
    (if b[4] then 0x08 else 0) | (if b[5] then 0x04 else 0) | (if b[6] then 0x02 else 0) | (if b[7] then 0x01 else 0)
  }

  lemma BitsRoundTrip(b: seq<bool>)
    requires |b| == 8
    ensures ByteBits(ByteOfBits(b)) == b
  {}

  lemma ByteFromItsBits(v: byte)
    ensures ByteOfBits(ByteBits(v)) == v
  {}

  // ---------------------------------------------------------------- binary numbers

  function Pow2(w: nat): (p: nat)
    ensures p > 0
  {
    if w == 0 then 1 else 2 * Pow2(w - 1)
  }

  /** The number written with the given binary digits. */
  function Number(b: seq<bool>): (n: nat)
    ensures n < Pow2(|b|)
  {
    if b == [] then 0 else 2 * Number(b[..|b| - 1]) + (if b[|b| - 1] then 1 else 0)
  }

  /** The last w binary digits of a number. */
  function Digits(n: nat, w: nat): (b: seq<bool>)
    ensures |b| == w
  {
    if w == 0 then [] else Digits(n / 2, w - 1) + [n % 2 == 1]
  }

  lemma {:induction false} DigitsRoundTrip(n: nat, w: nat)
    requires n < Pow2(w)
    ensures Number(Digits(n, w)) == n
  {
    if w > 0 {
      DigitsRoundTrip(n / 2, w - 1);
    }
  }

  lemma ByteRange()
    ensures Pow2(8) == 256
  {}

  /** The unsigned value of a byte. */
  function Value(v: byte): (n: nat)
    ensures n < 256
  {
    ByteRange();
    Number(ByteBits(v))
  }

  function ByteOfValue(n: nat): byte
    requires n < 256
  {
    ByteOfBits(Digits(n, 8))
  }

  lemma ValueRoundTrip(n: nat)
    requires n < 256
    ensures Value(ByteOfValue(n)) == n
  {
    hide ByteBits, ByteOfBits, Number, Digits, Pow2;
    BitsRoundTrip(Digits(n, 8));
    ByteRange();
    DigitsRoundTrip(n, 8);
  }
}
