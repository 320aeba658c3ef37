// CRC-8/DVB-S2 as protocol/msp.c computes it, and the algebra of GF(2)[x] modulo its generator
// x^8+x^7+x^6+x^4+x^2+1 (section 5.1.4 of ETSI EN 302 307), which decides the errors it detects.
// An element of the ring is a bv8 whose bit k is the coefficient of x^k.
module Crc8 {
  import opened Bytes

  // ---------------------------------------------------------------- the ring

  /** Addition in the ring. */
  function Add(a: bv8, b: bv8): bv8 {
    a ^ b
  }

  /** c * x: one turn of the source's bit loop. */
  function MulX(c: bv8): bv8 {
    if c & 0x80 != 0 then (c << 1) ^ 0xD5 else c << 1
  }

  /** c * x^n */
  function MulXn(n: nat, c: bv8): bv8 {
    if n == 0 then c else MulXn(n - 1, MulX(c))
  }

  lemma AddLaws(a: bv8, b: bv8)
    ensures Add(a, b) == Add(b, a)
    ensures Add(a, a) == 0
    ensures Add(a, 0) == a == Add(0, a)
    ensures Add(a, b) == 0 <==> a == b
  {}

  lemma AddAssociative(a: bv8, b: bv8, c: bv8)
    ensures Add(Add(a, b), c) == Add(a, Add(b, c))
  {}

  lemma AddSwap(a: bv8, b: bv8, c: bv8, d: bv8)
    ensures Add(Add(a, b), Add(c, d)) == Add(Add(a, c), Add(b, d))
  {
    hide Add;
    AddAssociative(a, b, Add(c, d));
    AddAssociative(b, c, d);
    AddAssociative(c, b, d);
    AddAssociative(a, c, Add(b, d));
    AddLaws(b, c);
  }

  lemma ShiftOfSum(a: bv8, b: bv8)
    ensures (a ^ b) << 1 == (a << 1) ^ (b << 1)
  {}

  lemma TopOfSum(a: bv8, b: bv8)
    ensures (a ^ b) & 0x80 == (a & 0x80) ^ (b & 0x80)
  {}

  lemma TopBit(a: bv8)
    ensures a & 0x80 == 0 || a & 0x80 == 0x80
  {}

  lemma ReductionCancels(a: bv8, b: bv8)
    ensures (a ^ 0xD5) ^ (b ^ 0xD5) == a ^ b
    ensures (a ^ 0xD5) ^ b == (a ^ b) ^ 0xD5
    ensures a ^ (b ^ 0xD5) == (a ^ b) ^ 0xD5
  {}

  lemma MulXOfXor(a: bv8, b: bv8)
    ensures MulX(a ^ b) == MulX(a) ^ MulX(b)
  {
    ShiftOfSum(a, b);
    TopOfSum(a, b);
    TopBit(a);
    TopBit(b);
    ReductionCancels(a << 1, b << 1);
    if a & 0x80 != 0 {
      if b & 0x80 != 0 {} else {}
    } else {
      if b & 0x80 != 0 {} else {}
    }
  }

  lemma MulXLinear(a: bv8, b: bv8)
    ensures MulX(Add(a, b)) == Add(MulX(a), MulX(b))
  {
    hide MulX;
    MulXOfXor(a, b);
  }

  lemma MulXInjective(a: bv8, b: bv8)
    requires MulX(a) == MulX(b)
    ensures a == b
  {}

  lemma {:induction false} MulXnLinear(n: nat, a: bv8, b: bv8)
    ensures MulXn(n, Add(a, b)) == Add(MulXn(n, a), MulXn(n, b))
  {
    hide MulX, Add;
    if n > 0 {
      MulXLinear(a, b);
      MulXnLinear(n - 1, MulX(a), MulX(b));
    }
  }

  /** x is invertible: multiplying by a power of x loses nothing. */
  lemma {:induction false} MulXnInjective(n: nat, a: bv8, b: bv8)
    requires MulXn(n, a) == MulXn(n, b)
    ensures a == b
  {
    hide MulX, Add;
    if n > 0 {
      MulXnInjective(n - 1, MulX(a), MulX(b));
      MulXInjective(a, b);
    }
  }

  lemma {:induction false} MulXnAdd(m: nat, n: nat, c: bv8)
    ensures MulXn(m, MulXn(n, c)) == MulXn(m + n, c)
  {
    hide MulX;
    if n > 0 {
      MulXnAdd(m, n - 1, MulX(c));
    }
  }

  lemma {:induction false} MulXnZero(n: nat)
    ensures MulXn(n, 0) == 0
  {
    if n > 0 {
      assert MulX(0) == 0;
      MulXnZero(n - 1);
    }
  }

  lemma MulXnNonzero(n: nat, c: bv8)
    ensures MulXn(n, c) == 0 <==> c == 0
  {
    MulXnZero(n);
    if MulXn(n, c) == 0 {
      MulXnInjective(n, c, 0);
    }
  }

  // ---------------------------------------------------------------- the order of x is 93

  function MulX8(c: bv8): bv8 {
    MulX(MulX(MulX(MulX(MulX(MulX(MulX(MulX(c))))))))
  }

  lemma OneTurn(n: nat, c: bv8)
    ensures MulXn(0, c) == c && MulXn(n + 1, c) == MulXn(n, MulX(c))
  {
    hide MulX;
  }

  lemma EightTurns(c: bv8)
    ensures MulXn(8, c) == MulX8(c)
  {
    hide MulX, MulXn;
    var c1 := MulX(c);
    var c2 := MulX(c1);
    var c3 := MulX(c2);
    var c4 := MulX(c3);
    var c5 := MulX(c4);
    var c6 := MulX(c5);
    var c7 := MulX(c6);
    OneTurn(7, c);
    OneTurn(6, c1);
    OneTurn(5, c2);
    OneTurn(4, c3);
    OneTurn(3, c4);
    OneTurn(2, c5);
    OneTurn(1, c6);
    OneTurn(0, c7);
    OneTurn(0, MulX(c7));
  }

  lemma AddPower(n: nat, c: bv8)
    requires MulXn(n, 1) == c
    ensures MulXn(n + 8, 1) == MulX8(c)
  {
    hide MulX;
    MulXnAdd(8, n, 1);
    EightTurns(c);
  }

  /** x^93 = 1, while none of x, x^3 and x^31 is 1. */
  lemma PowersOfX()
    ensures MulXn(93, 1) == 1
    ensures MulXn(1, 1) != 1
    ensures MulXn(3, 1) != 1
    ensures MulXn(31, 1) != 1
  {
    MulXnAdd(2, 3, 1);
    MulXnAdd(2, 29, 1);
    assert MulXn(3, 1) == 0x08;
    assert MulXn(2, 0x08) == 0x20;
    assert MulXn(2, 0x32) == 0xC8;
    hide MulXn;
    AddPower(5, 0x20);
    AddPower(13, 0xA4);
    AddPower(21, 0xB5);
    AddPower(29, 0x32);
    AddPower(37, 0x89);
    AddPower(45, 0x13);
    AddPower(53, 0xF8);
    AddPower(61, 0xAD);
    AddPower(69, 0x49);
    AddPower(77, 0x61);
    AddPower(85, 0xEC);
  }

  /** Subtractive Euclid on exponents: if x^a = x^b = 1 then x^g = 1 for a common divisor g. */
  lemma {:induction false} CommonPower(a: nat, b: nat) returns (g: nat)
    requires a > 0 && b > 0
    requires MulXn(a, 1) == 1 && MulXn(b, 1) == 1
    ensures 0 < g <= a && MulXn(g, 1) == 1
    ensures exists i, j :: a == g * i && b == g * j
    decreases a + b
  {
    hide MulX;
    if a == b {
      g := a;
      assert a == g * 1 && b == g * 1;
    } else if a < b {
      MulXnAdd(b - a, a, 1);
      g := CommonPower(a, b - a);
      var i, j :| a == g * i && b - a == g * j;
      assert b == g * (i + j);
    } else {
      MulXnAdd(a - b, b, 1);
      g := CommonPower(a - b, b);
      var i, j :| a - b == g * i && b == g * j;
      assert a == g * (i + j);
    }
  }

  lemma DivisorsOf93(g: nat, j: int)
    requires 93 == g * j && g < 93
    ensures g == 1 || g == 3 || g == 31
  {
    if j <= 9 {
      assert j > 1;
      assert j == 2 || j == 3 || j == 4 || j == 5 || j == 6 || j == 7 || j == 8 || j == 9;
    } else {
      assert g <= 9;
      assert g == 0 || g == 1 || g == 2 || g == 3 || g == 4 || g == 5 || g == 6 || g == 7 || g == 8 || g == 9;
    }
  }

  /** The order of x is exactly 93. */
  lemma OrderOfX(d: nat)
    ensures MulXn(d, 1) == 1 <==> d % 93 == 0
  {
    hide MulX;
    PowersOfX();
    var q, r := d / 93, d % 93;
    MulXnPeriod(93, q);
    MulXnAdd(r, 93 * q, 1);
    assert d == r + 93 * q;
    assert MulXn(d, 1) == MulXn(r, 1);
    if r > 0 && MulXn(r, 1) == 1 {
      var g := CommonPower(r, 93);
      var i, j :| r == g * i && 93 == g * j;
      DivisorsOf93(g, j);
    }
  }

  lemma {:induction false} MulXnPeriod(n: nat, k: nat)
    requires MulXn(n, 1) == 1
    ensures MulXn(n * k, 1) == 1
  {
    hide MulX;
    if k > 0 {
      MulXnPeriod(n, k - 1);
      MulXnAdd(n, n * (k - 1), 1);
      assert n * k == n + n * (k - 1);
    }
  }

  // ---------------------------------------------------------------- the code's CRC

  /** The register after one byte. */
  function CrcByte(crc: bv8, value: byte): bv8 {
    MulXn(8, Add(crc, value))
  }

  /** The register after a run of bytes. */
  function Crc(crc: bv8, bytes: seq<byte>): bv8
    decreases bytes
  {
    if bytes == [] then crc else Crc(CrcByte(crc, bytes[0]), bytes[1..])
  }

  lemma CrcOfOne(crc: bv8, b: byte, rest: seq<byte>)
    ensures Crc(crc, [b] + rest) == Crc(CrcByte(crc, b), rest)
  {
    assert ([b] + rest)[1..] == rest;
  }

  lemma CrcOfByte(crc: bv8, b: byte, next: bv8)
    requires MulX8(Add(crc, b)) == next
    ensures CrcByte(crc, b) == next
  {
    EightTurns(Add(crc, b));
    hide MulXn, MulX8, Add;
  }

  /** The published check value of CRC-8/DVB-S2: that of the nine characters 1 to 9. */
  lemma CheckValue()
    ensures Crc(0, [0x31, 0x32, 0x33, 0x34, 0x35, 0x36, 0x37, 0x38, 0x39]) == 0xBC
  {
    CrcOfByte(0x00, 0x31, 0x23);
    CrcOfByte(0x23, 0x32, 0x87);
    CrcOfByte(0x87, 0x33, 0xE7);
    CrcOfByte(0xE7, 0x34, 0x8A);
    CrcOfByte(0x8A, 0x35, 0x64);
    CrcOfByte(0x64, 0x36, 0xB0);
    CrcOfByte(0xB0, 0x37, 0xBB);
    CrcOfByte(0xBB, 0x38, 0x45);
    CrcOfByte(0x45, 0x39, 0xBC);
    hide CrcByte;
    assert [0x31 as byte, 0x32, 0x33, 0x34, 0x35, 0x36, 0x37, 0x38, 0x39]
        == [0x31] + ([0x32] + ([0x33] + ([0x34] + ([0x35] + ([0x36] + ([0x37] + ([0x38] + ([0x39] + []))))))));
    CrcOfOne(0x00, 0x31, [0x32] + ([0x33] + ([0x34] + ([0x35] + ([0x36] + ([0x37] + ([0x38] + ([0x39] + []))))))));
    CrcOfOne(0x23, 0x32, [0x33] + ([0x34] + ([0x35] + ([0x36] + ([0x37] + ([0x38] + ([0x39] + [])))))));
    CrcOfOne(0x87, 0x33, [0x34] + ([0x35] + ([0x36] + ([0x37] + ([0x38] + ([0x39] + []))))));
    CrcOfOne(0xE7, 0x34, [0x35] + ([0x36] + ([0x37] + ([0x38] + ([0x39] + [])))));
    CrcOfOne(0x8A, 0x35, [0x36] + ([0x37] + ([0x38] + ([0x39] + []))));
    CrcOfOne(0x64, 0x36, [0x37] + ([0x38] + ([0x39] + [])));
    CrcOfOne(0xB0, 0x37, [0x38] + ([0x39] + []));
    CrcOfOne(0xBB, 0x38, [0x39] + []);
    CrcOfOne(0x45, 0x39, []);
  }

  method Crc8DvbS2(crc: bv8, value: byte) returns (r: bv8)
    ensures r == CrcByte(crc, value)
  {
    r := crc ^ value;
    var i := 0;
    while i < 8
      invariant 0 <= i <= 8
      invariant MulXn(8 - i, r) == CrcByte(crc, value)
    {
      var shifted := r << 1;
      r := if r & 0x80 != 0 then shifted ^ 0xD5 else shifted;
      i := i + 1;
    }
  }

  lemma {:induction false} CrcConcat(crc: bv8, a: seq<byte>, b: seq<byte>)
    ensures Crc(crc, a + b) == Crc(Crc(crc, a), b)
    decreases a
  {
    hide CrcByte;
    if a == [] {
      assert a + b == b;
    } else {
      assert (a + b)[1..] == a[1..] + b;
      CrcConcat(CrcByte(crc, a[0]), a[1..], b);
    }
  }

  lemma CrcSnoc(crc: bv8, a: seq<byte>, b: byte)
    ensures Crc(crc, a + [b]) == CrcByte(Crc(crc, a), b)
  {
    hide CrcByte;
    CrcConcat(crc, a, [b]);
    assert Crc(Crc(crc, a), [b]) == Crc(CrcByte(Crc(crc, a), b), [b][1..]);
  }

  /** Comparing the last byte with the register is the same as feeding it and testing for zero. */
  lemma CrcResidue(bytes: seq<byte>, check: byte)
    ensures Crc(0, bytes + [check]) == 0 <==> check == Crc(0, bytes)
  {
    hide Add;
    CrcSnoc(0, bytes, check);
    var c := Crc(0, bytes);
    MulXnNonzero(8, Add(c, check));
    AddLaws(c, check);
  }
}
