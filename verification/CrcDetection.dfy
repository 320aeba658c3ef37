// Which error patterns the CRC detects, over a covered region (flags up to and including the CRC byte)
// of any length.
module CrcDetection {
  import opened Bytes
  import opened Crc8
  import opened CrcBits

  /** A covered region passes the receiver's check; its last byte is the transmitted CRC. */
  predicate Passes(region: seq<byte>) {
    Crc(0, region) == 0
  }

  /** The bits that differ between what was sent and what was received. */
  function ErrorPattern(sent: seq<byte>, received: seq<byte>): (e: seq<bool>)
    requires |sent| == |received|
    ensures |e| == 8 * |sent|
  {
    Xor(Bits(sent), Bits(received))
  }

  function Weight(bits: seq<bool>): (w: nat)
    ensures w <= |bits|
  {
    if bits == [] then 0 else (if bits[0] then 1 else 0) + Weight(bits[1..])
  }

  /** Every flipped bit lies in the window of 8 consecutive bits that begins at bit i. */
  predicate WithinWindow(e: seq<bool>, i: nat) {
    forall k :: 0 <= k < |e| && e[k] ==> i <= k < i + 8
  }

  /** Exactly the bits p and q are flipped. */
  predicate FlipsExactly(e: seq<bool>, p: nat, q: nat) {
    && p < q < |e|
    && forall k :: 0 <= k < |e| ==> (e[k] <==> k == p || k == q)
  }

  // ---------------------------------------------------------------- syndromes

  lemma BitStepLinear(a: bv8, b: bv8, s: bool, t: bool)
    ensures BitStep(Add(a, b), s != t) == Add(BitStep(a, s), BitStep(b, t))
  {
    hide Add, MulX;
    var u: bv8 := if s then 0x80 else 0;
    var v: bv8 := if t then 0x80 else 0;
    AddLaws(a, 0);
    AddLaws(b, 0);
    AddLaws(Add(a, b), 0);
    AddSwap(a, u, b, v);
    AddLaws(0x80, 0x80);
    AddLaws(0x80, 0);
    AddLaws(0, 0);
    MulXLinear(Add(a, u), Add(b, v));
  }

  lemma {:induction false} BitCrcLinear(a: bv8, b: bv8, s: seq<bool>, t: seq<bool>)
    requires |s| == |t|
    ensures BitCrc(Add(a, b), Xor(s, t)) == Add(BitCrc(a, s), BitCrc(b, t))
    decreases s
  {
    hide Add, BitStep;
    if s != [] {
      BitStepLinear(a, b, s[0], t[0]);
      assert Xor(s, t)[1..] == Xor(s[1..], t[1..]);
      BitCrcLinear(BitStep(a, s[0]), BitStep(b, t[0]), s[1..], t[1..]);
    }
  }

  /** Once the sent region passes, whether the received one does depends on the error pattern alone. */
  lemma SyndromeDecides(sent: seq<byte>, received: seq<byte>)
    requires |sent| == |received| && Passes(sent)
    ensures Passes(received) <==> BitCrc(0, ErrorPattern(sent, received)) == 0
  {
    hide Add, BitCrc, Crc, Xor;
    CrcIsBitCrc(0, sent);
    CrcIsBitCrc(0, received);
    BitCrcLinear(0, 0, Bits(sent), Bits(received));
    AddLaws(0, 0);
    AddLaws(0, BitCrc(0, Bits(received)));
  }

  lemma {:induction false} QuietBits(c: bv8, bits: seq<bool>)
    requires forall k :: 0 <= k < |bits| ==> !bits[k]
    ensures BitCrc(c, bits) == MulXn(|bits|, c)
    decreases bits
  {
    hide MulX;
    if bits != [] {
      assert BitStep(c, bits[0]) == MulX(c);
      QuietBits(MulX(c), bits[1..]);
    }
  }

  // ---------------------------------------------------------------- odd weight: x + 1 divides the generator

  /** The number of set coefficients of c is odd. */
  predicate Odd(c: bv8) {
    var b := ByteBits(c);
    b[0] != (b[1] != (b[2] != (b[3] != (b[4] != (b[5] != (b[6] != b[7]))))))
  }

  lemma MulXKeepsParity(c: bv8)
    ensures Odd(MulX(c)) == Odd(c)
  {
    MulXBits(c);
  }

  lemma MulXBits(c: bv8)
    ensures MulX(c) & 0x80 != 0 <==> ((c & 0x40 != 0) != (c & 0x80 != 0))
    ensures MulX(c) & 0x40 != 0 <==> ((c & 0x20 != 0) != (c & 0x80 != 0))
    ensures MulX(c) & 0x20 != 0 <==> c & 0x10 != 0
    ensures MulX(c) & 0x10 != 0 <==> ((c & 0x08 != 0) != (c & 0x80 != 0))
    ensures MulX(c) & 0x08 != 0 <==> c & 0x04 != 0
    ensures MulX(c) & 0x04 != 0 <==> ((c & 0x02 != 0) != (c & 0x80 != 0))
    ensures MulX(c) & 0x02 != 0 <==> c & 0x01 != 0
    ensures MulX(c) & 0x01 != 0 <==> c & 0x80 != 0
  {}

  lemma FlipTopFlipsParity(c: bv8)
    ensures Odd(Add(c, 0x80)) != Odd(c)
  {
    assert Add(c, 0x80) & 0x80 != 0 <==> c & 0x80 == 0;
    assert Add(c, 0x80) & 0x7F == c & 0x7F;
    LowBits(c);
    LowBits(Add(c, 0x80));
  }

  lemma LowBits(c: bv8)
    ensures c & 0x40 == (c & 0x7F) & 0x40 && c & 0x20 == (c & 0x7F) & 0x20 && c & 0x10 == (c & 0x7F) & 0x10
    ensures c & 0x08 == (c & 0x7F) & 0x08 && c & 0x04 == (c & 0x7F) & 0x04
    ensures c & 0x02 == (c & 0x7F) & 0x02 && c & 0x01 == (c & 0x7F) & 0x01
  {}

  lemma {:induction false} ParityCarries(c: bv8, bits: seq<bool>)
    ensures Odd(BitCrc(c, bits)) <==> (Odd(c) != (Weight(bits) % 2 == 1))
    decreases bits
  {
    hide Odd, MulX, Add;
    if bits != [] {
      var t := if bits[0] then Add(c, 0x80) else c;
      FlipTopFlipsParity(c);
      MulXKeepsParity(t);
      ParityCarries(BitStep(c, bits[0]), bits[1..]);
    }
  }

  /** Any odd number of flipped bits is detected, however long the region. */
  lemma OddWeightDetected(sent: seq<byte>, received: seq<byte>)
    requires |sent| == |received| && Passes(sent)
    requires Weight(ErrorPattern(sent, received)) % 2 == 1
    ensures !Passes(received)
  {
    hide Passes;
    SyndromeDecides(sent, received);
    ParityCarries(0, ErrorPattern(sent, received));
  }

  // ---------------------------------------------------------------- bursts of up to 8 bits

  lemma SetBitMeansNonzero(v: byte, k: nat)
    requires k < 8 && ByteBits(v)[k]
    ensures v != 0
  {}

  lemma ByteSyndrome(v: byte)
    ensures BitCrc(0, ByteBits(v)) == 0 <==> v == 0
  {
    hide Add, ByteBits, BitCrc;
    ByteIsEightBits(0, v);
    AddLaws(v, 0);
    MulXnNonzero(8, v);
  }

  /** A window of 8 bits between two quiet stretches leaves a nonzero register. */
  lemma WindowSyndrome(e: seq<bool>, i: nat, k: nat)
    requires i + 8 <= |e| && WithinWindow(e, i)
    requires k < |e| && e[k]
    ensures BitCrc(0, e) != 0
  {
    hide BitCrc, ByteOfBits, ByteBits, MulXn;
    var before, w, after := e[..i], e[i..i + 8], e[i + 8..];
    assert e == before + (w + after);
    BitCrcConcat(0, before, w + after);
    QuietBits(0, before);
    MulXnZero(|before|);
    var v := ByteOfBits(w);
    BitsRoundTrip(w);
    BitCrcConcat(0, w, after);
    assert w[k - i];
    SetBitMeansNonzero(v, k - i);
    ByteSyndrome(v);
    QuietBits(BitCrc(0, w), after);
    MulXnNonzero(|after|, BitCrc(0, w));
  }

  /** Any burst confined to 8 consecutive bits, across byte boundaries or not, is detected. */
  lemma BurstDetected(sent: seq<byte>, received: seq<byte>, i: nat)
    requires |sent| == |received| && Passes(sent) && sent != received
    requires WithinWindow(ErrorPattern(sent, received), i)
    ensures !Passes(received)
  {
    hide Passes, BitCrc, Xor;
    var e := ErrorPattern(sent, received);
    SyndromeDecides(sent, received);
    var k := DifferenceShows(sent, received);
    WindowSyndrome(e, if i + 8 <= |e| then i else |e| - 8, k);
  }

  /** Different bytes differ in some bit. */
  lemma {:induction false} DifferenceShows(a: seq<byte>, b: seq<byte>) returns (k: nat)
    requires |a| == |b| && a != b
    ensures k < 8 * |a| && ErrorPattern(a, b)[k]
    decreases a
  {
    if a[0] != b[0] {
      k := ByteDifference(a[0], b[0]);
    } else {
      assert a == [a[0]] + a[1..] && b == [b[0]] + b[1..];
      k := DifferenceShows(a[1..], b[1..]);
      k := k + 8;
    }
  }

  lemma ByteDifference(a: byte, b: byte) returns (k: nat)
    requires a != b
    ensures k < 8 && ByteBits(a)[k] != ByteBits(b)[k]
  {
    ByteFromItsBits(a);
    ByteFromItsBits(b);
    k := FirstDifference(ByteBits(a), ByteBits(b));
  }

  lemma FirstDifference(x: seq<bool>, y: seq<bool>) returns (k: nat)
    requires |x| == |y| && x != y
    ensures k < |x| && x[k] != y[k]
  {
    k :| k < |x| && x[k] != y[k];
  }

  // ---------------------------------------------------------------- two flipped bits

  lemma TopIsPower()
    ensures MulXn(7, 1) == 0x80
  {
    assert MulXn(7, 1) == MulXn(3, MulXn(4, 1)) by { MulXnAdd(3, 4, 1); }
    assert MulXn(4, 1) == 0x10;
    assert MulXn(3, 0x10) == 0x80;
  }

  /** Multiplying by x^d fixes the top coefficient exactly when x^d is 1. */
  lemma TopFixed(d: nat)
    ensures MulXn(d, 0x80) == 0x80 <==> d % 93 == 0
  {
    hide MulXn;
    TopIsPower();
    MulXnAdd(d, 7, 1);
    MulXnAdd(7, d, 1);
    OrderOfX(d);
    if MulXn(d, 0x80) == 0x80 {
      MulXnInjective(7, MulXn(d, 1), 1);
    }
  }

  lemma TwoFlipsSyndrome(e: seq<bool>, p: nat, q: nat)
    requires FlipsExactly(e, p, q)
    ensures BitCrc(0, e) == 0 <==> (q - p) % 93 == 0
  {
    hide BitCrc, MulX, Add, MulXn, BitStep;
    var before, between, after := e[..p], e[p + 1..q], e[q + 1..];
    assert e == before + ([true] + (between + ([true] + after)));
    BitCrcConcat(0, before, [true] + (between + ([true] + after)));
    QuietBits(0, before);
    MulXnZero(p);
    BitCrcConcat(0, [true], between + ([true] + after));
    OneSetBit(0);
    AddLaws(0x80, 0);
    var c1 := MulX(0x80);
    BitCrcConcat(c1, between, [true] + after);
    QuietBits(c1, between);
    FirstTurn(q - p, 0x80);
    var c2 := MulXn(q - p, 0x80);
    BitCrcConcat(c2, [true], after);
    OneSetBit(c2);
    var c3 := MulX(Add(c2, 0x80));
    QuietBits(c3, after);
    MulXnNonzero(|after|, c3);
    FirstTurn(1, Add(c2, 0x80));
    MulXnNonzero(1, Add(c2, 0x80));
    AddLaws(c2, 0x80);
    TopFixed(q - p);
  }

  lemma FirstTurn(n: nat, c: bv8)
    requires n > 0
    ensures MulXn(n, c) == MulXn(n - 1, MulX(c))
    ensures n == 1 ==> MulXn(n, c) == MulX(c)
  {
    hide MulX;
  }

  lemma OneSetBit(c: bv8)
    ensures BitCrc(c, [true]) == MulX(Add(c, 0x80))
  {
    hide MulX, Add;
    assert [true][1..] == [];
    assert BitCrc(c, [true]) == BitCrc(BitStep(c, true), []);
  }

  /** Two flipped bits go unnoticed exactly when 93 divides their distance. */
  lemma TwoFlipsDetected(sent: seq<byte>, received: seq<byte>, p: nat, q: nat)
    requires |sent| == |received| && Passes(sent)
    requires FlipsExactly(ErrorPattern(sent, received), p, q)
    ensures Passes(received) <==> (q - p) % 93 == 0
  {
    hide Passes, BitCrc, Xor;
    SyndromeDecides(sent, received);
    TwoFlipsSyndrome(ErrorPattern(sent, received), p, q);
  }

  // ---------------------------------------------------------------- one to three flipped bits

  lemma {:induction false} WeightZero(e: seq<bool>)
    requires Weight(e) == 0
    ensures forall k :: 0 <= k < |e| ==> !e[k]
    decreases e
  {
    if e != [] {
      WeightZero(e[1..]);
    }
  }

  lemma {:induction false} WeightOne(e: seq<bool>) returns (p: nat)
    requires Weight(e) == 1
    ensures p < |e| && forall k :: 0 <= k < |e| ==> (e[k] <==> k == p)
    decreases e
  {
    if e[0] {
      p := 0;
      WeightZero(e[1..]);
    } else {
      p := WeightOne(e[1..]);
      p := p + 1;
    }
  }

  lemma {:induction false} WeightTwo(e: seq<bool>) returns (p: nat, q: nat)
    requires Weight(e) == 2
    ensures FlipsExactly(e, p, q)
    decreases e
  {
    if e[0] {
      p := 0;
      q := WeightOne(e[1..]);
      q := q + 1;
    } else {
      p, q := WeightTwo(e[1..]);
      p, q := p + 1, q + 1;
    }
  }

  /** Regions of at most 11 bytes have Hamming distance 4: one to three flipped bits are always detected. */
  lemma UpToThreeFlipsDetected(sent: seq<byte>, received: seq<byte>)
    requires |sent| == |received| <= 11 && Passes(sent)
    requires 1 <= Weight(ErrorPattern(sent, received)) <= 3
    ensures !Passes(received)
  {
    hide Passes, Xor;
    var e := ErrorPattern(sent, received);
    if Weight(e) == 2 {
      var p, q := WeightTwo(e);
      TwoFlipsDetected(sent, received, p, q);
    } else {
      OddWeightDetected(sent, received);
    }
  }
}
