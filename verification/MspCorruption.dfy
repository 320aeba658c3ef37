// Corrupted messages at the parser: which bit errors in the bytes after the header, with the length field
// intact, can never be mistaken for a message.
module MspCorruption {
  import opened Bytes
  import opened Crc8
  import opened CrcBits
  import opened CrcDetection
  import opened Msp
  import opened MspParser

  /** received has the size, the three header bytes and the length field of the encoding of m. */
  ghost predicate HeaderIntact(m: Message, received: seq<byte>) {
    && |received| == |Encode(m)|
    && received[..3] == Encode(m)[..3]
    && received[6..8] == Encode(m)[6..8]
  }

  /** Flags up to and including the CRC byte. */
  function Region(frame: seq<byte>): (r: seq<byte>)
    requires |frame| >= 3
    ensures |r| == |frame| - 3
  {
    frame[3..]
  }

  /** The flipped bits in the covered bytes. */
  function Flipped(m: Message, received: seq<byte>): (e: seq<bool>)
    requires |received| == |Encode(m)|
    ensures |e| == 8 * (6 + |m.payload|)
  {
    ErrorPattern(Region(Encode(m)), Region(received))
  }

  /** The parser hands nothing over and is idle again. */
  ghost predicate Rejected(p: Parser, received: seq<byte>)
    requires p.Valid()
  {
    Output(p, received) == [] && After(p, received).state == Idle
  }

  lemma EncodedPasses(m: Message)
    ensures Passes(Region(Encode(m)))
  {
    hide Crc, Header;
    assert Region(Encode(m)) == Covered(m) + [Crc(0, Covered(m))];
    CrcResidue(Covered(m), Crc(0, Covered(m)));
  }

  lemma BadCrcIsSkipped(m: Message, received: seq<byte>)
    requires m.Valid() && HeaderIntact(m, received) && !Passes(Region(received))
    ensures ScanFront(received) == Skip(|received|)
  {
    hide Crc, Value, Low, High;
    var n := |m.payload|;
    WordRoundTrip(n);
    assert received[0] == received[..3][0] && received[1] == received[..3][1] && received[2] == received[..3][2];
    assert received[6] == received[6..8][0] && received[7] == received[6..8][1];
    assert Word(received[6], received[7]) == n;
    assert Region(received) == received[3..8 + n] + [received[8 + n]];
    CrcResidue(received[3..8 + n], received[8 + n]);
  }

  /** With the header and length intact, an idle parser rejects exactly what the CRC check rejects. */
  lemma BadCrcIsRejected(p: Parser, m: Message, received: seq<byte>)
    requires p.Valid() && p.state == Idle
    requires m.Valid() && HeaderIntact(m, received) && !Passes(Region(received))
    ensures Rejected(p, received)
  {
    hide Encode, HeaderIntact, Passes, Region, Pending, ScanFront, After, Output;
    BadCrcIsSkipped(m, received);
    IdleIsFresh(p);
    RunRefinesGrammar(p, [], received);
    assert [] + received == received;
    assert received[|received|..] == [];
    NothingToScan();
    PendingNothing(After(p, received));
  }

  /** An odd number of flipped bits is rejected whatever the payload length. */
  lemma OddErrorsRejected(p: Parser, m: Message, received: seq<byte>)
    requires p.Valid() && p.state == Idle && m.Valid() && HeaderIntact(m, received)
    requires Weight(Flipped(m, received)) % 2 == 1
    ensures Rejected(p, received)
  {
    hide Encode, Passes, Region, Rejected;
    EncodedPasses(m);
    OddWeightDetected(Region(Encode(m)), Region(received));
    BadCrcIsRejected(p, m, received);
  }

  /** A burst of at most 8 consecutive flipped bits is rejected whatever the payload length. */
  lemma BurstsRejected(p: Parser, m: Message, received: seq<byte>, i: nat)
    requires p.Valid() && p.state == Idle && m.Valid() && HeaderIntact(m, received)
    requires received != Encode(m) && WithinWindow(Flipped(m, received), i)
    ensures Rejected(p, received)
  {
    hide Encode, Passes, Rejected;
    EncodedPasses(m);
    var sent := Encode(m);
    assert sent == sent[..3] + Region(sent) && received == received[..3] + Region(received);
    BurstDetected(Region(sent), Region(received), i);
    BadCrcIsRejected(p, m, received);
  }

  /** Two flipped bits are let through by the CRC exactly when 93 divides their distance. */
  lemma TwoFlippedBits(p: Parser, m: Message, received: seq<byte>, a: nat, b: nat)
    requires p.Valid() && p.state == Idle && m.Valid() && HeaderIntact(m, received)
    requires FlipsExactly(Flipped(m, received), a, b)
    ensures Rejected(p, received) <==> (b - a) % 93 != 0
  {
    hide Encode, Passes, Region;
    EncodedPasses(m);
    TwoFlipsDetected(Region(Encode(m)), Region(received), a, b);
    if (b - a) % 93 != 0 {
      BadCrcIsRejected(p, m, received);
    } else {
      GoodCrcIsAccepted(p, m, received);
    }
  }

  /** The message in a frame of the size of m's. */
  function Carried(m: Message, received: seq<byte>): Message
    requires |received| == |Encode(m)|
  {
    Message(Word(received[4], received[5]), received[8..8 + |m.payload|])
  }

  lemma GoodCrcIsScanned(m: Message, received: seq<byte>)
    requires m.Valid() && HeaderIntact(m, received) && Passes(Region(received))
    ensures ScanFront(received) == Good(|received|, Carried(m, received))
  {
    hide Crc, Value, Low, High;
    var n := |m.payload|;
    WordRoundTrip(n);
    assert received[0] == received[..3][0] && received[1] == received[..3][1] && received[2] == received[..3][2];
    assert received[6] == received[6..8][0] && received[7] == received[6..8][1];
    assert Word(received[6], received[7]) == n;
    assert Region(received) == received[3..8 + n] + [received[8 + n]];
    CrcResidue(received[3..8 + n], received[8 + n]);
  }

  lemma GoodCrcIsAccepted(p: Parser, m: Message, received: seq<byte>)
    requires p.Valid() && p.state == Idle
    requires m.Valid() && HeaderIntact(m, received) && Passes(Region(received))
    ensures |received| == |Encode(m)| && Output(p, received) == [Carried(m, received)]
  {
    assert |received| == |Encode(m)|;
    hide Encode, HeaderIntact, Passes, Region, Pending, ScanFront, After, Output, Carried;
    GoodCrcIsScanned(m, received);
    IdleIsFresh(p);
    RunRefinesGrammar(p, [], received);
    assert [] + received == received;
    assert received[|received|..] == [];
    NothingToScan();
  }

  /** One to three flipped bits are always rejected when the payload has at most 5 bytes, as the rangefinder's has. */
  lemma UpToThreeFlipsRejected(p: Parser, m: Message, received: seq<byte>)
    requires p.Valid() && p.state == Idle && HeaderIntact(m, received)
    requires |m.payload| <= 5
    requires 1 <= Weight(Flipped(m, received)) <= 3
    ensures Rejected(p, received)
  {
    hide Encode, Passes, Region, Rejected;
    EncodedPasses(m);
    UpToThreeFlipsDetected(Region(Encode(m)), Region(received));
    BadCrcIsRejected(p, m, received);
  }

  // ---------------------------------------------------------------- a double error nothing catches

  lemma {:induction false} BitAt(s: seq<byte>, k: nat, j: nat)
    requires k < |s| && j < 8
    ensures Bits(s)[8 * k + j] == ByteBits(s[k])[j]
    decreases s
  {
    hide ByteBits;
    if k > 0 {
      BitAt(s[1..], k - 1, j);
    }
  }

  lemma FlipTopBit(v: byte, j: nat)
    requires j < 8
    ensures ByteBits(v ^ 0x80)[j] != ByteBits(v)[j] <==> j == 0
  {}

  lemma FlipSixthBit(v: byte, j: nat)
    requires j < 8
    ensures ByteBits(v ^ 0x04)[j] != ByteBits(v)[j] <==> j == 5
  {}

  /** A frame with the first bit of the flags and, 93 bits on, one bit of the seventh payload byte flipped. */
  function Disturbed(frame: seq<byte>): (r: seq<byte>)
    requires |frame| > 14
    ensures |r| == |frame|
  {
    frame[3 := frame[3] ^ 0x80][14 := frame[14] ^ 0x04]
  }

  /** The same two flips in the covered bytes alone. */
  function DisturbedRegion(sent: seq<byte>): (r: seq<byte>)
    requires |sent| > 11
    ensures |r| == |sent|
  {
    sent[0 := sent[0] ^ 0x80][11 := sent[11] ^ 0x04]
  }

  lemma ErrorAt(sent: seq<byte>, received: seq<byte>, k: nat, j: nat)
    requires |sent| == |received| && k < |sent| && j < 8
    ensures ErrorPattern(sent, received)[8 * k + j] <==> ByteBits(sent[k])[j] != ByteBits(received[k])[j]
  {
    hide Bits, ByteBits;
    BitAt(sent, k, j);
    BitAt(received, k, j);
  }

  lemma DisturbedFlips(sent: seq<byte>, k: nat, j: nat)
    requires |sent| > 11 && k < |sent| && j < 8
    ensures ErrorPattern(sent, DisturbedRegion(sent))[8 * k + j] <==> 8 * k + j == 0 || 8 * k + j == 93
  {
    hide ErrorPattern, ByteBits;
    ErrorAt(sent, DisturbedRegion(sent), k, j);
    if k == 0 {
      FlipTopBit(sent[0], j);
    } else if k == 11 {
      FlipSixthBit(sent[11], j);
    }
  }

  lemma DisturbedFlipsExactly(sent: seq<byte>)
    requires |sent| > 11
    ensures FlipsExactly(ErrorPattern(sent, DisturbedRegion(sent)), 0, 93)
  {
    hide ErrorPattern, DisturbedRegion;
    forall i | 0 <= i < 8 * |sent|
      ensures ErrorPattern(sent, DisturbedRegion(sent))[i] <==> i == 0 || i == 93
    {
      DisturbedFlips(sent, i / 8, i % 8);
    }
  }

  /** The flow message with one bit of its seventh payload byte, a byte of the second count, flipped. */
  function Altered(m: Message): Message
    requires |m.payload| == 9
  {
    Message(m.command, m.payload[6 := m.payload[6] ^ 0x04])
  }

  lemma DisturbedPayload(m: Message)
    requires |m.payload| == 9
    ensures HeaderIntact(m, Disturbed(Encode(m))) && Carried(m, Disturbed(Encode(m))) == Altered(m)
  {
    hide Crc, Low, High, Word;
    var e := Encode(m);
    assert e[4] == Low(m.command) && e[5] == High(m.command);
    assert e[14] == m.payload[6] && e[8..17] == m.payload;
    assert Disturbed(e)[8..17] == m.payload[6 := e[14] ^ 0x04];
    WordRoundTrip(m.command);
  }

  lemma SixthBitMatters(v: byte)
    ensures v ^ 0x04 != v
  {}

  /**
   * Every optical flow frame is long enough for it: with those two bits flipped, any idle parser hands over a message
   * with a different count.
   */
  lemma FlowFrameFooled(p: Parser, m: Message)
    requires p.Valid() && p.state == Idle && |m.payload| == 9
    ensures Output(p, Disturbed(Encode(m))) == [Altered(m)] && Altered(m) != m
  {
    hide Encode, Passes, ErrorPattern, HeaderIntact, FlipsExactly, Output, Carried;
    DisturbedPayload(m);
    DisturbedPasses(m);
    GoodCrcIsAccepted(p, m, Disturbed(Encode(m)));
    SixthBitMatters(m.payload[6]);
    assert Altered(m).payload[6] != m.payload[6];
  }

  lemma DisturbedPasses(m: Message)
    requires |m.payload| == 9
    ensures Passes(Region(Disturbed(Encode(m))))
  {
    hide Encode, Passes, ErrorPattern, FlipsExactly;
    DisturbedFlipsExactly(Region(Encode(m)));
    assert Region(Disturbed(Encode(m))) == DisturbedRegion(Region(Encode(m)));
    EncodedPasses(m);
    TwoFlipsDetected(Region(Encode(m)), Region(Disturbed(Encode(m))), 0, 93);
  }
}
