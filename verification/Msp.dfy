// MSP V2 messages on the wire: the encoder of protocol/msp.c and the grammar its output belongs to.
module Msp {
  import opened Common
  import opened Bytes
  import opened Crc8

  const MAX_PAYLOAD := 64
  const DOLLAR: byte := 0x24
  const LETTER_X: byte := 0x58
  const LESS_THAN: byte := 0x3C

  /** A message as the protocol means it. */
  datatype Message = Message(command: u16, payload: seq<byte>) {
    predicate Valid() {
      |payload| <= MAX_PAYLOAD
    }
  }

  // ---------------------------------------------------------------- little-endian 16-bit fields

  function Low(v: nat): byte {
    ByteOfValue(v % 256)
  }

  function High(v: nat): byte {
    Low(v / 256)
  }

  function Word(low: byte, high: byte): u16 {
    Value(low) + 256 * Value(high)
  }

  lemma WordRoundTrip(v: u16)
    ensures Word(Low(v), High(v)) == v
  {
    hide Value, ByteOfValue;
    ValueRoundTrip(v % 256);
    ValueRoundTrip(v / 256 % 256);
  }

  /** Everything before the payload; the encoder always sends flags 0. */
  function Header(command: u16, length: nat): (r: seq<byte>)
    ensures |r| == 8
  {
    [DOLLAR, LETTER_X, LESS_THAN, 0, Low(command), High(command), Low(length), High(length)]
  }

  /** The bytes the CRC covers, without the CRC itself: flags, command, length, payload. */
  function Covered(m: Message): (r: seq<byte>)
    ensures |r| == 5 + |m.payload|
  {
    Header(m.command, |m.payload|)[3..] + m.payload
  }

  function Encode(m: Message): (r: seq<byte>)
    ensures |r| == 9 + |m.payload|
  {
    Header(m.command, |m.payload|) + m.payload + [Crc(0, Covered(m))]
  }

  /** What is on the wire: dollar, X, less-than, flags 0, command and length with the low byte first, payload, one CRC. */
  lemma FrameLayout(m: Message)
    requires m.Valid()
    ensures var e, n := Encode(m), |m.payload|;
            && |e| == n + 9 && e[0] == 0x24 && e[1] == 0x58 && e[2] == 0x3C && e[3] == 0
            && Value(e[4]) + 256 * Value(e[5]) == m.command && Value(e[6]) + 256 * Value(e[7]) == n
            && e[8..8 + n] == m.payload
  {
    hide Low, High, Value, ByteOfValue, Crc, Covered;
    var h, n := Header(m.command, |m.payload|), |m.payload|;
    assert Encode(m)[..8] == h && Encode(m)[8..8 + n] == m.payload;
    WordRoundTrip(m.command);
    WordRoundTrip(n);
    assert forall k :: 0 <= k < 8 ==> Encode(m)[k] == h[k];
  }

  /** The encoder's loop over the covered bytes of its buffer. */
  method Checksum(buffer: array<byte>, from: nat, to: nat) returns (crc: bv8)
    requires from <= to <= buffer.Length
    ensures crc == Crc(0, buffer[from..to])
  {
    crc := 0;
    var i := from;
    while i < to
      invariant from <= i <= to
      invariant crc == Crc(0, buffer[from..i])
    {
      assert buffer[from..i + 1] == buffer[from..i] + [buffer[i]];
      CrcSnoc(0, buffer[from..i], buffer[i]);
      crc := Crc8DvbS2(crc, buffer[i]);
      i := i + 1;
    }
  }

  /** The condition under which the encoder writes nothing. */
  ghost predicate EncodeRefused(payload: array?<byte>, length: u16, output: array?<byte>, capacity: nat) {
    output == null || (payload == null && length != 0) || length > MAX_PAYLOAD || capacity < length + 9
  }

  method PutU16(p: array<byte>, at: nat, v: u16)
    requires at + 2 <= p.Length
    modifies p
    ensures p[..] == old(p[..])[at := Low(v)][at + 1 := High(v)]
  {
    p[at], p[at + 1] := Low(v), High(v);
  }

  /** memcpy into a buffer, for regions of different objects. */
  method Copy(p: array<byte>, at: nat, from: array<byte>, n: nat)
    requires at + n <= p.Length && n <= from.Length && p != from
    modifies p
    ensures p[..at] == old(p[..at]) && p[at..at + n] == from[..n] && p[at + n..] == old(p[at + n..])
  {
    forall k | 0 <= k < n {
      p[at + k] := from[k];
    }
  }

  method PutHeader(output: array<byte>, command: u16, length: u16)
    requires 8 <= output.Length
    modifies output
    ensures output[..8] == Header(command, length) && output[8..] == old(output[8..])
  {
    hide Low, High;
    output[0], output[1], output[2], output[3] := DOLLAR, LETTER_X, LESS_THAN, 0;
    PutU16(output, 4, command);
    PutU16(output, 6, length);
  }

  /** The writing part of the encoder, once the arguments have been accepted. */
  method WriteFrame(command: u16, payload: array?<byte>, length: u16, output: array<byte>)
    requires 9 + length <= output.Length
    requires if payload == null then length == 0 else length <= payload.Length && payload != output
    modifies output
    ensures var body := if payload == null then [] else old(payload[..length]);
            output[..] == Encode(Message(command, body)) + old(output[9 + length..])
  {
    hide Crc, Header;
    ghost var body := if payload == null then [] else payload[..length];
    ghost var tail := output[9 + length..];
    PutHeader(output, command, length);
    if length != 0 {
      Copy(output, 8, payload, length);
    }
    ghost var head := Header(command, length);
    assert output[..8] == head && output[8..8 + length] == body;
    assert output[3..8 + length] == head[3..] + body;
    var crc := Checksum(output, 3, 8 + length);
    output[8 + length] := crc;
    assert output[..] == output[..8] + output[8..8 + length] + [output[8 + length]] + output[9 + length..];
  }

  method EncodeV2(command: u16, payload: array?<byte>, length: u16, output: array?<byte>, capacity: nat)
    returns (total: nat)
    requires output != null ==> capacity <= output.Length
    requires payload != null && length <= MAX_PAYLOAD ==> length <= payload.Length
    requires payload != null ==> payload != output
    modifies if output == null then {} else {output}
    ensures EncodeRefused(payload, length, output, capacity) ==>
              total == 0 && (output != null ==> output[..] == old(output[..]))
    ensures !EncodeRefused(payload, length, output, capacity) ==>
              var body := if payload == null then [] else old(payload[..length]);
              && total == length + 9
              && output[..] == Encode(Message(command, body)) + old(output[total..])
  {
    total := length + 9;
    if output == null || (payload == null && length != 0) || length > MAX_PAYLOAD || capacity < total {
      return 0;
    }
    WriteFrame(command, payload, length, output);
  }

  // ---------------------------------------------------------------- the grammar of a received stream

  /** What the front of a stream holds. */
  datatype Scan =
    | More                              // an unfinished message, or nothing
    | Skip(count: nat)                  // bytes that are no message
    | Good(count: nat, body: Message)   // a complete message whose CRC agrees

  function ScanFront(s: seq<byte>): (r: Scan)
    ensures r.Skip? ==> 0 < r.count <= |s|
    ensures r.Good? ==> 0 < r.count <= |s| && r.body.Valid()
  {
    if |s| < 1 then More
    else if s[0] != DOLLAR then Skip(1)
    else if |s| < 2 then More
    else if s[1] != LETTER_X then Skip(2)
    else if |s| < 3 then More
    else if s[2] != LESS_THAN then Skip(3)
    else if |s| < 8 then More
    else
      var n: nat := Word(s[6], s[7]);
      if n > MAX_PAYLOAD then Skip(8)
      else if |s| < 9 + n then More
      else if s[8 + n] != Crc(0, s[3..8 + n]) then Skip(9 + n)
      else Good(9 + n, Message(Word(s[4], s[5]), s[8..8 + n]))
  }

  /** The messages of a stream, in order. */
  function Messages(s: seq<byte>): seq<Message>
    decreases |s|
  {
    match ScanFront(s)
    case More => []
    case Skip(n) => Messages(s[n..])
    case Good(n, m) => [m] + Messages(s[n..])
  }

  /** The unfinished message at the end of a stream. */
  function Residue(s: seq<byte>): (r: seq<byte>)
    ensures |r| <= |s| && r == s[|s| - |r|..]
    decreases |s|
  {
    match ScanFront(s)
    case More => s
    case Skip(n) => Residue(s[n..])
    case Good(n, _) => Residue(s[n..])
  }

  predicate DollarFree(s: seq<byte>) {
    DOLLAR !in s
  }

  lemma {:induction false} NoiseIsSkipped(noise: seq<byte>, rest: seq<byte>)
    requires DollarFree(noise)
    ensures Messages(noise + rest) == Messages(rest)
    decreases noise
  {
    if noise == [] {
      assert noise + rest == rest;
    } else {
      assert (noise + rest)[0] == noise[0];
      assert (noise + rest)[1..] == noise[1..] + rest;
      NoiseIsSkipped(noise[1..], rest);
    }
  }

  lemma EncodedIsScanned(m: Message, rest: seq<byte>)
    requires m.Valid()
    ensures ScanFront(Encode(m) + rest) == Good(9 + |m.payload|, m)
  {
    hide Crc, Word, Low, High;
    var s := Encode(m) + rest;
    var n := |m.payload|;
    assert s[3..8 + n] == Covered(m);
    assert s[8..8 + n] == m.payload;
    assert s[8 + n] == Crc(0, Covered(m));
    WordRoundTrip(m.command);
    WordRoundTrip(n);
    assert s[4] == Low(m.command) && s[5] == High(m.command);
    assert s[6] == Low(n) && s[7] == High(n);
  }

  /** Messages joined with noise in between: each item is the noise before a message, and the message. */
  function Join(items: seq<(seq<byte>, Message)>): seq<byte> {
    if items == [] then [] else items[0].0 + (Encode(items[0].1) + Join(items[1..]))
  }

  function Bodies(items: seq<(seq<byte>, Message)>): (r: seq<Message>)
    ensures |r| == |items|
    ensures forall k :: 0 <= k < |items| ==> r[k] == items[k].1
  {
    if items == [] then [] else [items[0].1] + Bodies(items[1..])
  }

  /** Any list of messages, encoded and separated by noise without a dollar sign, is read back in order. */
  lemma {:induction false} JoinedMessagesDecode(items: seq<(seq<byte>, Message)>, tail: seq<byte>)
    requires forall k :: 0 <= k < |items| ==> DollarFree(items[k].0) && items[k].1.Valid()
    requires DollarFree(tail)
    ensures Messages(Join(items) + tail) == Bodies(items)
    decreases items
  {
    if items == [] {
      assert Join(items) + tail == tail + [];
      NoiseIsSkipped(tail, []);
    } else {
      var m := items[0].1;
      var rest := Join(items[1..]) + tail;
      assert Join(items) + tail == items[0].0 + (Encode(m) + rest);
      NoiseIsSkipped(items[0].0, Encode(m) + rest);
      EncodedIsScanned(m, rest);
      assert (Encode(m) + rest)[9 + |m.payload|..] == rest;
      JoinedMessagesDecode(items[1..], tail);
    }
  }

  /** Noise may not end in a dollar sign: the message behind it is lost, whenever it holds no second dollar sign. */
  lemma StrayDollarLosesMessage(m: Message)
    requires DollarFree(Encode(m)[1..])
    ensures Messages([DOLLAR] + Encode(m)) == []
  {
    hide Crc, Low, High;
    var s, rest := [DOLLAR] + Encode(m), Encode(m)[1..];
    assert Encode(m)[0] == DOLLAR;
    assert s[0] == s[1] == DOLLAR;
    assert ScanFront(s) == Skip(2);
    assert s[2..] == rest == rest + [];
    NoiseIsSkipped(rest, []);
  }
}
