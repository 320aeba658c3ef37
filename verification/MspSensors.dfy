// The two sensor messages FlowCAN sends over MSP (protocol/msp.c:36-52), and how a receiver reads them back.
module MspSensors {
  import opened Common
  import opened Bytes
  import opened Msp
  import opened MspParser
  import opened Samples

  const OPTIC_FLOW: u16 := 0x1F02
  const RANGEFINDER: u16 := 0x1F01

  // ---------------------------------------------------------------- signed 32-bit fields, little endian

  function Unsigned(v: int32): (u: nat)
    ensures u < 0x1_0000_0000
  {
    if v < 0 then v + 0x1_0000_0000 else v
  }

  function Int32Bytes(v: int32): (r: seq<byte>)
    ensures |r| == 4
  {
    var u := Unsigned(v);
    [Low(u), Low(u / 0x100), Low(u / 0x1_0000), Low(u / 0x100_0000)]
  }

  /** What a receiver makes of four bytes. */
  function Int32Of(b: seq<byte>): int32
    requires |b| == 4
  {
    var u := Value(b[0]) + 0x100 * Value(b[1]) + 0x1_0000 * Value(b[2]) + 0x100_0000 * Value(b[3]);
    if u >= 0x8000_0000 then u - 0x1_0000_0000 else u
  }

  lemma FourDigits(u: nat)
    requires u < 0x1_0000_0000
    ensures u % 256 + 0x100 * (u / 0x100 % 256) + 0x1_0000 * (u / 0x1_0000 % 256) + 0x100_0000 * (u / 0x100_0000 % 256) == u
  {
    var v := u / 0x100;
    var w := v / 0x100;
    assert w == u / 0x1_0000;
    assert w / 0x100 == u / 0x100_0000;
  }

  lemma Int32RoundTrip(v: int32)
    ensures Int32Of(Int32Bytes(v)) == v
  {
    hide Value, ByteOfValue;
    var u := Unsigned(v);
    FourDigits(u);
    ValueRoundTrip(u % 256);
    ValueRoundTrip(u / 0x100 % 256);
    ValueRoundTrip(u / 0x1_0000 % 256);
    ValueRoundTrip(u / 0x100_0000 % 256);
  }

  // ---------------------------------------------------------------- the messages

  function FlowMessage(s: FlowSample): (m: Message)
    ensures m.Valid() && |m.payload| == 9
  {
    Message(OPTIC_FLOW,
            [ByteOfValue(if s.valid then s.quality else 0)]
            + Int32Bytes(if s.valid then s.countX else 0) + Int32Bytes(if s.valid then s.countY else 0))
  }

  function RangeMessage(s: RangeSample): (m: Message)
    ensures m.Valid() && |m.payload| == 5
  {
    var valid := s.status == Valid;
    Message(RANGEFINDER,
            [ByteOfValue(if valid then s.quality else 0)] + Int32Bytes(if valid then s.distanceMm else -1))
  }

  /** A receiver's reading of a rangefinder message: quality and distance. */
  function ReadRange(m: Message): (u8, int32)
    requires |m.payload| == 5
  {
    (Value(m.payload[0]), Int32Of(m.payload[1..5]))
  }

  /** A receiver's reading of an optical flow message: quality and the two counts. */
  function ReadFlow(m: Message): (u8, int32, int32)
    requires |m.payload| == 9
  {
    (Value(m.payload[0]), Int32Of(m.payload[1..5]), Int32Of(m.payload[5..9]))
  }

  lemma RangeReadBack(s: RangeSample)
    ensures ReadRange(RangeMessage(s)) == if s.status == Valid then (s.quality, s.distanceMm) else (0, -1)
  {
    hide Value, ByteOfValue, Int32Of, Int32Bytes;
    var d: int32 := if s.status == Valid then s.distanceMm else -1;
    ValueRoundTrip(if s.status == Valid then s.quality else 0);
    assert RangeMessage(s).payload[1..5] == Int32Bytes(d);
    Int32RoundTrip(d);
  }

  lemma FlowReadBack(s: FlowSample)
    ensures ReadFlow(FlowMessage(s)) == if s.valid then (s.quality, s.countX, s.countY) else (0, 0, 0)
  {
    hide Value, ByteOfValue, Int32Of, Int32Bytes;
    var x: int32 := if s.valid then s.countX else 0;
    var y: int32 := if s.valid then s.countY else 0;
    ValueRoundTrip(if s.valid then s.quality else 0);
    assert FlowMessage(s).payload[1..5] == Int32Bytes(x);
    assert FlowMessage(s).payload[5..9] == Int32Bytes(y);
    Int32RoundTrip(x);
    Int32RoundTrip(y);
  }

  // ---------------------------------------------------------------- the encoders

  method PutI32(p: array<byte>, at: nat, v: int32)
    requires at + 4 <= p.Length
    modifies p
    ensures p[..at] == old(p[..at]) && p[at..at + 4] == Int32Bytes(v) && p[at + 4..] == old(p[at + 4..])
  {
    hide Low;
    var u := Unsigned(v);
    p[at], p[at + 1], p[at + 2], p[at + 3] := Low(u), Low(u / 0x100), Low(u / 0x1_0000), Low(u / 0x100_0000);
  }

  method EncodeFlow(sample: FlowSample, output: array?<byte>, capacity: nat) returns (n: nat)
    requires output != null ==> capacity <= output.Length
    modifies if output == null then {} else {output}
    ensures output == null || capacity < 18 ==> n == 0 && (output != null ==> output[..] == old(output[..]))
    ensures output != null && capacity >= 18 ==>
              n == 18 && output[..] == Encode(FlowMessage(sample)) + old(output[18..])
  {
    hide Encode, Int32Bytes;
    var payload := new byte[9];
    payload[0] := ByteOfValue(if sample.valid then sample.quality else 0);
    ghost var q := payload[..1];
    PutI32(payload, 1, if sample.valid then sample.countX else 0);
    ghost var x := payload[..5];
    assert x == q + payload[1..5];
    PutI32(payload, 5, if sample.valid then sample.countY else 0);
    assert payload[..9] == x + payload[5..9];
    assert payload[..9] == FlowMessage(sample).payload;
    n := EncodeV2(OPTIC_FLOW, payload, 9, output, capacity);
  }

  method EncodeRange(sample: RangeSample, output: array?<byte>, capacity: nat) returns (n: nat)
    requires output != null ==> capacity <= output.Length
    modifies if output == null then {} else {output}
    ensures output == null || capacity < 14 ==> n == 0 && (output != null ==> output[..] == old(output[..]))
    ensures output != null && capacity >= 14 ==>
              n == 14 && output[..] == Encode(RangeMessage(sample)) + old(output[14..])
  {
    hide Encode, Int32Bytes;
    var payload := new byte[5];
    var valid := sample.status == Valid;
    payload[0] := ByteOfValue(if valid then sample.quality else 0);
    ghost var q := payload[..1];
    PutI32(payload, 1, if valid then sample.distanceMm else -1);
    assert payload[..5] == q + payload[1..5];
    assert payload[..5] == RangeMessage(sample).payload;
    n := EncodeV2(RANGEFINDER, payload, 5, output, capacity);
  }

  // ---------------------------------------------------------------- end to end

  /** A range sample sent to an idle parser is handed over by its last byte, and reads back as the sample means. */
  lemma RangeArrives(p: Parser, s: RangeSample)
    requires p.Valid() && p.state == Idle
    ensures var e, m := Encode(RangeMessage(s)), RangeMessage(s);
            && Output(p, e[..|e| - 1]) == [] && Returns(After(p, e[..|e| - 1]), e[|e| - 1], m)
            && Output(p, e) == [m] && After(p, e).state == Idle
    ensures var m := Output(p, Encode(RangeMessage(s)))[0];
            m.command == 0x1F01 && ReadRange(m) == if s.status == Valid then (s.quality, s.distanceMm) else (0, -1)
  {
    assert RangeMessage(s).command == 0x1F01;
    hide Encode, RangeMessage, ReadRange, Output, After, Returns, Messages, Residue, Pending;
    IdleIsFresh(p);
    var e := Encode(RangeMessage(s));
    IdleParserReads(p, RangeMessage(s));
    RunRefinesGrammar(p, [], e);
    assert [] + e == e;
    EncodedAlone(RangeMessage(s));
    RangeReadBack(s);
  }

  /** The same for a flow sample. */
  lemma FlowArrives(p: Parser, s: FlowSample)
    requires p.Valid() && p.state == Idle
    ensures var e, m := Encode(FlowMessage(s)), FlowMessage(s);
            && Output(p, e[..|e| - 1]) == [] && Returns(After(p, e[..|e| - 1]), e[|e| - 1], m)
            && Output(p, e) == [m] && After(p, e).state == Idle
    ensures var m := Output(p, Encode(FlowMessage(s)))[0];
            m.command == 0x1F02 && ReadFlow(m) == if s.valid then (s.quality, s.countX, s.countY) else (0, 0, 0)
  {
    assert FlowMessage(s).command == 0x1F02;
    hide Encode, FlowMessage, ReadFlow, Output, After, Returns, Messages, Residue, Pending;
    IdleIsFresh(p);
    var e := Encode(FlowMessage(s));
    IdleParserReads(p, FlowMessage(s));
    RunRefinesGrammar(p, [], e);
    assert [] + e == e;
    EncodedAlone(FlowMessage(s));
    FlowReadBack(s);
  }
}
